/** The queue of network-management commands for sleeping nodes (src/CC_NetworkManagement_queue.c):
    commands wait until their node wakes up, are handed over one node at a time, and each gets one
    final answer. */
module NmQueue {
  import opened Common

  const MAX_QUEUED := 10

  // A queued command. `id` numbers the commands in the order they arrived.
  datatype Element = Element(slot: nat, id: nat, node: nat)

  // What the outside sees. `Deferred` is the first "waiting" answer and marks acceptance.
  datatype Entry =
    | Deferred(id: nat, node: nat)
    | StillWaiting(id: nat)
    | Started(id: nat, node: nat)     // handed to the network-management handler
    | Answered(id: nat, ack: bool)    // the final ACK or NAK
    | GaveBack(node: nat)             // the node is left to the mailbox

  datatype Queue = Queue(list: seq<Element>, inUse: set<nat>, current: nat, arrivals: nat, log: seq<Entry>)

  // ---------------------------------------------------------------- operations

  // NetworkManagement_queue_command: false leaves the command to its caller.
  function Accept(s: Queue, node: nat): (Queue, bool) {
    var slot := LowestFree(s.inUse, MAX_QUEUED, 0);
    if slot.None? then (s, false)
    else (s.(list := s.list + [Element(slot.value, s.arrivals, node)], inUse := s.inUse + {slot.value},
             arrivals := s.arrivals + 1, log := s.log + [Deferred(s.arrivals, node)]), true)
  }

  // The position of the first command for the node, or the length of the list.
  function Find(list: seq<Element>, node: nat): (i: nat)
    ensures i <= |list|
    ensures i < |list| ==> list[i].node == node
    ensures forall j :: 0 <= j < i ==> list[j].node != node
  {
    if list == [] || list[0].node == node then 0 else 1 + Find(list[1..], node)
  }

  // NetworkManagement_queue_remove_element
  function Remove(s: Queue, i: nat, ack: bool): Queue
    requires i < |s.list|
  {
    s.(list := Without(s.list, i), inUse := s.inUse - {s.list[i].slot}, log := s.log + [Answered(s.list[i].id, ack)])
  }

  // The handler takes the command: the node becomes the one being served.
  function HandOver(s: Queue, i: nat): Queue
    requires i < |s.list|
  {
    Remove(s.(current := s.list[i].node, log := s.log + [Started(s.list[i].id, s.list[i].node)]), i, true)
  }

  // NetworkManagement_queue_wakeup_event; `busy` is the handler's answer.
  function WakeUp(s: Queue, node: nat, busy: bool): (Queue, bool) {
    var i := Find(s.list, node);
    if i < |s.list| && (s.current == 0 || s.current == node) && !busy then (HandOver(s, i), true) else (s, false)
  }

  // NetworkManagement_queue_nm_done_event
  function NmDone(s: Queue, busy: bool): Queue {
    if s.current == 0 then s
    else
      var (u, more) := WakeUp(s, s.current, busy);
      if more then u else s.(current := 0, log := s.log + [GaveBack(s.current)])
  }

  function PurgeNode(s: Queue, node: nat): Queue
    decreases |s.list|
  {
    var i := Find(s.list, node);
    if i < |s.list| then PurgeNode(Remove(s, i, false), node) else s
  }

  function PurgeAll(s: Queue): Queue
    decreases |s.list|
  {
    if s.list == [] then s else PurgeAll(Remove(s, 0, false))
  }

  datatype Event =
    | Command(node: nat)
    | Wake(node: nat, busy: bool)
    | Done(busy: bool)
    | Purge(node: nat)
    | PurgeEverything
    | WaitingTimeout(index: nat)

  function Step(s: Queue, e: Event): Queue {
    match e
    case Command(node) => if node == 0 then s else Accept(s, node).0
    case Wake(node, busy) => WakeUp(s, node, busy).0
    case Done(busy) => NmDone(s, busy)
    case Purge(node) => PurgeNode(s, node)
    case PurgeEverything => PurgeAll(s)
    case WaitingTimeout(i) => if i < |s.list| then s.(log := s.log + [StillWaiting(s.list[i].id)]) else s
  }

  function Run(s: Queue, es: seq<Event>): Queue
    decreases |es|
  {
    if es == [] then s else Run(Step(s, es[0]), es[1..])
  }

  const EMPTY := Queue([], {}, 0, 0, [])

  // ---------------------------------------------------------------- reading the log

  // How many final answers the command got.
  function Answers(log: seq<Entry>, id: nat): nat {
    if log == [] then 0
    else Answers(log[..|log| - 1], id) + if log[|log| - 1].Answered? && log[|log| - 1].id == id then 1 else 0
  }

  predicate Accepted(log: seq<Entry>, id: nat) {
    exists p :: 0 <= p < |log| && log[p].Deferred? && log[p].id == id
  }

  // The node whose command is under way: set by a start, cleared when it is given back.
  function Holder(log: seq<Entry>): nat {
    if log == [] then 0
    else match log[|log| - 1]
      case Started(_, node) => node
      case GaveBack(_) => 0
      case _ => Holder(log[..|log| - 1])
  }

  predicate Listed(list: seq<Element>, id: nat) {
    exists i :: 0 <= i < |list| && list[i].id == id
  }

  // A command starts only once every earlier command for its node has its final answer, and only
  // while no other node is being served.
  predicate StartOk(before: seq<Entry>, e: Entry) {
    e.Started? ==>
      && (Holder(before) == 0 || Holder(before) == e.node)
      && forall p :: 0 <= p < |before| && before[p].Deferred? && before[p].node == e.node && before[p].id < e.id ==>
           Answers(before, before[p].id) == 1
  }

  predicate StartsOk(log: seq<Entry>) {
    forall p :: 0 <= p < |log| ==> StartOk(log[..p], log[p])
  }

  // Commands are numbered in the order they were accepted.
  predicate InArrivalOrder(log: seq<Entry>, arrivals: nat) {
    && (forall p :: 0 <= p < |log| && log[p].Deferred? ==> log[p].id < arrivals && log[p].node != 0)
    && (forall p, q :: 0 <= p < q < |log| && log[p].Deferred? && log[q].Deferred? ==> log[p].id < log[q].id)
  }

  predicate ListOk(s: Queue) {
    && (forall i :: 0 <= i < |s.list| ==>
      s.list[i].slot in s.inUse && s.list[i].id < s.arrivals && Deferred(s.list[i].id, s.list[i].node) in s.log)
    && (forall i, j :: 0 <= i < j < |s.list| ==> s.list[i].slot != s.list[j].slot && s.list[i].id < s.list[j].id)
    && |s.inUse| == |s.list| && (forall x :: x in s.inUse ==> x < MAX_QUEUED)
  }

  // The command has one answer if it was accepted and has left the list, and none otherwise.
  predicate Balanced(s: Queue, id: nat) {
    Answers(s.log, id) == if Accepted(s.log, id) && !Listed(s.list, id) then 1 else 0
  }

  ghost predicate Ledger(s: Queue) {
    forall id :: Balanced(s, id)
  }

  ghost predicate Inv(s: Queue) {
    ListOk(s) && InArrivalOrder(s.log, s.arrivals) && Ledger(s) && StartsOk(s.log) && s.current == Holder(s.log)
  }

  // ---------------------------------------------------------------- one entry more

  lemma {:induction false} AnswersAppend(log: seq<Entry>, e: Entry, id: nat)
    ensures Answers(log + [e], id) == Answers(log, id) + if e.Answered? && e.id == id then 1 else 0
  {
    assert (log + [e])[..|log|] == log;
  }

  lemma {:induction false} HolderAppend(log: seq<Entry>, e: Entry)
    ensures Holder(log + [e]) == match e case Started(_, node) => node case GaveBack(_) => 0 case _ => Holder(log)
  {
    assert (log + [e])[..|log|] == log;
  }

  lemma {:induction false} AcceptedAppend(log: seq<Entry>, e: Entry, id: nat)
    ensures Accepted(log + [e], id) <==> Accepted(log, id) || (e.Deferred? && e.id == id)
  {
    var l := log + [e];
    if Accepted(log, id) {
      var p :| 0 <= p < |log| && log[p].Deferred? && log[p].id == id;
      assert l[p] == log[p];
    }
    if e.Deferred? && e.id == id { assert l[|log|] == e; }
  }

  lemma {:induction false} StartsAppend(log: seq<Entry>, e: Entry)
    requires StartsOk(log) && StartOk(log, e)
    ensures StartsOk(log + [e])
  {
    var l := log + [e];
    forall p | 0 <= p < |l| ensures StartOk(l[..p], l[p]) {
      if p < |log| { assert l[..p] == log[..p]; } else { assert l[..p] == log; }
    }
  }

  lemma {:induction false} OrderAppend(log: seq<Entry>, e: Entry, arrivals: nat)
    requires InArrivalOrder(log, arrivals)
    requires e.Deferred? ==> e.id == arrivals && e.node != 0
    ensures InArrivalOrder(log + [e], if e.Deferred? then arrivals + 1 else arrivals)
  {
  }

  // An entry that neither accepts nor answers changes the ledger in nothing.
  lemma {:induction false} NeutralEntry(s: Queue, e: Entry, current: nat)
    requires Inv(s) && !e.Deferred? && !e.Answered? && StartOk(s.log, e)
    requires current == Holder(s.log + [e])
    ensures Inv(s.(current := current, log := s.log + [e]))
  {
    var u := s.(current := current, log := s.log + [e]);
    forall id ensures Balanced(u, id) {
      assert Balanced(s, id);
      AnswersAppend(s.log, e, id);
      AcceptedAppend(s.log, e, id);
    }
    StartsAppend(s.log, e);
    OrderAppend(s.log, e, s.arrivals);
  }

  // ---------------------------------------------------------------- every operation keeps the books

  lemma {:induction false} NewIsUnknown(s: Queue)
    requires ListOk(s) && InArrivalOrder(s.log, s.arrivals)
    ensures !Accepted(s.log, s.arrivals) && !Listed(s.list, s.arrivals)
  {
  }

  lemma {:induction false} ListedAppend(list: seq<Element>, e: Element, id: nat)
    ensures Listed(list + [e], id) <==> Listed(list, id) || e.id == id
  {
    var l := list + [e];
    if Listed(list, id) {
      var i :| 0 <= i < |list| && list[i].id == id;
      assert l[i].id == id;
    }
    if e.id == id { assert l[|list|].id == id; }
  }

  lemma {:induction false} AcceptKeepsList(s: Queue, node: nat)
    requires ListOk(s)
    ensures ListOk(Accept(s, node).0)
  {
    var (u, ok) := Accept(s, node);
    if ok {
      assert forall i :: 0 <= i < |s.list| ==> u.list[i] == s.list[i];
      assert u.log[|s.log|] == Deferred(s.arrivals, node);
      forall i | 0 <= i < |s.list| ensures Deferred(s.list[i].id, s.list[i].node) in u.log {
        assert Deferred(s.list[i].id, s.list[i].node) in s.log;
      }
    }
  }

  lemma {:induction false} AcceptBalances(s: Queue, u: Queue, x: Element, id: nat)
    requires Balanced(s, id) && !Accepted(s.log, x.id) && !Listed(s.list, x.id)
    requires u.list == s.list + [x] && u.log == s.log + [Deferred(x.id, x.node)]
    ensures Balanced(u, id)
  {
    AnswersAppend(s.log, Deferred(x.id, x.node), id);
    AcceptedAppend(s.log, Deferred(x.id, x.node), id);
    ListedAppend(s.list, x, id);
  }

  lemma {:induction false} AppendKeepsLedger(s: Queue, u: Queue, x: Element)
    requires Ledger(s) && !Accepted(s.log, x.id) && !Listed(s.list, x.id)
    requires u.list == s.list + [x] && u.log == s.log + [Deferred(x.id, x.node)]
    ensures Ledger(u)
  {
    forall id ensures Balanced(u, id) {
      assert Balanced(s, id);
      AcceptBalances(s, u, x, id);
    }
  }

  lemma {:induction false} AcceptKeeps(s: Queue, node: nat)
    requires Inv(s) && node != 0
    ensures Inv(Accept(s, node).0)
  {
    var (u, ok) := Accept(s, node);
    if ok {
      var e := Deferred(s.arrivals, node);
      AcceptKeepsList(s, node);
      NewIsUnknown(s);
      AppendKeepsLedger(s, u, Element(LowestFree(s.inUse, MAX_QUEUED, 0).value, s.arrivals, node));
      StartsAppend(s.log, e);
      OrderAppend(s.log, e, s.arrivals);
      HolderAppend(s.log, e);
    }
  }

  // Removing a command takes its number off the list and no other.
  lemma {:induction false} ListedWithout(list: seq<Element>, i: nat, id: nat)
    requires i < |list| && forall k, m :: 0 <= k < m < |list| ==> list[k].id < list[m].id
    ensures Listed(Without(list, i), id) <==> Listed(list, id) && id != list[i].id
  {
    var l := Without(list, i);
    if Listed(l, id) {
      var k :| 0 <= k < |l| && l[k].id == id;
      WithoutMember(list, i, k);
    }
    if Listed(list, id) && id != list[i].id {
      var k :| 0 <= k < |list| && list[k].id == id;
      var m := if k < i then k else k - 1;
      WithoutMember(list, i, m);
      assert l[m].id == id;
    }
  }

  lemma {:induction false} RemoveKeepsList(s: Queue, i: nat, ack: bool)
    requires ListOk(s) && i < |s.list|
    ensures ListOk(Remove(s, i, ack))
  {
    var u := Remove(s, i, ack);
    forall k | 0 <= k < |u.list|
      ensures u.list[k].slot in u.inUse && u.list[k].id < u.arrivals && Deferred(u.list[k].id, u.list[k].node) in u.log
    {
      WithoutMember(s.list, i, k);
      var m := if k < i then k else k + 1;
      assert Deferred(s.list[m].id, s.list[m].node) in s.log;
    }
    forall k, m | 0 <= k < m < |u.list|
      ensures u.list[k].slot != u.list[m].slot && u.list[k].id < u.list[m].id
    {
      WithoutMember(s.list, i, k);
      WithoutMember(s.list, i, m);
    }
  }

  lemma {:induction false} RemoveBalances(s: Queue, i: nat, ack: bool, id: nat)
    requires Balanced(s, id) && i < |s.list| && Accepted(s.log, s.list[i].id) && Listed(s.list, s.list[i].id)
    requires forall k, m :: 0 <= k < m < |s.list| ==> s.list[k].id < s.list[m].id
    ensures Balanced(Remove(s, i, ack), id)
  {
    AnswersAppend(s.log, Answered(s.list[i].id, ack), id);
    AcceptedAppend(s.log, Answered(s.list[i].id, ack), id);
    ListedWithout(s.list, i, id);
  }

  lemma {:induction false} RemoveKeeps(s: Queue, i: nat, ack: bool)
    requires Inv(s) && i < |s.list|
    ensures Inv(Remove(s, i, ack))
  {
    var u := Remove(s, i, ack);
    var e := Answered(s.list[i].id, ack);
    RemoveKeepsList(s, i, ack);
    ListedAccepted(s, i);
    forall id ensures Balanced(u, id) {
      assert Balanced(s, id);
      RemoveBalances(s, i, ack, id);
    }
    StartsAppend(s.log, e);
    OrderAppend(s.log, e, s.arrivals);
    HolderAppend(s.log, e);
  }

  lemma {:induction false} ListedAccepted(s: Queue, i: nat)
    requires ListOk(s) && i < |s.list|
    ensures Accepted(s.log, s.list[i].id) && Listed(s.list, s.list[i].id)
  {
    assert Deferred(s.list[i].id, s.list[i].node) in s.log;
    var p :| 0 <= p < |s.log| && s.log[p] == Deferred(s.list[i].id, s.list[i].node);
  }

  lemma {:induction false} SameIdSameNode(s: Queue, k: nat, p: nat)
    requires ListOk(s) && InArrivalOrder(s.log, s.arrivals) && k < |s.list| && p < |s.log|
    requires s.log[p].Deferred? && s.log[p].id == s.list[k].id
    ensures s.log[p].node == s.list[k].node
  {
    assert Deferred(s.list[k].id, s.list[k].node) in s.log;
    var q :| 0 <= q < |s.log| && s.log[q] == Deferred(s.list[k].id, s.list[k].node);
  }

  // An earlier command for the node that is still listed would have been found first.
  lemma {:induction false} EarlierAnswered(s: Queue, i: nat, p: nat)
    requires Inv(s) && i < |s.list| && i == Find(s.list, s.list[i].node)
    requires p < |s.log| && s.log[p].Deferred? && s.log[p].node == s.list[i].node && s.log[p].id < s.list[i].id
    ensures Answers(s.log, s.log[p].id) == 1
  {
    assert Accepted(s.log, s.log[p].id);
    forall k | 0 <= k < |s.list| ensures s.list[k].id != s.log[p].id {
      if s.list[k].id == s.log[p].id { SameIdSameNode(s, k, p); }
    }
    assert Balanced(s, s.log[p].id);
  }

  lemma {:induction false} HandOverKeeps(s: Queue, node: nat)
    requires Inv(s) && Find(s.list, node) < |s.list| && (s.current == 0 || s.current == node)
    ensures Inv(HandOver(s, Find(s.list, node)))
  {
    var i := Find(s.list, node);
    var e := Started(s.list[i].id, node);
    forall p | 0 <= p < |s.log| && s.log[p].Deferred? && s.log[p].node == node && s.log[p].id < e.id
      ensures Answers(s.log, s.log[p].id) == 1
    {
      EarlierAnswered(s, i, p);
    }
    HolderAppend(s.log, e);
    NeutralEntry(s, e, node);
    RemoveKeeps(s.(current := node, log := s.log + [e]), i, true);
  }

  lemma {:induction false} WakeUpKeeps(s: Queue, node: nat, busy: bool)
    requires Inv(s)
    ensures Inv(WakeUp(s, node, busy).0)
  {
    if Find(s.list, node) < |s.list| && (s.current == 0 || s.current == node) && !busy { HandOverKeeps(s, node); }
  }

  lemma {:induction false} NmDoneKeeps(s: Queue, busy: bool)
    requires Inv(s)
    ensures Inv(NmDone(s, busy))
  {
    if s.current != 0 {
      WakeUpKeeps(s, s.current, busy);
      if !WakeUp(s, s.current, busy).1 {
        HolderAppend(s.log, GaveBack(s.current));
        NeutralEntry(s, GaveBack(s.current), 0);
      }
    }
  }

  // The commands of the other nodes, in their order.
  function Others(list: seq<Element>, node: nat): seq<Element> {
    if list == [] then [] else (if list[0].node == node then [] else [list[0]]) + Others(list[1..], node)
  }

  lemma {:induction false} OthersWithout(list: seq<Element>, i: nat, node: nat)
    requires i < |list| && list[i].node == node
    ensures Others(Without(list, i), node) == Others(list, node)
  {
    if i == 0 {
      assert Without(list, i) == list[1..];
    } else {
      OthersWithout(list[1..], i - 1, node);
      assert Without(list, i)[1..] == Without(list[1..], i - 1);
    }
  }

  lemma {:induction false} OthersAll(list: seq<Element>, node: nat)
    requires Find(list, node) == |list|
    ensures Others(list, node) == list
  {
    if list != [] { OthersAll(list[1..], node); }
  }

  /** Purging a node takes out its commands and leaves the others in their order; each one taken out
      is answered, so the books stay balanced. */
  lemma {:induction false} PurgeNodeKeeps(s: Queue, node: nat)
    requires Inv(s)
    ensures Inv(PurgeNode(s, node)) && PurgeNode(s, node).list == Others(s.list, node)
    ensures PurgeNode(s, node).current == s.current
    decreases |s.list|
  {
    var i := Find(s.list, node);
    if i < |s.list| {
      RemoveKeeps(s, i, false);
      OthersWithout(s.list, i, node);
      PurgeNodeKeeps(Remove(s, i, false), node);
    } else {
      OthersAll(s.list, node);
    }
  }

  lemma {:induction false} PurgeAllKeeps(s: Queue)
    requires Inv(s)
    ensures Inv(PurgeAll(s)) && PurgeAll(s).list == []
    decreases |s.list|
  {
    if s.list != [] {
      RemoveKeeps(s, 0, false);
      PurgeAllKeeps(Remove(s, 0, false));
    }
  }

  lemma {:induction false} WaitingKeeps(s: Queue, id: nat)
    requires Inv(s)
    ensures Inv(s.(log := s.log + [StillWaiting(id)]))
  {
    HolderAppend(s.log, StillWaiting(id));
    NeutralEntry(s, StillWaiting(id), s.current);
  }

  lemma {:induction false} TimeoutKeeps(s: Queue, i: nat)
    requires Inv(s)
    ensures Inv(Step(s, WaitingTimeout(i)))
  {
    if i < |s.list| { WaitingKeeps(s, s.list[i].id); } else { assert Step(s, WaitingTimeout(i)) == s; }
  }

  lemma {:induction false} CommandKeeps(s: Queue, node: nat)
    requires Inv(s)
    ensures Inv(Step(s, Command(node)))
  {
    if node != 0 { AcceptKeeps(s, node); } else { assert Step(s, Command(node)) == s; }
  }

  lemma {:induction false} StepKeeps(s: Queue, e: Event)
    requires Inv(s)
    ensures Inv(Step(s, e))
  {
    if e.Command? { CommandKeeps(s, e.node); }
    else if e.WaitingTimeout? { TimeoutKeeps(s, e.index); }
    else { ServiceKeeps(s, e, Step(s, e)); }
  }

  lemma {:induction false} ServiceKeeps(s: Queue, e: Event, u: Queue)
    requires Inv(s) && (e.Wake? || e.Done? || e.Purge? || e.PurgeEverything?) && u == Step(s, e)
    ensures Inv(u)
  {
    if e.Wake? {
      WakeUpKeeps(s, e.node, e.busy);
      assert u == WakeUp(s, e.node, e.busy).0;
    } else if e.Done? {
      NmDoneKeeps(s, e.busy);
      assert u == NmDone(s, e.busy);
    } else if e.Purge? {
      PurgeNodeKeeps(s, e.node);
      assert u == PurgeNode(s, e.node);
    } else {
      PurgeAllKeeps(s);
      assert u == PurgeAll(s);
    }
  }

  /** In every state of every run: the listed elements are exactly the allocated ones, at most ten;
      every accepted command is listed and unanswered or has exactly one final answer; commands of a
      node started in arrival order, each after all earlier ones were answered; and none started
      while another node was being served. */
  lemma {:induction false} RunKeeps(s: Queue, es: seq<Event>)
    requires Inv(s)
    ensures Inv(Run(s, es))
    decreases |es|
  {
    if es != [] {
      StepKeeps(s, es[0]);
      RunKeeps(Step(s, es[0]), es[1..]);
    }
  }

  // ---------------------------------------------------------------- ACK means executed

  // A start is followed at once by its ACK, and every ACK follows the start of its command.
  predicate AckIsStart(log: seq<Entry>) {
    && (forall p :: 0 <= p < |log| && log[p].Started? ==> p + 1 < |log| && log[p + 1] == Answered(log[p].id, true))
    && (forall p :: 0 <= p < |log| && log[p].Answered? && log[p].ack ==>
      p > 0 && log[p - 1].Started? && log[p - 1].id == log[p].id)
  }

  lemma {:induction false} AckAppend(log: seq<Entry>, e: Entry)
    requires AckIsStart(log) && !e.Started? && !(e.Answered? && e.ack)
    ensures AckIsStart(log + [e])
  {
  }

  lemma {:induction false} AckAppendStart(log: seq<Entry>, id: nat, node: nat)
    requires AckIsStart(log)
    ensures AckIsStart(log + [Started(id, node)] + [Answered(id, true)])
  {
  }

  lemma {:induction false} PurgeNodeAck(s: Queue, node: nat)
    requires AckIsStart(s.log)
    ensures AckIsStart(PurgeNode(s, node).log)
    decreases |s.list|
  {
    var i := Find(s.list, node);
    if i < |s.list| {
      AckAppend(s.log, Answered(s.list[i].id, false));
      PurgeNodeAck(Remove(s, i, false), node);
    }
  }

  lemma {:induction false} PurgeAllAck(s: Queue)
    requires AckIsStart(s.log)
    ensures AckIsStart(PurgeAll(s).log)
    decreases |s.list|
  {
    if s.list != [] {
      AckAppend(s.log, Answered(s.list[0].id, false));
      PurgeAllAck(Remove(s, 0, false));
    }
  }

  lemma {:induction false} StepAck(s: Queue, e: Event)
    requires AckIsStart(s.log)
    ensures AckIsStart(Step(s, e).log)
  {
    match e
    case Command(node) => AckAppend(s.log, Deferred(s.arrivals, node));
    case Wake(node, busy) => WakeAck(s, node, busy);
    case Done(busy) =>
      WakeAck(s, s.current, busy);
      AckAppend(s.log, GaveBack(s.current));
    case Purge(node) => PurgeNodeAck(s, node);
    case PurgeEverything => PurgeAllAck(s);
    case WaitingTimeout(i) => if i < |s.list| { AckAppend(s.log, StillWaiting(s.list[i].id)); }
  }

  lemma {:induction false} WakeAck(s: Queue, node: nat, busy: bool)
    requires AckIsStart(s.log)
    ensures AckIsStart(WakeUp(s, node, busy).0.log)
  {
    var i := Find(s.list, node);
    if i < |s.list| { AckAppendStart(s.log, s.list[i].id, s.list[i].node); }
  }

  /** In every run a command is answered ACK exactly when it was handed to the handler; every other
      final answer is a NAK. */
  lemma {:induction false} RunAck(s: Queue, es: seq<Event>)
    requires AckIsStart(s.log)
    ensures AckIsStart(Run(s, es).log)
    decreases |es|
  {
    if es != [] {
      StepAck(s, es[0]);
      RunAck(Step(s, es[0]), es[1..]);
    }
  }

  /** The life of a command in any run from the empty queue: it is answered at most once, exactly once
      when it has left the list, and after a purge of everything all accepted commands are answered. */
  lemma {:induction false} EachAnsweredOnce(es: seq<Event>, id: nat)
    ensures var s := Run(EMPTY, es);
      && (Accepted(s.log, id) ==> Answers(s.log, id) == if Listed(s.list, id) then 0 else 1)
      && (!Accepted(s.log, id) ==> Answers(s.log, id) == 0)
      && |s.list| <= MAX_QUEUED
      && (Accepted(s.log, id) ==> Answers(PurgeAll(s).log, id) == 1)
  {
    var s := Run(EMPTY, es);
    EmptyInv();
    RunKeeps(EMPTY, es);
    assert Balanced(s, id);
    UsedBound(s.inUse, MAX_QUEUED);
    PurgeAllKeeps(s);
    assert Balanced(PurgeAll(s), id);
    if Accepted(s.log, id) { PurgeAllAccepted(s, id); }
  }

  lemma {:induction false} EmptyInv()
    ensures Inv(EMPTY)
  {
    forall id ensures Balanced(EMPTY, id) {}
  }

  lemma {:induction false} UsedBound(used: set<nat>, n: nat)
    requires forall x :: x in used ==> x < n
    ensures |used| <= n
  {
    if n > 0 {
      UsedBound(used - {n - 1}, n - 1);
    } else {
      assert used == {};
    }
  }

  lemma {:induction false} PurgeAllAccepted(s: Queue, id: nat)
    requires Accepted(s.log, id)
    ensures Accepted(PurgeAll(s).log, id)
    decreases |s.list|
  {
    if s.list != [] {
      AcceptedAppend(s.log, Answered(s.list[0].id, false), id);
      PurgeAllAccepted(Remove(s, 0, false), id);
    }
  }

  // A command is taken in exactly while fewer than ten wait.
  lemma {:induction false} AcceptsUnlessFull(s: Queue, node: nat)
    requires Inv(s)
    ensures Accept(s, node).1 <==> |s.list| < MAX_QUEUED
  {
    if |s.list| < MAX_QUEUED {
      SlotExists(s.inUse, MAX_QUEUED, 0);
    } else if LowestFree(s.inUse, MAX_QUEUED, 0).Some? {
      var x := LowestFree(s.inUse, MAX_QUEUED, 0).value;
      UsedBound(s.inUse + {x}, MAX_QUEUED);
    }
  }

  // ---------------------------------------------------------------- serving a node

  function DoneTimes(s: Queue, n: nat): Queue
    decreases n
  {
    if n == 0 then s else DoneTimes(NmDone(s, false), n - 1)
  }

  function CountNode(list: seq<Element>, node: nat): nat {
    if list == [] then 0 else (if list[0].node == node then 1 else 0) + CountNode(list[1..], node)
  }

  lemma {:induction false} CountWithout(list: seq<Element>, i: nat, node: nat)
    requires i < |list| && list[i].node == node
    ensures CountNode(list, node) == CountNode(Without(list, i), node) + 1
  {
    if i == 0 {
      assert Without(list, i) == list[1..];
    } else {
      CountWithout(list[1..], i - 1, node);
      assert Without(list, i)[1..] == Without(list[1..], i - 1);
    }
  }

  lemma {:induction false} CountNone(list: seq<Element>, node: nat)
    requires Find(list, node) == |list|
    ensures CountNode(list, node) == 0
  {
    if list != [] { CountNone(list[1..], node); }
  }

  // A completion hands over one more command, or gives the node back when none is left.
  lemma {:induction false} CompletionServes(s: Queue, node: nat)
    requires node != 0 && s.current == node
    ensures var u := NmDone(s, false);
      if CountNode(s.list, node) == 0 then u == s.(current := 0, log := s.log + [GaveBack(node)])
      else u.current == node && CountNode(u.list, node) == CountNode(s.list, node) - 1 && |u.list| < |s.list|
           && Others(u.list, node) == Others(s.list, node)
  {
    var i := Find(s.list, node);
    if i < |s.list| {
      CountWithout(s.list, i, node);
      OthersWithout(s.list, i, node);
    } else {
      CountNone(s.list, node);
    }
  }

  lemma {:induction false} ServesTheRest(s: Queue, node: nat)
    requires node != 0 && s.current == node
    ensures var u := DoneTimes(s, CountNode(s.list, node) + 1);
      u.list == Others(s.list, node) && u.current == 0 && |u.log| > 0 && u.log[|u.log| - 1] == GaveBack(node)
    decreases |s.list|
  {
    var n := CountNode(s.list, node);
    CompletionServes(s, node);
    if n > 0 {
      ServesTheRest(NmDone(s, false), node);
    } else {
      NobodyLeft(s.list, node);
      assert DoneTimes(s, 1) == DoneTimes(NmDone(s, false), 0);
    }
  }

  lemma {:induction false} NobodyLeft(list: seq<Element>, node: nat)
    requires CountNode(list, node) == 0
    ensures Others(list, node) == list
  {
    if list != [] { NobodyLeft(list[1..], node); }
  }

  // The first command of a woken node is handed over.
  lemma {:induction false} WakeUpServes(s: Queue, node: nat)
    requires node != 0 && s.current == 0 && CountNode(s.list, node) > 0
    ensures var u := WakeUp(s, node, false).0;
      u.current == node && CountNode(u.list, node) == CountNode(s.list, node) - 1 && Others(u.list, node) == Others(s.list, node)
  {
    var i := Find(s.list, node);
    if i == |s.list| { CountNone(s.list, node); }
    CountWithout(s.list, i, node);
    OthersWithout(s.list, i, node);
  }

  /** A node that wakes up while nobody is being served and whose commands the handler takes has all
      of them handed over, one per completion, and is then given back to the mailbox; the commands
      of the other nodes wait on in their order. */
  lemma {:induction false} WakeUpServesAll(s: Queue, node: nat)
    requires node != 0 && s.current == 0 && CountNode(s.list, node) > 0
    ensures var u := DoneTimes(WakeUp(s, node, false).0, CountNode(s.list, node));
      u.list == Others(s.list, node) && u.current == 0 && |u.log| > 0 && u.log[|u.log| - 1] == GaveBack(node)
  {
    WakeUpServes(s, node);
    ServesTheRest(WakeUp(s, node, false).0, node);
  }

  // ---------------------------------------------------------------- whatever comes in between

  function Completions(es: seq<Event>): nat {
    if es == [] then 0 else (if es[0].Done? then 1 else 0) + Completions(es[1..])
  }

  function CommandsFor(es: seq<Event>, node: nat): nat {
    if es == [] then 0 else (if es[0] == Command(node) then 1 else 0) + CommandsFor(es[1..], node)
  }

  // At some completion of `es` the node is given back, and no command for it is left then.
  predicate GivenBack(s: Queue, es: seq<Event>, node: nat)
    decreases |es|
  {
    && es != []
    && (|| (es[0].Done? && CountNode(s.list, node) == 0 && Step(s, es[0]) == s.(current := 0, log := s.log + [GaveBack(node)]))
        || GivenBack(Step(s, es[0]), es[1..], node))
  }

  lemma {:induction false} CountAppend(list: seq<Element>, e: Element, node: nat)
    ensures CountNode(list + [e], node) == CountNode(list, node) + if e.node == node then 1 else 0
  {
    if list == [] {
      assert list + [e] == [e];
    } else {
      CountAppend(list[1..], e, node);
      assert (list + [e])[1..] == list[1..] + [e];
    }
  }

  // Taking out a command never adds one.
  lemma {:induction false} CountShrinks(list: seq<Element>, i: nat, node: nat)
    requires i < |list|
    ensures CountNode(Without(list, i), node) <= CountNode(list, node)
  {
    if i == 0 {
      assert Without(list, i) == list[1..];
    } else {
      CountShrinks(list[1..], i - 1, node);
      assert Without(list, i)[1..] == Without(list[1..], i - 1);
    }
  }

  lemma {:induction false} PurgeNodeShrinks(s: Queue, x: nat, node: nat)
    ensures var u := PurgeNode(s, x); u.current == s.current && CountNode(u.list, node) <= CountNode(s.list, node)
    decreases |s.list|
  {
    var i := Find(s.list, x);
    if i < |s.list| {
      CountShrinks(s.list, i, node);
      PurgeNodeShrinks(Remove(s, i, false), x, node);
    }
  }

  lemma {:induction false} PurgeAllShrinks(s: Queue, node: nat)
    ensures var u := PurgeAll(s); u.current == s.current && CountNode(u.list, node) <= CountNode(s.list, node)
    decreases |s.list|
  {
    if s.list != [] {
      CountShrinks(s.list, 0, node);
      PurgeAllShrinks(Remove(s, 0, false), node);
    }
  }

  // No other event takes the node's turn away, and only a new command for it makes more work.
  lemma {:induction false} OthersDoNotDisturb(s: Queue, e: Event, node: nat)
    requires node != 0 && s.current == node && !e.Done?
    ensures var u := Step(s, e);
      u.current == node && CountNode(u.list, node) <= CountNode(s.list, node) + if e == Command(node) then 1 else 0
  {
    match e
    case Command(x) =>
      var slot := LowestFree(s.inUse, MAX_QUEUED, 0);
      if x != 0 && slot.Some? { CountAppend(s.list, Element(slot.value, s.arrivals, x), node); }
    case Wake(x, _) =>
      var i := Find(s.list, x);
      if i < |s.list| { CountShrinks(s.list, i, node); }
    case Purge(x) => PurgeNodeShrinks(s, x, node);
    case PurgeEverything => PurgeAllShrinks(s, node);
    case WaitingTimeout(_) =>
  }

  /** Whatever comes in between, commands for this node, other nodes waking up, purges and timers: a node
      being served, whose completions find the handler free, is given back at the latest at the first
      completion in excess of its commands, and with none of them left. */
  lemma {:induction false} ServedWhateverComes(s: Queue, es: seq<Event>, node: nat)
    requires node != 0 && s.current == node && forall i :: 0 <= i < |es| ==> es[i] != Done(true)
    requires Completions(es) > CountNode(s.list, node) + CommandsFor(es, node)
    ensures GivenBack(s, es, node)
    decreases |es|
  {
    if es[0].Done? {
      assert es[0] == Done(false);
      CompletionServes(s, node);
      if CountNode(s.list, node) > 0 { ServedWhateverComes(NmDone(s, false), es[1..], node); }
    } else {
      OthersDoNotDisturb(s, es[0], node);
      ServedWhateverComes(Step(s, es[0]), es[1..], node);
    }
  }
}
