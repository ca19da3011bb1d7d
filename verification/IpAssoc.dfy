/** Bulk removal of IP associations (src/Bridge_ip_assoc.c): matching entries are marked, then
    removed one by one, each after a command to the association's source node and, for a
    permanent association, after its virtual node has left the network. The chain runs through
    mutually recursive procedures and asynchronous callbacks.

    Pool slots stand for entry pointers. Proxy associations and refused sends end in assertion
    failures in the code and are outside the model. */
module IpAssoc {
  import opened Common

  datatype Assoc = Assoc(
    slot: nat, permanent: bool, virtualId: int, hanNode: int, hanEndpoint: int, grouping: int, ip: int,
    marked: bool)

  // A remove request; endpoint 0, grouping 0 and the zero or missing address match anything.
  datatype Pattern = Pattern(hanNode: int, hanEndpoint: int, grouping: int, ip: Option<int>)

  predicate Matches(a: Assoc, p: Pattern) {
    && a.hanNode == p.hanNode
    && (p.hanEndpoint == 0 || a.hanEndpoint == p.hanEndpoint)
    && (p.grouping == 0 || a.grouping == p.grouping)
    && (p.ip.None? || p.ip.value == 0 || a.ip == p.ip.value)
  }

  datatype Act =
    | SendRemove(slot: nat)       // Association Remove sent to the source node
    | LeaveNetwork(virtualId: int)
    | Ack(ok: bool) | Report      // the two halves of the completion report
    | VirtualNodesRemoved
    | AssertionFailed             // "no marked entry is left" turned out false

  // A callback that is due: the result of a transmission, armed with its entry, or the news that a
  // virtual node has left the network.
  datatype Due = Transmit(entry: Assoc) | Learn

  // `out` holds the callbacks that are due, the oldest first.
  datatype Tables = Tables(
    table: seq<Assoc>, persisted: seq<Assoc>, counter: nat, out: seq<Due>, log: seq<Act>)

  // The environment: entries whose source node is still in the directory, and entries for which
  // the request to take the virtual node off the network is accepted.
  datatype Env = Env(reachable: set<nat>, learnAccepted: set<nat>)

  // ---------------------------------------------------------------- marking

  function Mark(t: seq<Assoc>, p: Pattern): seq<Assoc> {
    if t == [] then []
    else [if Matches(t[0], p) then t[0].(marked := true) else t[0]] + Mark(t[1..], p)
  }

  function CountMatches(t: seq<Assoc>, p: Pattern): nat {
    if t == [] then 0 else (if Matches(t[0], p) then 1 else 0) + CountMatches(t[1..], p)
  }

  function CountMarked(t: seq<Assoc>): nat {
    if t == [] then 0 else (if t[0].marked then 1 else 0) + CountMarked(t[1..])
  }

  function FirstMarked(t: seq<Assoc>): (i: nat)
    requires CountMarked(t) > 0
    ensures i < |t| && t[i].marked
    ensures forall j :: 0 <= j < i ==> !t[j].marked
  {
    if t[0].marked then 0 else 1 + FirstMarked(t[1..])
  }

  // ---------------------------------------------------------------- the chain

  // ip_assoc_remove_all_marked_for_removal and ip_assoc_setup_and_send_assoc_remove_cmd
  function RemoveMarked(s: Tables, env: Env): Tables
    decreases |s.table|, 1
  {
    if CountMarked(s.table) == 0 then s.(log := s.log + [AssertionFailed])
    else
      var i := FirstMarked(s.table);
      var a := s.table[i];
      if a.slot in env.reachable then s.(out := s.out + [Transmit(a)], log := s.log + [SendRemove(a.slot)])
      else Removed(s, i, env)
  }

  // ip_assoc_remove_and_persist of an entry that is in the table
  function Removed(s: Tables, i: nat, env: Env): Tables
    requires i < |s.table|
    decreases |s.table|, 0
  {
    Persisted(AfterRemoval(s.(table := Without(s.table, i)), s.table[i], env))
  }

  function Persisted(s: Tables): Tables { s.(persisted := s.table) }

  // The rest of ip_assoc_remove: a permanent virtual node leaves the network first.
  function AfterRemoval(s: Tables, a: Assoc, env: Env): Tables
    decreases |s.table|, 3
  {
    var s1 := if a.permanent then s.(log := s.log + [LeaveNetwork(a.virtualId)]) else s;
    if a.permanent && a.slot in env.learnAccepted then s1.(out := s.out + [Learn]) else Continue(s1, env)
  }

  // ip_assoc_continue_with_next_marked_for_removal
  function Continue(s: Tables, env: Env): Tables
    decreases |s.table|, 2
  {
    var s1 := s.(counter := if s.counter > 0 then s.counter - 1 else 0);
    if s1.counter > 0 then RemoveMarked(s1, env)
    else s1.(log := s.log + [Ack(true), Report, VirtualNodesRemoved])
  }

  lemma {:induction false} WithoutCounts(t: seq<Assoc>, i: nat)
    requires i < |t|
    ensures CountMarked(Without(t, i)) == CountMarked(t) - if t[i].marked then 1 else 0
  {
    if i == 0 {
      assert Without(t, 0) == t[1..];
    } else {
      assert Without(t, i)[1..] == Without(t[1..], i - 1);
      WithoutCounts(t[1..], i - 1);
    }
  }

  lemma {:induction false} MarkCounts(t: seq<Assoc>, p: Pattern)
    ensures CountMatches(t, p) <= CountMarked(Mark(t, p))
    ensures |Mark(t, p)| == |t|
  {
    if t != [] { MarkCounts(t[1..], p); }
  }

  // ---------------------------------------------------------------- requests and callbacks

  // handle_ip_association_remove: refused while the counter of an earlier request is not zero.
  function RemoveCommand(s: Tables, p: Pattern, env: Env): Tables {
    if s.counter != 0 then s.(log := s.log + [Ack(false), Report])
    else
      var s1 := s.(table := Mark(s.table, p), counter := CountMatches(s.table, p));
      MarkCounts(s.table, p);
      if s1.counter > 0 then RemoveMarked(s1, env) else s1.(log := s.log + [Ack(true), Report])
  }

  // ip_assoc_remove_by_nodeid: the same chain without the guard.
  function RemoveByNode(s: Tables, node: int, env: Env): Tables {
    var p := Pattern(node, 0, 0, None);
    var s1 := s.(table := Mark(s.table, p), counter := CountMatches(s.table, p));
    MarkCounts(s.table, p);
    if s1.counter > 0 then RemoveMarked(s1, env) else s1.(log := s.log + [VirtualNodesRemoved])
  }

  predicate Distinct(t: seq<Assoc>) {
    forall i, j :: 0 <= i < j < |t| ==> t[i].slot != t[j].slot
  }

  // Where the entry stands in the table, or the size of the table.
  function IndexOf(t: seq<Assoc>, slot: nat): (i: nat)
    ensures i <= |t| && (i < |t| ==> t[i].slot == slot)
    ensures forall j :: 0 <= j < i ==> t[j].slot != slot
  {
    if t == [] || t[0].slot == slot then 0 else 1 + IndexOf(t[1..], slot)
  }

  // ip_assoc_remove_and_persist of the entry a callback was armed with. If the entry has left the
  // table meanwhile, taking it out again does nothing and the chain goes on.
  function RemoveEntry(s: Tables, a: Assoc, env: Env): Tables {
    var i := IndexOf(s.table, a.slot);
    if i < |s.table| then Removed(s, i, env) else Persisted(AfterRemoval(s, a, env))
  }

  // The callback at position `i` of those that are due; `ok` is TRANSMIT_COMPLETE_OK or
  // TRANSMIT_COMPLETE_NO_ACK, and means nothing for the other kind.
  function Answer(s: Tables, i: nat, ok: bool, env: Env): Tables
    requires i < |s.out|
  {
    var s1 := s.(out := s.out[..i] + s.out[i + 1..]);
    match s.out[i]
    case Transmit(a) => if ok then RemoveEntry(s1, a, env) else s1.(log := s.log + [Ack(false), Report])
    case Learn => Continue(s1, env)
  }

  datatype Callback = TransmitDone(ok: bool) | LearnDone

  // The oldest callback comes in; one of the other kind is not its, and changes nothing.
  function OnCallback(s: Tables, c: Callback, env: Env): Tables {
    if s.out == [] then s
    else match (s.out[0], c)
      case (Transmit(_), TransmitDone(ok)) => Answer(s, 0, ok, env)
      case (Learn, LearnDone) => Answer(s, 0, true, env)
      case _ => s
  }

  function Drive(s: Tables, cs: seq<Callback>, env: Env): Tables
    decreases |cs|
  {
    if cs == [] then s else Drive(OnCallback(s, cs[0], env), cs[1..], env)
  }

  /** One request at a time: at most one callback is due, the entry it was armed with is the first
      marked one in the table, and the counter never exceeds the number of marked entries that it
      still has to remove, so the assertion that some marked entry is left cannot fail. Node
      removals that overlap a request can break this; see `IpAssocRuns`. */
  predicate Sound(s: Tables) {
    && Distinct(s.table) && |s.out| <= 1
    && (s.out != [] ==>
      match s.out[0]
      case Transmit(a) => 0 < s.counter <= CountMarked(s.table) && a == s.table[FirstMarked(s.table)]
      case Learn => 0 < s.counter <= CountMarked(s.table) + 1)
  }

  // ---------------------------------------------------------------- soundness of the chain

  lemma {:induction false} WithoutIsDistinct(t: seq<Assoc>, i: nat)
    requires Distinct(t) && i < |t|
    ensures Distinct(Without(t, i))
  {
    var w := Without(t, i);
    forall a, b | 0 <= a < b < |w| ensures w[a].slot != w[b].slot {
      assert w[a] == t[if a < i then a else a + 1] && w[b] == t[if b < i then b else b + 1];
    }
  }

  // What a chain leaves behind that started from `s`: a sound bridge, done counting if nothing is
  // due, and no failed assertion.
  predicate Leaves(s: Tables, s': Tables) {
    && Sound(s') && (s'.out == [] ==> s'.counter == 0)
    && (AssertionFailed in s'.log ==> AssertionFailed in s.log)
  }

  lemma {:induction false} RemoveMarkedIsSound(s: Tables, env: Env)
    requires 0 < s.counter <= CountMarked(s.table) && Distinct(s.table) && s.out == []
    ensures Leaves(s, RemoveMarked(s, env))
    decreases |s.table|, 1
  {
    var i := FirstMarked(s.table);
    if s.table[i].slot !in env.reachable { RemovedIsSound(s, i, env); }
  }

  lemma {:induction false} RemovedIsSound(s: Tables, i: nat, env: Env)
    requires 0 < s.counter <= CountMarked(s.table) && Distinct(s.table) && s.out == []
    requires i < |s.table| && s.table[i].marked
    ensures Leaves(s, Removed(s, i, env))
    decreases |s.table|, 0
  {
    WithoutCounts(s.table, i);
    WithoutIsDistinct(s.table, i);
    AfterRemovalIsSound(s.(table := Without(s.table, i)), s.table[i], env);
  }

  lemma {:induction false} AfterRemovalIsSound(s: Tables, a: Assoc, env: Env)
    requires 0 < s.counter <= CountMarked(s.table) + 1 && Distinct(s.table) && s.out == []
    ensures Leaves(s, AfterRemoval(s, a, env))
    decreases |s.table|, 3
  {
    if !(a.permanent && a.slot in env.learnAccepted) {
      ContinueIsSound(if a.permanent then s.(log := s.log + [LeaveNetwork(a.virtualId)]) else s, env);
    }
  }

  lemma {:induction false} ContinueIsSound(s: Tables, env: Env)
    requires 0 < s.counter <= CountMarked(s.table) + 1 && Distinct(s.table) && s.out == []
    ensures Leaves(s, Continue(s, env))
    decreases |s.table|, 2
  {
    if s.counter > 1 { RemoveMarkedIsSound(s.(counter := s.counter - 1), env); }
  }

  // A sound bridge answers its callback with the first marked entry.
  lemma {:induction false} AnswerIs(s: Tables, ok: bool, env: Env)
    requires Sound(s) && s.out != []
    ensures s.out[0].Transmit? && ok ==> Answer(s, 0, ok, env) == Removed(s.(out := []), FirstMarked(s.table), env)
    ensures s.out[0].Transmit? && !ok ==> Answer(s, 0, ok, env) == s.(out := [], log := s.log + [Ack(false), Report])
    ensures s.out[0].Learn? ==> Answer(s, 0, ok, env) == Continue(s.(out := []), env)
  {
    assert s.out[..0] + s.out[1..] == [];
    if s.out[0].Transmit? { assert IndexOf(s.table, s.out[0].entry.slot) == FirstMarked(s.table); }
  }

  lemma {:induction false} CallbackIsSound(s: Tables, c: Callback, env: Env)
    requires Sound(s)
    ensures Sound(OnCallback(s, c, env))
  {
    if s.out != [] {
      AnswerIs(s, c.TransmitDone? ==> c.ok, env);
      if s.out[0].Transmit? { RemovedIsSound(s.(out := []), FirstMarked(s.table), env); }
      else { ContinueIsSound(s.(out := []), env); }
    }
  }

  // ---------------------------------------------------------------- the reference

  // The table without its first `r` marked entries.
  function DropMarked(t: seq<Assoc>, r: nat): seq<Assoc> {
    if r == 0 || t == [] then t
    else if t[0].marked then DropMarked(t[1..], r - 1)
    else [t[0]] + DropMarked(t[1..], r)
  }

  lemma {:induction false} DropCounts(t: seq<Assoc>, r: nat)
    requires r <= CountMarked(t)
    ensures CountMarked(DropMarked(t, r)) == CountMarked(t) - r
  {
    if r > 0 {
      if t[0].marked { DropCounts(t[1..], r - 1); } else { DropCounts(t[1..], r); }
    }
  }

  lemma {:induction false} WithoutCons(t: seq<Assoc>, i: nat)
    requires 0 < i < |t|
    ensures Without(t, i) == [t[0]] + Without(t[1..], i - 1)
  {
  }

  // Removing the first marked entry is dropping one more.
  lemma {:induction false} DropNext(t: seq<Assoc>)
    requires CountMarked(t) > 0
    ensures Without(t, FirstMarked(t)) == DropMarked(t, 1)
  {
    if t[0].marked {
      assert Without(t, 0) == t[1..];
    } else {
      DropNext(t[1..]);
      WithoutCons(t, FirstMarked(t));
    }
  }

  lemma {:induction false} DropDrop(t: seq<Assoc>, r: nat)
    requires r < CountMarked(t)
    ensures DropMarked(DropMarked(t, r), 1) == DropMarked(t, r + 1)
  {
    if r > 0 {
      if t[0].marked { DropDrop(t[1..], r - 1); } else { DropDrop(t[1..], r); }
    }
  }

  function Reports(log: seq<Act>): nat {
    if log == [] then 0 else Reports(log[..|log| - 1]) + if log[|log| - 1] == Report then 1 else 0
  }

  lemma {:induction false} ReportsAppend(log: seq<Act>, w: seq<Act>)
    ensures Reports(log + w) == Reports(log) + Reports(w)
  {
    if w == [] {
      assert log + w == log;
    } else {
      assert (log + w)[..|log + w| - 1] == log + w[..|w| - 1];
      ReportsAppend(log, w[..|w| - 1]);
    }
  }

  lemma {:induction false} ReportsOf(a: Act)
    ensures Reports([a]) == if a == Report then 1 else 0
    ensures Reports([Ack(true), Report, VirtualNodesRemoved]) == 1
    ensures Reports([Ack(false), Report]) == 1
    ensures Reports([Ack(true), Report]) == 1
  {
    assert [Ack(true), Report, VirtualNodesRemoved] == [Ack(true), Report] + [VirtualNodesRemoved];
    assert [Ack(true), Report] == [Ack(true)] + [Report];
    assert [Ack(false), Report] == [Ack(false)] + [Report];
    ReportsAppend([Ack(true), Report], [VirtualNodesRemoved]);
    ReportsAppend([Ack(true)], [Report]);
    ReportsAppend([Ack(false)], [Report]);
  }

  // ---------------------------------------------------------------- the chain against the reference

  /** Where a request for `k` entries stands that began with the marked table `t` and `base`
      reports sent: `r` entries are gone, they are the first marked ones, and the completion is
      reported exactly when nothing is waited for any more. */
  predicate Standing(s: Tables, t: seq<Assoc>, k: nat, r: nat, base: nat) {
    && Sound(s) && r <= k <= CountMarked(t)
    && s.table == DropMarked(t, r)
    && if s.out == [] then s.counter == 0 && r == k && Reports(s.log) == base + 1
       else match s.out[0]
         case Transmit(_) => s.counter == k - r && Reports(s.log) == base
         case Learn => 0 < r && s.counter == k - r + 1 && Reports(s.log) == base
  }

  predicate Saved(s: Tables) { s.persisted == s.table }

  // A transmission failed: the request was reported and given up with `k - r` entries still marked.
  predicate GivenUp(s: Tables, t: seq<Assoc>, k: nat, r: nat, base: nat) {
    && Distinct(s.table) && r < k <= CountMarked(t)
    && s.table == DropMarked(t, r)
    && s.out == [] && s.counter == k - r && Reports(s.log) == base + 1
  }

  lemma {:induction false} RemoveMarkedStands(s: Tables, env: Env, t: seq<Assoc>, k: nat, r: nat, base: nat) returns (r': nat)
    requires Distinct(s.table) && s.table == DropMarked(t, r) && r < k <= CountMarked(t) && s.out == []
    requires s.counter == k - r && Reports(s.log) == base
    requires s.counter <= CountMarked(s.table)
    ensures r <= r' && Standing(RemoveMarked(s, env), t, k, r', base)
    ensures Saved(RemoveMarked(s, env)) || (r' == r && RemoveMarked(s, env).persisted == s.persisted)
    decreases |s.table|, 1
  {
    RemoveMarkedIsSound(s, env);
    var i := FirstMarked(s.table);
    var a := s.table[i];
    if a.slot in env.reachable {
      r' := r;
      ReportsAppend(s.log, [SendRemove(a.slot)]);
      ReportsOf(SendRemove(a.slot));
    } else {
      r' := RemovedStands(s, env, t, k, r, base);
    }
  }

  lemma {:induction false} RemovedStands(s: Tables, env: Env, t: seq<Assoc>, k: nat, r: nat, base: nat) returns (r': nat)
    requires Distinct(s.table) && s.table == DropMarked(t, r) && r < k <= CountMarked(t) && s.out == []
    requires s.counter == k - r && Reports(s.log) == base
    requires s.counter <= CountMarked(s.table)
    ensures r < r' && Standing(Removed(s, FirstMarked(s.table), env), t, k, r', base)
    decreases |s.table|, 0
  {
    var i := FirstMarked(s.table);
    WithoutCounts(s.table, i);
    WithoutIsDistinct(s.table, i);
    DropNext(s.table);
    DropDrop(t, r);
    r' := AfterRemovalStands(s.(table := Without(s.table, i)), s.table[i], env, t, k, r + 1, base);
  }

  lemma {:induction false} AfterRemovalStands(s: Tables, a: Assoc, env: Env, t: seq<Assoc>, k: nat, r: nat, base: nat)
    returns (r': nat)
    requires Distinct(s.table) && s.table == DropMarked(t, r) && 0 < r <= k <= CountMarked(t) && s.out == []
    requires s.counter == k - r + 1 && Reports(s.log) == base
    requires s.counter <= CountMarked(s.table) + 1
    ensures r <= r' && Standing(AfterRemoval(s, a, env), t, k, r', base)
    decreases |s.table|, 3
  {
    var s1 := if a.permanent then s.(log := s.log + [LeaveNetwork(a.virtualId)]) else s;
    ReportsAppend(s.log, [LeaveNetwork(a.virtualId)]);
    ReportsOf(LeaveNetwork(a.virtualId));
    if a.permanent && a.slot in env.learnAccepted {
      r' := r;
    } else {
      r' := ContinueStands(s1, env, t, k, r, base);
    }
  }

  lemma {:induction false} ContinueStands(s: Tables, env: Env, t: seq<Assoc>, k: nat, r: nat, base: nat) returns (r': nat)
    requires Distinct(s.table) && s.table == DropMarked(t, r) && 0 < r <= k <= CountMarked(t) && s.out == []
    requires s.counter == k - r + 1 && Reports(s.log) == base
    requires s.counter <= CountMarked(s.table) + 1
    ensures r <= r' && Standing(Continue(s, env), t, k, r', base)
    ensures Saved(Continue(s, env)) || (r' == r && Continue(s, env).persisted == s.persisted)
    decreases |s.table|, 2
  {
    if s.counter > 1 {
      r' := RemoveMarkedStands(s.(counter := s.counter - 1), env, t, k, r, base);
    } else {
      r' := r;
      ReportsAppend(s.log, [Ack(true), Report, VirtualNodesRemoved]);
      ReportsOf(Report);
    }
  }

  lemma {:induction false} CallbackStands(s: Tables, c: Callback, env: Env, t: seq<Assoc>, k: nat, r: nat, base: nat)
    returns (r': nat)
    requires Standing(s, t, k, r, base) && (r > 0 ==> Saved(s))
    ensures r <= r' && (r' > 0 ==> Saved(OnCallback(s, c, env)))
    ensures || Standing(OnCallback(s, c, env), t, k, r', base)
            || (c == TransmitDone(false) && GivenUp(OnCallback(s, c, env), t, k, r', base))
  {
    r' := r;
    if s.out != [] {
      AnswerIs(s, c.TransmitDone? ==> c.ok, env);
      if s.out[0].Transmit? && c.TransmitDone? {
        if c.ok {
          r' := RemovedStands(s.(out := []), env, t, k, r, base);
        } else {
          ReportsAppend(s.log, [Ack(false), Report]);
          ReportsOf(Report);
        }
      } else if s.out[0].Learn? && c.LearnDone? {
        r' := ContinueStands(s.(out := []), env, t, k, r, base);
      }
    }
  }

  lemma {:induction false} DriveStands(s: Tables, cs: seq<Callback>, env: Env, t: seq<Assoc>, k: nat, r: nat, base: nat)
    returns (r': nat)
    requires Standing(s, t, k, r, base) || GivenUp(s, t, k, r, base)
    requires r > 0 ==> Saved(s)
    ensures r <= r' && (r' > 0 ==> Saved(Drive(s, cs, env)))
    ensures Standing(Drive(s, cs, env), t, k, r', base) || GivenUp(Drive(s, cs, env), t, k, r', base)
    ensures Standing(s, t, k, r, base) && TransmitDone(false) !in cs ==> Standing(Drive(s, cs, env), t, k, r', base)
    decreases |cs|
  {
    if cs == [] {
      r' := r;
    } else if Standing(s, t, k, r, base) {
      var r1 := CallbackStands(s, cs[0], env, t, k, r, base);
      r' := DriveStands(OnCallback(s, cs[0], env), cs[1..], env, t, k, r1, base);
    } else {
      r' := DriveStands(s, cs[1..], env, t, k, r, base);
    }
  }

  // A request on a bridge with nothing due: marking, then the chain and any callbacks.
  lemma {:induction false} RequestStands(s: Tables, p: Pattern, env: Env, cs: seq<Callback>) returns (r: nat)
    requires s.out == [] && Distinct(s.table) && CountMatches(s.table, p) > 0
    ensures var s1 := RemoveMarked(s.(table := Mark(s.table, p), counter := CountMatches(s.table, p)), env);
            var t, k, base := Mark(s.table, p), CountMatches(s.table, p), Reports(s.log);
            && (Saved(s1) || s1.persisted == s.persisted)
            && (r > 0 ==> Saved(Drive(s1, cs, env)))
            && (Standing(Drive(s1, cs, env), t, k, r, base) || GivenUp(Drive(s1, cs, env), t, k, r, base))
            && (TransmitDone(false) !in cs ==> Standing(Drive(s1, cs, env), t, k, r, base))
  {
    var t, k, base := Mark(s.table, p), CountMatches(s.table, p), Reports(s.log);
    MarkCounts(s.table, p);
    MarkKeepsSlots(s.table, p);
    var r0 := RemoveMarkedStands(s.(table := t, counter := k), env, t, k, 0, base);
    r := DriveStands(RemoveMarked(s.(table := t, counter := k), env), cs, env, t, k, r0, base);
  }

  /** A remove command on an idle bridge, driven by any callbacks: it only ever removes marked
      entries, from the front; at most one completion is reported, and it is reported exactly
      when the request is over; without a failed transmission the request is over with as many
      entries gone as matched, and the table on disk is the one in memory. */
  lemma {:induction false} RemoveCommandStands(s: Tables, p: Pattern, env: Env, cs: seq<Callback>) returns (r: nat)
    requires s.counter == 0 && s.out == [] && Distinct(s.table)
    ensures var s' := Drive(RemoveCommand(s, p, env), cs, env);
            var t, k, base := Mark(s.table, p), CountMatches(s.table, p), Reports(s.log);
            && (r > 0 ==> Saved(s'))
            && (Standing(s', t, k, r, base) || GivenUp(s', t, k, r, base))
            && (TransmitDone(false) !in cs ==> Standing(s', t, k, r, base))
  {
    if CountMatches(s.table, p) > 0 {
      r := RequestStands(s, p, env, cs);
    } else {
      r := 0;
      NothingMatches(s.table, p);
      IdleStays(RemoveCommand(s, p, env), cs, env);
      ReportsAppend(s.log, [Ack(true), Report]);
      ReportsOf(Report);
    }
  }

  lemma {:induction false} MarkKeepsSlots(t: seq<Assoc>, p: Pattern)
    ensures |Mark(t, p)| == |t| && forall i :: 0 <= i < |t| ==> Mark(t, p)[i].slot == t[i].slot
  {
    if t != [] { MarkKeepsSlots(t[1..], p); }
  }

  // ---------------------------------------------------------------- termination

  // How many callbacks the request still needs at most.
  function Work(s: Tables): nat {
    if s.out == [] then 0
    else match s.out[0]
      case Transmit(_) => 2 * s.counter
      case Learn => if s.counter == 0 then 0 else 2 * s.counter - 1
  }

  // The callback is of the kind that is due.
  predicate Awaited(s: Tables, c: Callback) {
    s.out != [] && (s.out[0].Transmit? <==> c.TransmitDone?)
  }

  // Every callback that is waited for brings the request closer to its end.
  lemma {:induction false} CallbackDescends(s: Tables, c: Callback, env: Env)
    requires Sound(s) && Awaited(s, c)
    ensures Work(OnCallback(s, c, env)) < Work(s)
  {
    AnswerIs(s, c.TransmitDone? ==> c.ok, env);
    if s.out[0].Transmit? {
      if c.ok { RemovedWork(s.(out := []), FirstMarked(s.table), env); }
    } else {
      ContinueWork(s.(out := []), env);
    }
  }

  lemma {:induction false} RemoveMarkedWork(s: Tables, env: Env)
    requires 0 < s.counter <= CountMarked(s.table) && s.out == []
    ensures Work(RemoveMarked(s, env)) <= 2 * s.counter
    decreases |s.table|, 1
  {
    var i := FirstMarked(s.table);
    if s.table[i].slot !in env.reachable { RemovedWork(s, i, env); }
  }

  lemma {:induction false} RemovedWork(s: Tables, i: nat, env: Env)
    requires 0 < s.counter <= CountMarked(s.table) && s.out == []
    requires i < |s.table| && s.table[i].marked
    ensures Work(Removed(s, i, env)) < 2 * s.counter
    decreases |s.table|, 0
  {
    var a := s.table[i];
    WithoutCounts(s.table, i);
    var s1 := s.(table := Without(s.table, i));
    if !(a.permanent && a.slot in env.learnAccepted) {
      ContinueWork(if a.permanent then s1.(log := s.log + [LeaveNetwork(a.virtualId)]) else s1, env);
    }
  }

  lemma {:induction false} ContinueWork(s: Tables, env: Env)
    requires 0 < s.counter <= CountMarked(s.table) + 1 && s.out == []
    ensures Work(Continue(s, env)) <= 2 * s.counter - 2
    decreases |s.table|, 2
  {
    if s.counter > 1 { RemoveMarkedWork(s.(counter := s.counter - 1), env); }
  }

  // Each callback is awaited when it comes, as long as one is due.
  predicate AllAwaited(s: Tables, cs: seq<Callback>, env: Env)
    decreases |cs|
  {
    cs == [] || ((s.out == [] || Awaited(s, cs[0])) && AllAwaited(OnCallback(s, cs[0], env), cs[1..], env))
  }

  lemma {:induction false} DriveEnds(s: Tables, cs: seq<Callback>, env: Env)
    requires Sound(s) && AllAwaited(s, cs, env) && |cs| >= Work(s)
    ensures Drive(s, cs, env).out == []
    decreases |cs|
  {
    if cs != [] {
      if s.out != [] { CallbackDescends(s, cs[0], env); }
      CallbackIsSound(s, cs[0], env);
      DriveEnds(OnCallback(s, cs[0], env), cs[1..], env);
    }
  }

  // The matching entries are marked and the chain begins.
  function Requested(s: Tables, p: Pattern, env: Env): Tables {
    RemoveMarked(s.(table := Mark(s.table, p), counter := CountMatches(s.table, p)), env)
  }

  // A request for `k` entries is over after at most 2k awaited callbacks.
  lemma {:induction false} RequestEnds(s: Tables, p: Pattern, env: Env, cs: seq<Callback>)
    requires s.out == [] && Distinct(s.table) && CountMatches(s.table, p) > 0
    requires AllAwaited(Requested(s, p, env), cs, env) && |cs| >= 2 * CountMatches(s.table, p)
    ensures Drive(Requested(s, p, env), cs, env).out == []
  {
    var s0 := s.(table := Mark(s.table, p), counter := CountMatches(s.table, p));
    MarkCounts(s.table, p);
    MarkKeepsSlots(s.table, p);
    RemoveMarkedWork(s0, env);
    RemoveMarkedIsSound(s0, env);
    DriveEnds(RemoveMarked(s0, env), cs, env);
  }

  // ---------------------------------------------------------------- exactly the matching entries

  // The entries a request is meant to leave.
  function Unmatched(t: seq<Assoc>, p: Pattern): seq<Assoc> {
    if t == [] then [] else (if Matches(t[0], p) then [] else [t[0]]) + Unmatched(t[1..], p)
  }

  // Some entry left marked by an earlier request stands before a matching one.
  ghost predicate StaleMarkInFront(t: seq<Assoc>, p: Pattern) {
    exists i, j :: 0 <= i < j < |t| && t[i].marked && !Matches(t[i], p) && Matches(t[j], p)
  }

  lemma {:induction false} NothingMatches(t: seq<Assoc>, p: Pattern)
    requires CountMatches(t, p) == 0
    ensures Mark(t, p) == t && Unmatched(t, p) == t
    ensures forall j :: 0 <= j < |t| ==> !Matches(t[j], p)
  {
    if t != [] { NothingMatches(t[1..], p); }
  }

  lemma {:induction false} SomethingMatches(t: seq<Assoc>, p: Pattern) returns (j: nat)
    requires CountMatches(t, p) > 0
    ensures j < |t| && Matches(t[j], p)
  {
    if Matches(t[0], p) { j := 0; } else { j := SomethingMatches(t[1..], p); j := j + 1; }
  }

  lemma {:induction false} DropSlots(t: seq<Assoc>, p: Pattern, r: nat, a: Assoc)
    requires a in DropMarked(Mark(t, p), r)
    ensures exists i :: 0 <= i < |t| && t[i].slot == a.slot
  {
    var m := Mark(t, p);
    MarkKeepsSlots(t, p);
    DropIsPart(m, r, a);
    var i :| 0 <= i < |m| && m[i] == a;
    assert t[i].slot == a.slot;
  }

  lemma {:induction false} DropIsPart(t: seq<Assoc>, r: nat, a: Assoc)
    requires a in DropMarked(t, r)
    ensures a in t
  {
    if r > 0 && t != [] {
      if t[0].marked { DropIsPart(t[1..], r - 1, a); } else if a != t[0] { DropIsPart(t[1..], r, a); }
    }
  }

  /** The entries a finished request leaves are exactly the ones that did not match if and only if
      no mark of an earlier, failed request stands in front of a matching entry. */
  lemma {:induction false} RemovesMatchesIffNoStaleMark(t: seq<Assoc>, p: Pattern)
    requires Distinct(t)
    ensures DropMarked(Mark(t, p), CountMatches(t, p)) == Unmatched(t, p) <==> !StaleMarkInFront(t, p)
  {
    var k := CountMatches(t, p);
    if k == 0 {
      NothingMatches(t, p);
    } else {
      var rest := t[1..];
      RemovesMatchesIffNoStaleMark(rest, p);
      if t[0].marked && !Matches(t[0], p) {
        var j := SomethingMatches(rest, p);
        assert Matches(t[j + 1], p);
        if DropMarked(Mark(t, p), k) == Unmatched(t, p) {
          assert t[0] in DropMarked(Mark(rest, p), k - 1);
          DropSlots(rest, p, k - 1, t[0]);
        }
      } else {
        StaleShifts(t, p);
        assert Mark(t, p)[1..] == Mark(rest, p);
        if Matches(t[0], p) {
          assert Unmatched(t, p) == Unmatched(rest, p);
        } else {
          ConsInjective(t[0], DropMarked(Mark(rest, p), k), Unmatched(rest, p));
        }
      }
    }
  }

  lemma {:induction false} ConsInjective(x: Assoc, a: seq<Assoc>, b: seq<Assoc>)
    ensures [x] + a == [x] + b <==> a == b
  {
    assert ([x] + a)[1..] == a && ([x] + b)[1..] == b;
  }

  lemma {:induction false} StaleShifts(t: seq<Assoc>, p: Pattern)
    requires t != [] && (Matches(t[0], p) || !t[0].marked)
    ensures StaleMarkInFront(t, p) <==> StaleMarkInFront(t[1..], p)
  {
    var rest := t[1..];
    if StaleMarkInFront(t, p) {
      var i, j :| 0 <= i < j < |t| && t[i].marked && !Matches(t[i], p) && Matches(t[j], p);
      assert rest[i - 1] == t[i] && rest[j - 1] == t[j];
    }
    if StaleMarkInFront(rest, p) {
      var i, j :| 0 <= i < j < |rest| && rest[i].marked && !Matches(rest[i], p) && Matches(rest[j], p);
      assert t[i + 1] == rest[i] && t[j + 1] == rest[j];
    }
  }

  // A request that is over without a failure, in terms of the table it found.
  lemma {:induction false} RequestExactIff(s: Tables, p: Pattern, env: Env, cs: seq<Callback>)
    requires s.out == [] && Distinct(s.table) && CountMatches(s.table, p) > 0 && TransmitDone(false) !in cs
    ensures var s' := Drive(Requested(s, p, env), cs, env);
            s'.out == [] ==> (s'.table == Unmatched(s.table, p) <==> !StaleMarkInFront(s.table, p))
  {
    var r := RequestStands(s, p, env, cs);
    RemovesMatchesIffNoStaleMark(s.table, p);
  }

  /** A remove command on an idle bridge, without a failed transmission: it is over after at most two
      callbacks per match, and has then removed exactly the matches if and only if no mark of an
      earlier, failed request stood in front of one. */
  lemma {:induction false} RemoveCommandExactIff(s: Tables, p: Pattern, env: Env, cs: seq<Callback>)
    requires s.counter == 0 && s.out == [] && Distinct(s.table) && TransmitDone(false) !in cs
    ensures var s' := Drive(RemoveCommand(s, p, env), cs, env);
            && (s'.out == [] ==> (s'.table == Unmatched(s.table, p) <==> !StaleMarkInFront(s.table, p)))
            && (AllAwaited(RemoveCommand(s, p, env), cs, env) && |cs| >= 2 * CountMatches(s.table, p) ==> s'.out == [])
  {
    if CountMatches(s.table, p) > 0 {
      RequestExactIff(s, p, env, cs);
      if AllAwaited(RemoveCommand(s, p, env), cs, env) && |cs| >= 2 * CountMatches(s.table, p) { RequestEnds(s, p, env, cs); }
    } else {
      NothingMatches(s.table, p);
      IdleStays(RemoveCommand(s, p, env), cs, env);
    }
  }

  /** The same for the removal of a node on a bridge with nothing due, whatever the counter says. */
  lemma {:induction false} RemoveByNodeExactIff(s: Tables, node: int, env: Env, cs: seq<Callback>)
    requires s.out == [] && Distinct(s.table) && TransmitDone(false) !in cs
    ensures var s' := Drive(RemoveByNode(s, node, env), cs, env);
            var p := Pattern(node, 0, 0, None);
            && (s'.out == [] ==> (s'.table == Unmatched(s.table, p) <==> !StaleMarkInFront(s.table, p)))
            && (AllAwaited(RemoveByNode(s, node, env), cs, env) && |cs| >= 2 * CountMatches(s.table, p) ==> s'.out == [])
  {
    var p := Pattern(node, 0, 0, None);
    if CountMatches(s.table, p) > 0 {
      RequestExactIff(s, p, env, cs);
      if AllAwaited(RemoveByNode(s, node, env), cs, env) && |cs| >= 2 * CountMatches(s.table, p) { RequestEnds(s, p, env, cs); }
    } else {
      NothingMatches(s.table, p);
      IdleStays(RemoveByNode(s, node, env), cs, env);
    }
  }

  /** Starting with nothing marked and with no transmission failing, a remove command that is over
      has left exactly the entries that did not match, in their order, on disk as in memory, with
      the counter back at zero and exactly one completion reported. */
  lemma {:induction false} CleanRemoveCommand(s: Tables, p: Pattern, env: Env, cs: seq<Callback>)
    requires s.counter == 0 && s.out == [] && Distinct(s.table) && Saved(s) && CountMarked(s.table) == 0
    requires TransmitDone(false) !in cs
    ensures var s' := Drive(RemoveCommand(s, p, env), cs, env);
            s'.out == [] ==>
              && s'.table == Unmatched(s.table, p) && Saved(s')
              && s'.counter == 0 && Reports(s'.log) == Reports(s.log) + 1
    ensures var s' := Drive(RemoveCommand(s, p, env), cs, env);
            s'.out != [] ==>
              && s'.counter == CountMarked(s'.table) + (if s'.out[0] == Learn then 1 else 0)
              && Reports(s'.log) == Reports(s.log)
  {
    var r := RemoveCommandStands(s, p, env, cs);
    NoneMarked(s.table);
    MarkCountsExactly(s.table, p);
    DropCounts(Mark(s.table, p), r);
    RemovesMatchesIffNoStaleMark(s.table, p);
    if CountMatches(s.table, p) == 0 {
      NothingMatches(s.table, p);
      IdleStays(RemoveCommand(s, p, env), cs, env);
    }
  }

  lemma {:induction false} MarkCountsExactly(t: seq<Assoc>, p: Pattern)
    requires CountMarked(t) == 0
    ensures CountMarked(Mark(t, p)) == CountMatches(t, p)
  {
    if t != [] { MarkCountsExactly(t[1..], p); }
  }

  lemma {:induction false} NoneMarked(t: seq<Assoc>)
    requires CountMarked(t) == 0
    ensures forall i :: 0 <= i < |t| ==> !t[i].marked
  {
    if t != [] { NoneMarked(t[1..]); }
  }

  lemma {:induction false} IdleStays(s: Tables, cs: seq<Callback>, env: Env)
    requires s.out == []
    ensures Drive(s, cs, env) == s
    decreases |cs|
  {
    if cs != [] { IdleStays(s, cs[1..], env); }
  }

  // Taking out the last entry of a request ends it.
  lemma {:induction false} LastRemoval(s: Tables, i: nat, env: Env)
    requires i < |s.table| && !s.table[i].permanent && s.counter == 1
    ensures var t := Without(s.table, i);
            Removed(s, i, env) ==
              s.(table := t, persisted := t, counter := 0, log := s.log + [Ack(true), Report, VirtualNodesRemoved])
  {
    var s1 := s.(table := Without(s.table, i));
    assert AfterRemoval(s1, s.table[i], env) == Continue(s1, env);
  }

  // Taking out an entry with a permanent virtual node waits for that node to leave.
  lemma {:induction false} PermanentRemoval(s: Tables, i: nat, env: Env)
    requires i < |s.table| && s.table[i].permanent && s.table[i].slot in env.learnAccepted
    ensures var t := Without(s.table, i);
            Removed(s, i, env) ==
              s.(table := t, persisted := t, out := s.out + [Learn], log := s.log + [LeaveNetwork(s.table[i].virtualId)])
  {
  }

  function Marking(a: Assoc, p: Pattern): Assoc { if Matches(a, p) then a.(marked := true) else a }

  lemma {:induction false} TableOfOne(y: Assoc, p: Pattern)
    ensures Mark([y], p) == [Marking(y, p)]
    ensures CountMatches([y], p) == if Matches(y, p) then 1 else 0
    ensures CountMarked([y]) == if y.marked then 1 else 0
  {
    assert [y][1..] == [];
    assert Mark([y][1..], p) == [] && CountMatches([y][1..], p) == 0 && CountMarked([y][1..]) == 0;
  }

  // Marking and searching in a table of two.
  lemma {:induction false} TableOfTwo(x: Assoc, y: Assoc, p: Pattern)
    ensures Mark([x, y], p) == [Marking(x, p), Marking(y, p)]
    ensures CountMatches([x, y], p) == (if Matches(x, p) then 1 else 0) + (if Matches(y, p) then 1 else 0)
    ensures CountMarked([x, y]) == (if x.marked then 1 else 0) + (if y.marked then 1 else 0)
    ensures x.marked || y.marked ==> FirstMarked([x, y]) == if x.marked then 0 else 1
    ensures Without([x, y], 0) == [y]
  {
    TableOfOne(y, p);
    assert [x, y][1..] == [y];
  }

  // The bridge after a remove command for node 7 whose transmission failed.
  function FailedRequest(): Tables {
    var a := Assoc(0, false, 0, 7, 0, 1, 11, false);
    var b := Assoc(1, false, 0, 8, 0, 1, 12, false);
    OnCallback(RemoveCommand(Tables([a, b], [a, b], 0, [], []), Pattern(7, 0, 0, None), Env({0}, {})),
               TransmitDone(false), Env({0}, {}))
  }

  // The removal of node 8 then takes out the association of node 7, whose mark stands in front, and
  // leaves the one of node 8.
  lemma {:induction false} StaleMarkMisleads()
    ensures var b := Assoc(1, false, 0, 8, 0, 1, 12, true);
            var s := Drive(RemoveByNode(FailedRequest(), 8, Env({0}, {})), [TransmitDone(true)], Env({0}, {}));
            s.out == [] && s.table == [b]
  {
    var a := Assoc(0, false, 0, 7, 0, 1, 11, false);
    var b := Assoc(1, false, 0, 8, 0, 1, 12, false);
    var a', b' := a.(marked := true), b.(marked := true);
    var env := Env({0}, {});
    TableOfTwo(a, b, Pattern(7, 0, 0, None));
    TableOfTwo(a', b, Pattern(8, 0, 0, None));
    TableOfTwo(a', b', Pattern(8, 0, 0, None));
    var s2 := FailedRequest();
    assert s2.table == [a', b] && s2.out == [] && s2.counter == 1;
    var s3 := RemoveByNode(s2, 8, env);
    assert s3.table == [a', b'] && s3.out == [Transmit(a')] && s3.counter == 1;
    var s4 := OnCallback(s3, TransmitDone(true), env);
    var s3' := s3.(out := []);
    assert s3.out[..0] + s3.out[1..] == [] && IndexOf(s3.table, 0) == 0;
    assert s4 == Removed(s3', 0, env);
    LastRemoval(s3', 0, env);
    assert [TransmitDone(true)][1..] == [];
    assert Drive(s3, [TransmitDone(true)], env) == Drive(s4, [], env);
  }
}
