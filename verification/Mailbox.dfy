/** The mailbox state machine (src/Mailbox.c) in local service mode: frames posted for sleeping
    nodes wait in one shared list, and a wake-up drains the woken node's frames from it.

    Pool slots stand for entry pointers. A transmit callback that fires before the sending call
    returns acts on the same state as one that fires right after it, so callbacks are events. */
module Mailbox {
  import opened Common

  const MAX_MAILBOX_ENTRIES := 2000

  datatype Frame = Frame(slot: nat, dnode: int, moreInfo: bool, payload: seq<int>)

  datatype MbState = Idle | ProbeWakeUpInterval | Sending | SendNoMoreInfo | SendNoMoreInfoDelayed

  datatype MbEvent = SendDone | WakeUp | Timeout | Transition | FrameSentToNode

  // What the machine does to its environment.
  datatype Act =
    | Try(frame: Frame)              // frame handed to the transmit queue
    | NoMoreInformation(node: int)   // the command that lets the node sleep is sent
    | StartDelay                     // the no-more-information timer is started
    | ProbeInterval(node: int)
    | QueueUpdated

  // What the environment answers while one event is handled.
  datatype Env = Env(
    nodeKnown: bool, wokeEarly: bool, probeAccepted: bool, frameAccepted: bool,
    noMoreAccepted: bool, nodeBusy: bool)

  datatype Box = Box(
    state: MbState, node: int, sendNoMore: bool, broadcast: bool, txOk: bool,
    last: Option<nat>, list: seq<Frame>, log: seq<Act>)

  // ---------------------------------------------------------------- the list

  predicate Distinct(list: seq<Frame>) {
    forall i, j :: 0 <= i < j < |list| ==> list[i].slot != list[j].slot
  }

  // The part of the list that starts at the entry in `slot`.
  function From(list: seq<Frame>, slot: Option<nat>): seq<Frame> {
    if list == [] || slot.None? then []
    else if list[0].slot == slot.value then list
    else From(list[1..], slot)
  }

  function Head(list: seq<Frame>): Option<nat> { if list == [] then None else Some(list[0].slot) }

  // list_item_next
  function Next(list: seq<Frame>, slot: Option<nat>): Option<nat> {
    var t := From(list, slot);
    if |t| < 2 then None else Some(t[1].slot)
  }

  function Remove(list: seq<Frame>, slot: Option<nat>): seq<Frame> {
    if list == [] || slot.None? then list
    else if list[0].slot == slot.value then list[1..]
    else [list[0]] + Remove(list[1..], slot)
  }

  // The part of `fs` from the first frame for `node` on.
  function SkipTo(fs: seq<Frame>, node: int): (r: seq<Frame>)
    ensures |r| <= |fs|
    ensures r != [] ==> r[0].dnode == node
  {
    if fs == [] || fs[0].dnode == node then fs else SkipTo(fs[1..], node)
  }

  // ---------------------------------------------------------------- transitions

  function Did(s: Box, a: Act): Box { s.(log := s.log + [a]) }

  /** What one event leads to. The code reaches these results through transitions that call
      themselves; here the chains are written out, and `MailboxMachine` proves that the recursive
      code computes them. */
  function Handle(s: Box, ev: MbEvent, env: Env): Box {
    match s.state
    case Idle =>
      if ev == WakeUp then
        if !env.nodeKnown then SendNoMore(s, env)
        else if env.wokeEarly then
          var s1 := Did(s.(state := ProbeWakeUpInterval), ProbeInterval(s.node));
          if env.probeAccepted then s1 else StartSending(s1, env)
        else StartSending(s, env)
      else if ev == Transition then Did(s, QueueUpdated)
      else s
    case ProbeWakeUpInterval =>
      if ev == Transition then
        var s1 := Did(s, ProbeInterval(s.node));
        if env.probeAccepted then s1 else StartSending(s1, env)
      else if ev == SendDone then StartSending(s, env)
      else s
    case Sending => SendNext(Advance(s, ev), env)
    case SendNoMoreInfoDelayed =>
      if ev == Timeout then
        if env.nodeBusy then Did(s, StartDelay) else SendNoMore(s, env)
      else if ev == FrameSentToNode then Did(s, StartDelay)
      else s
    case SendNoMoreInfo =>
      if ev == Transition then SendNoMore(s, env)
      else if ev == SendDone then Did(s.(state := Idle), QueueUpdated)
      else s
  }

  // A pass begins: MB_STATE_SENDING is entered and looks for the first frame.
  function StartSending(s: Box, env: Env): Box {
    SendNext(Advance(s.(state := Sending), Transition), env)
  }

  // How an event in MB_STATE_SENDING moves the current entry: a finished transmission moves on
  // (and frees a delivered frame), the entry transition starts over, anything else stays put.
  function Advance(s: Box, ev: MbEvent): Box {
    if ev == SendDone then
      s.(last := Next(s.list, s.last), list := if s.txOk then Remove(s.list, s.last) else s.list)
    else if ev == Transition then s.(last := Head(s.list))
    else s
  }

  // The next frame for the node is tried; without one the session moves on to sleep.
  function SendNext(s: Box, env: Env): Box {
    var t := SkipTo(From(s.list, s.last), s.node);
    if t != [] then TryFrame(s.(last := Head(t)), t[0], env) else NothingLeft(s.(last := None), env)
  }

  function TryFrame(s: Box, f: Frame, env: Env): Box {
    var s1 := Did(s.(sendNoMore := s.sendNoMore && !f.moreInfo), Try(f));
    if env.frameAccepted then s1 else SendNoMore(s1, env)
  }

  function NothingLeft(s: Box, env: Env): Box {
    if s.sendNoMore then SendNoMore(s, env)
    else Did(Did(s.(state := SendNoMoreInfoDelayed), StartDelay), QueueUpdated)
  }

  // The no-more-information state is entered. Nothing is sent in reply to a broadcast
  // notification; a refused send counts as a failed one.
  function SendNoMore(s: Box, env: Env): Box {
    if s.broadcast then Did(s.(state := Idle, broadcast := false, txOk := true), QueueUpdated)
    else
      var s1 := Did(s.(state := SendNoMoreInfo), NoMoreInformation(s.node));
      if env.noMoreAccepted then s1 else Did(s1.(state := Idle, txOk := false), QueueUpdated)
  }

  // ---------------------------------------------------------------- entry points

  // mb_wakeup_event, once network management and the probe engine are known to be idle.
  function Wake(s: Box, node: int, isBroadcast: bool, env: Env): Box {
    if s.state == Idle then
      Handle(s.(node := node, sendNoMore := true, broadcast := isBroadcast), WakeUp, env)
    else s
  }

  // A transmit callback.
  function Finish(s: Box, ok: bool, env: Env): Box { Handle(s.(txOk := ok), SendDone, env) }

  // The append part of mb_post_uipbuf: the frame goes to the end of the list in a free pool slot.
  function Post(s: Box, f: Frame): Box {
    if Free(s.list, f.slot) then s.(list := s.list + [f]) else s
  }

  predicate Free(list: seq<Frame>, slot: nat) { slot < MAX_MAILBOX_ENTRIES && slot !in Slots(list) }

  function Slots(list: seq<Frame>): set<nat> { set i | 0 <= i < |list| :: list[i].slot }

  // ---------------------------------------------------------------- one pass over the list

  // What can happen while a pass is under way: a transmission of frame `of` ends, a frame is posted,
  // or some other event reaches the machine. The code does not look at `of`: it takes every result
  // for the current frame's.
  datatype PassEvent = Done(of: Frame, ok: bool, env: Env) | Posted(frame: Frame) | Stray(ev: MbEvent, env: Env)

  predicate Accepted(e: PassEvent) {
    match e
    case Done(_, _, env) => env.frameAccepted
    case Stray(ev, env) => env.frameAccepted && ev != SendDone && ev != Transition
    case Posted(_) => true
  }

  function PassStep(s: Box, e: PassEvent): Box {
    match e
    case Done(_, ok, env) => Finish(s, ok, env)
    case Posted(f) => Post(s, f)
    case Stray(ev, env) => Handle(s, ev, env)
  }

  function PassRun(s: Box, es: seq<PassEvent>): Box
    decreases |es|
  {
    if es == [] then s else PassRun(PassStep(s, es[0]), es[1..])
  }

  // The pass is still under way before every event of `es`.
  predicate Passing(s: Box, es: seq<PassEvent>)
    decreases |es|
  {
    es != [] ==> s.state == Sending && Accepted(es[0]) && Passing(PassStep(s, es[0]), es[1..])
  }

  // The frames posted, and taken in, during the pass.
  function Arrived(s: Box, es: seq<PassEvent>): seq<Frame>
    decreases |es|
  {
    if es == [] then []
    else (if es[0].Posted? && Post(s, es[0].frame) != s then [es[0].frame] else [])
         + Arrived(PassStep(s, es[0]), es[1..])
  }

  // The transmit results reported during the pass.
  function Results(es: seq<PassEvent>): seq<bool> {
    if es == [] then [] else (if es[0].Done? then [es[0].ok] else []) + Results(es[1..])
  }

  // The frames for one node, in order.
  function For(fs: seq<Frame>, node: int): seq<Frame> {
    if fs == [] then [] else (if fs[0].dnode == node then [fs[0]] else []) + For(fs[1..], node)
  }

  /** The reference: `fs` without those frames for `node` whose transmission succeeded, where the
      k-th result belongs to the k-th frame for the node. */
  function Drained(fs: seq<Frame>, node: int, results: seq<bool>): seq<Frame> {
    if fs == [] then []
    else if fs[0].dnode != node || results == [] then [fs[0]] + Drained(fs[1..], node, results)
    else (if results[0] then [] else [fs[0]]) + Drained(fs[1..], node, results[1..])
  }

  function Tries(log: seq<Act>): seq<Frame> {
    if log == [] then []
    else Tries(log[..|log| - 1]) + if log[|log| - 1].Try? then [log[|log| - 1].frame] else []
  }

  // The one-element sequence at position `i`, or nothing past the end.
  function At(fs: seq<Frame>, i: nat): seq<Frame> { if i < |fs| then [fs[i]] else [] }

  // The attempts made during `es` when frame `c` of the node's frames `fs` is the current one:
  // the next frame after each result, the current one again after each stray event.
  function Tried(fs: seq<Frame>, c: nat, es: seq<PassEvent>): seq<Frame>
    decreases |es|
  {
    if es == [] then []
    else match es[0]
      case Posted(_) => Tried(fs, c, es[1..])
      case Done(_, _, _) => At(fs, c + 1) + Tried(fs, c + 1, es[1..])
      case Stray(_, _) => At(fs, c) + Tried(fs, c, es[1..])
  }

  // ---------------------------------------------------------------- list lemmas

  lemma {:induction false} FromSplit(list: seq<Frame>, k: nat)
    requires Distinct(list) && k < |list|
    ensures From(list, Some(list[k].slot)) == list[k..]
    ensures Remove(list, Some(list[k].slot)) == list[..k] + list[k + 1..]
  {
    if k > 0 {
      assert list[1..][k - 1] == list[k];
      FromSplit(list[1..], k - 1);
      assert list[1..][k - 1..] == list[k..];
      assert [list[0]] + (list[1..][..k - 1] + list[1..][k..]) == list[..k] + list[k + 1..];
    }
  }

  lemma {:induction false} ForAppend(fs: seq<Frame>, gs: seq<Frame>, node: int)
    ensures For(fs + gs, node) == For(fs, node) + For(gs, node)
  {
    if fs == [] {
      assert fs + gs == gs;
    } else {
      assert (fs + gs)[1..] == fs[1..] + gs;
      ForAppend(fs[1..], gs, node);
      ConcatAssoc(if fs[0].dnode == node then [fs[0]] else [], For(fs[1..], node), For(gs, node));
    }
  }

  // One more frame in front: the node's, with its result, or another's.
  lemma {:induction false} DrainedCons(f: Frame, fs: seq<Frame>, node: int, rs: seq<bool>)
    ensures f.dnode != node ==> Drained([f] + fs, node, rs) == [f] + Drained(fs, node, rs)
    ensures f.dnode == node && rs != [] ==>
      Drained([f] + fs, node, rs) == (if rs[0] then [] else [f]) + Drained(fs, node, rs[1..])
  {
    assert ([f] + fs)[1..] == fs;
  }

  lemma {:induction false} DrainedAppend(fs: seq<Frame>, gs: seq<Frame>, node: int, rs: seq<bool>, qs: seq<bool>)
    requires |For(fs, node)| == |rs|
    ensures Drained(fs + gs, node, rs + qs) == Drained(fs, node, rs) + Drained(gs, node, qs)
  {
    if fs == [] {
      assert fs + gs == gs && rs + qs == qs;
    } else {
      var f, rest := fs[0], fs[1..];
      assert fs + gs == [f] + (rest + gs);
      DrainedCons(f, rest + gs, node, rs + qs);
      if f.dnode == node {
        assert (rs + qs)[1..] == rs[1..] + qs;
        DrainedAppend(rest, gs, node, rs[1..], qs);
        ConcatAssoc(if rs[0] then [] else [f], Drained(rest, node, rs[1..]), Drained(gs, node, qs));
      } else {
        DrainedAppend(rest, gs, node, rs, qs);
        ConcatAssoc([f], Drained(rest, node, rs), Drained(gs, node, qs));
      }
    }
  }

  // Frames skipped over are none of the node's, and all stay.
  lemma {:induction false} SkippedStay(fs: seq<Frame>, node: int)
    ensures var gap := fs[..|fs| - |SkipTo(fs, node)|];
            fs == gap + SkipTo(fs, node) && For(gap, node) == [] && Drained(gap, node, []) == gap
  {
    if fs != [] && fs[0].dnode != node {
      SkippedStay(fs[1..], node);
      var gap := fs[..|fs| - |SkipTo(fs, node)|];
      assert gap[1..] == fs[1..][..|fs[1..]| - |SkipTo(fs[1..], node)|];
    }
  }

  lemma {:induction false} TriesAppend(log: seq<Act>, w: seq<Act>)
    ensures Tries(log + w) == Tries(log) + Tries(w)
  {
    if w == [] {
      assert log + w == log;
    } else {
      assert (log + w)[..|log + w| - 1] == log + w[..|w| - 1];
      TriesAppend(log, w[..|w| - 1]);
    }
  }

  // ---------------------------------------------------------------- the pass invariant

  // `s` is in the middle of a pass: `passed` are the frames behind the current entry, and the
  // current entry is for the node.
  predicate MidPass(s: Box, all: seq<Frame>, passed: seq<Frame>, k: nat, results: seq<bool>) {
    && s.state == Sending
    && Distinct(s.list) && k < |s.list|
    && s.last == Some(s.list[k].slot) && s.list[k].dnode == s.node
    && all == passed + s.list[k..]
    && s.list[..k] == Drained(passed, s.node, results)
    && |For(passed, s.node)| == |results|
  }

  // The pass is over: every frame has been dealt with.
  predicate PassOver(s: Box, all: seq<Frame>, results: seq<bool>, node: int) {
    && s.state != Sending
    && s.list == Drained(all, node, results)
    && |For(all, node)| == |results|
  }

  lemma {:induction false} TriesOne(log: seq<Act>, a: Act)
    ensures Tries(log + [a]) == Tries(log) + if a.Try? then [a.frame] else []
  {
    assert (log + [a])[..|log|] == log;
  }

  lemma {:induction false} NoMoreTriesNothing(s: Box, env: Env)
    ensures Tries(SendNoMore(s, env).log) == Tries(s.log)
  {
    TriesOne(s.log, QueueUpdated);
    TriesOne(s.log, NoMoreInformation(s.node));
    TriesOne(s.log + [NoMoreInformation(s.node)], QueueUpdated);
  }

  // A pass that finds no further frame leaves the list alone and tries nothing.
  lemma {:induction false} EndOfPass(s: Box, env: Env)
    requires s.state == Sending
    ensures var s' := NothingLeft(s, env);
            s'.state != Sending && s'.list == s.list && s'.node == s.node && Tries(s'.log) == Tries(s.log)
  {
    NoMoreTriesNothing(s, env);
    TriesOne(s.log, StartDelay);
    TriesOne(s.log + [StartDelay], QueueUpdated);
  }

  // The state of the pass when the pointer stands somewhere behind `passed`, not yet on a frame
  // for the node.
  predicate Between(s: Box, all: seq<Frame>, passed: seq<Frame>, k: nat, results: seq<bool>) {
    && s.state == Sending && Distinct(s.list) && k <= |s.list|
    && s.last == Head(s.list[k..])
    && all == passed + s.list[k..]
    && s.list[..k] == Drained(passed, s.node, results)
    && |For(passed, s.node)| == |results|
  }

  // The gap between the pointer and the next frame for the node.
  lemma {:induction false} SkipGap(list: seq<Frame>, k: nat, node: int) returns (gap: seq<Frame>)
    requires k <= |list|
    ensures var t := SkipTo(list[k..], node);
            && k + |gap| + |t| == |list|
            && list[k..] == gap + t
            && list[..k + |gap|] == list[..k] + gap
            && list[k + |gap|..] == t
    ensures For(gap, node) == [] && Drained(gap, node, []) == gap
  {
    var rest := list[k..];
    var t := SkipTo(rest, node);
    SkippedStay(rest, node);
    gap := rest[..|rest| - |t|];
    assert list == list[..k] + rest;
  }

  lemma {:induction false} PassOverGap(passed: seq<Frame>, gap: seq<Frame>, node: int, results: seq<bool>)
    requires |For(passed, node)| == |results|
    requires For(gap, node) == [] && Drained(gap, node, []) == gap
    ensures Drained(passed + gap, node, results) == Drained(passed, node, results) + gap
    ensures For(passed + gap, node) == For(passed, node)
  {
    ForAppend(passed, gap, node);
    DrainedAppend(passed, gap, node, results, []);
    assert results + [] == results;
  }

  lemma {:induction false} GapInAll(list: seq<Frame>, k: nat, all: seq<Frame>, passed: seq<Frame>, gap: seq<Frame>, t: seq<Frame>)
    requires k <= |list| && all == passed + list[k..] && list[k..] == gap + t
    ensures all == (passed + gap) + t
  {
  }

  // The search for the next frame only passes over frames that stay.
  lemma {:induction false} SearchSkips(s: Box, all: seq<Frame>, passed: seq<Frame>, k: nat, results: seq<bool>)
    returns (gap: seq<Frame>)
    requires Between(s, all, passed, k, results)
    ensures var t := SkipTo(From(s.list, s.last), s.node);
            var k' := k + |gap|;
            && k' <= |s.list| && t == s.list[k'..] && all == (passed + gap) + t
            && s.list[..k'] == Drained(passed + gap, s.node, results)
            && |For(passed + gap, s.node)| == |results|
  {
    if k < |s.list| { FromSplit(s.list, k); }
    gap := SkipGap(s.list, k, s.node);
    PassOverGap(passed, gap, s.node, results);
    GapInAll(s.list, k, all, passed, gap, SkipTo(s.list[k..], s.node));
  }

  lemma {:induction false} FoundMoves(s: Box, env: Env, all: seq<Frame>, passed: seq<Frame>, k: nat, results: seq<bool>)
    requires env.frameAccepted && s.state == Sending && Distinct(s.list) && k < |s.list|
    requires s.list[k].dnode == s.node && all == passed + s.list[k..]
    requires s.list[..k] == Drained(passed, s.node, results) && |For(passed, s.node)| == |results|
    ensures var s' := TryFrame(s.(last := Some(s.list[k].slot)), s.list[k], env);
            && MidPass(s', all, passed, k, results)
            && Tries(s'.log) == Tries(s.log) + At(For(all, s.node), |results|)
  {
    TriesOne(s.log, Try(s.list[k]));
    ForAppend(passed, s.list[k..], s.node);
  }

  lemma {:induction false} SendNextMoves(s: Box, env: Env, all: seq<Frame>, passed: seq<Frame>, k: nat, results: seq<bool>)
    returns (passed': seq<Frame>, k': nat)
    requires env.frameAccepted && Between(s, all, passed, k, results)
    ensures var s' := SendNext(s, env);
            && Tries(s'.log) == Tries(s.log) + At(For(all, s.node), |results|)
            && s'.node == s.node
            && if s'.state == Sending then MidPass(s', all, passed', k', results)
               else PassOver(s', all, results, s.node)
  {
    var gap := SearchSkips(s, all, passed, k, results);
    passed', k' := passed + gap, k + |gap|;
    if k' < |s.list| {
      FoundMoves(s, env, all, passed', k', results);
    } else {
      assert all == passed' && s.list[..k'] == s.list;
      EndOfPass(s.(last := None), env);
    }
  }

  // One result settles one frame.
  lemma {:induction false} SettleOne(passed: seq<Frame>, f: Frame, node: int, results: seq<bool>, ok: bool)
    requires |For(passed, node)| == |results| && f.dnode == node
    ensures Drained(passed + [f], node, results + [ok]) == Drained(passed, node, results) + if ok then [] else [f]
    ensures |For(passed + [f], node)| == |results + [ok]|
  {
    ForAppend(passed, [f], node);
    DrainedAppend(passed, [f], node, results, [ok]);
  }

  // Stepping past entry `k`.
  lemma {:induction false} ListAdvance(list: seq<Frame>, k: nat)
    requires Distinct(list) && k < |list|
    ensures Next(list, Some(list[k].slot)) == Head(list[k + 1..])
    ensures list[..k + 1] == list[..k] + [list[k]]
  {
    FromSplit(list, k);
  }

  // Dropping entry `k`.
  lemma {:induction false} ListDrop(list: seq<Frame>, k: nat)
    requires Distinct(list) && k < |list|
    ensures var list' := Remove(list, Some(list[k].slot));
            Distinct(list') && k <= |list'| && list'[k..] == list[k + 1..] && list'[..k] == list[..k]
  {
    FromSplit(list, k);
    var list' := list[..k] + list[k + 1..];
    forall i, j | 0 <= i < j < |list'| ensures list'[i].slot != list'[j].slot {
      assert list'[i] == list[if i < k then i else i + 1] && list'[j] == list[if j < k then j else j + 1];
    }
  }

  // A finished transmission puts the pointer behind the frame it was for.
  lemma {:induction false} DoneMoves(s: Box, ok: bool, all: seq<Frame>, passed: seq<Frame>, k: nat, results: seq<bool>)
    returns (passed': seq<Frame>, k': nat)
    requires MidPass(s, all, passed, k, results)
    ensures Between(Advance(s.(txOk := ok), SendDone), all, passed', k', results + [ok])
  {
    var f := s.list[k];
    passed', k' := passed + [f], if ok then k else k + 1;
    assert all == passed' + s.list[k + 1..] by {
      assert s.list[k..] == [f] + s.list[k + 1..];
      assert passed + ([f] + s.list[k + 1..]) == passed' + s.list[k + 1..];
    }
    SettleOne(passed, f, s.node, results, ok);
    ListAdvance(s.list, k);
    ListDrop(s.list, k);
  }

  lemma {:induction false} PostExtends(s: Box, f: Frame, all: seq<Frame>, passed: seq<Frame>, k: nat, results: seq<bool>)
    requires MidPass(s, all, passed, k, results) && Post(s, f) != s
    ensures MidPass(Post(s, f), all + [f], passed, k, results)
  {
    var s' := Post(s, f);
    assert s'.list == s.list + [f];
    forall i | 0 <= i < |s.list| ensures s.list[i].slot != f.slot { assert s.list[i].slot in Slots(s.list); }
    assert s'.list[k..] == s.list[k..] + [f];
    assert s'.list[..k] == s.list[..k];
  }

  // ---------------------------------------------------------------- the drain theorem

  lemma {:induction false} FinishMoves(s: Box, ok: bool, env: Env, all: seq<Frame>, passed: seq<Frame>, k: nat, rs: seq<bool>)
    returns (passed': seq<Frame>, k': nat)
    requires MidPass(s, all, passed, k, rs) && env.frameAccepted
    ensures var s' := Finish(s, ok, env);
            && Tries(s'.log) == Tries(s.log) + At(For(all, s.node), |rs| + 1)
            && s'.node == s.node
            && if s'.state == Sending then MidPass(s', all, passed', k', rs + [ok])
               else PassOver(s', all, rs + [ok], s.node)
  {
    var p1, k1 := DoneMoves(s, ok, all, passed, k, rs);
    passed', k' := SendNextMoves(Advance(s.(txOk := ok), SendDone), env, all, p1, k1, rs + [ok]);
  }

  lemma {:induction false} PassBegins(s: Box, env: Env) returns (passed: seq<Frame>, k: nat)
    requires Distinct(s.list) && env.frameAccepted
    ensures var s0 := StartSending(s, env);
            && Tries(s0.log) == Tries(s.log) + At(For(s.list, s.node), 0)
            && s0.node == s.node
            && if s0.state == Sending then MidPass(s0, s.list, passed, k, []) else PassOver(s0, s.list, [], s.node)
  {
    assert s.list[0..] == s.list && s.list[..0] == [];
    passed, k := SendNextMoves(Advance(s.(state := Sending), Transition), env, s.list, [], 0, []);
  }

  // The end of a pass: `all` was its list, `rs` its results, and after `before` it tried what
  // `es` calls for when frame `c` was the current one.
  predicate Outcome(fin: Box, node: int, all: seq<Frame>, rs: seq<bool>, before: seq<Frame>, c: nat, es: seq<PassEvent>) {
    PassOver(fin, all, rs, node) && Tries(fin.log) == before + Tried(For(all, node), c, es)
  }

  lemma {:induction false} ResultsShift(rs: seq<bool>, es: seq<PassEvent>)
    requires es != []
    ensures es[0].Done? ==> rs + Results(es) == rs + [es[0].ok] + Results(es[1..])
    ensures !es[0].Done? ==> Results(es) == Results(es[1..])
  {
    if es[0].Done? {
      ConcatAssoc(rs, [es[0].ok], Results(es[1..]));
    } else {
      assert [] + Results(es[1..]) == Results(es[1..]);
    }
  }

  lemma {:induction false} TriedShift(fs: seq<Frame>, c: nat, es: seq<PassEvent>, before: seq<Frame>)
    requires es != []
    ensures es[0].Done? ==> before + Tried(fs, c, es) == before + At(fs, c + 1) + Tried(fs, c + 1, es[1..])
    ensures es[0].Stray? ==> before + Tried(fs, c, es) == before + At(fs, c) + Tried(fs, c, es[1..])
    ensures es[0].Posted? ==> Tried(fs, c, es) == Tried(fs, c, es[1..])
  {
    if es[0].Done? { ConcatAssoc(before, At(fs, c + 1), Tried(fs, c + 1, es[1..])); }
    if es[0].Stray? { ConcatAssoc(before, At(fs, c), Tried(fs, c, es[1..])); }
  }

  // Later arrivals do not change which frame is the c-th.
  lemma {:induction false} AtStable(all: seq<Frame>, arr: seq<Frame>, node: int, c: nat)
    requires c < |For(all, node)| || arr == []
    ensures At(For(all + arr, node), c) == At(For(all, node), c)
  {
    ForAppend(all, arr, node);
    if arr == [] { assert all + arr == all; }
  }

  lemma {:induction false} OutcomeDone(fin: Box, node: int, all: seq<Frame>, arr: seq<Frame>, rs: seq<bool>, before: seq<Frame>, es: seq<PassEvent>)
    requires es != [] && es[0].Done?
    requires |rs| + 1 < |For(all, node)| || arr == []
    requires Outcome(fin, node, all + arr, rs + [es[0].ok] + Results(es[1..]),
                     before + At(For(all, node), |rs| + 1), |rs| + 1, es[1..])
    ensures Outcome(fin, node, all + arr, rs + Results(es), before, |rs|, es)
  {
    ResultsShift(rs, es);
    AtStable(all, arr, node, |rs| + 1);
    TriedShift(For(all + arr, node), |rs|, es, before);
  }

  lemma {:induction false} OutcomeStray(fin: Box, node: int, all: seq<Frame>, arr: seq<Frame>, rs: seq<bool>, before: seq<Frame>, es: seq<PassEvent>)
    requires es != [] && es[0].Stray?
    requires |rs| < |For(all, node)|
    requires Outcome(fin, node, all + arr, rs + Results(es[1..]), before + At(For(all, node), |rs|), |rs|, es[1..])
    ensures Outcome(fin, node, all + arr, rs + Results(es), before, |rs|, es)
  {
    ResultsShift(rs, es);
    AtStable(all, arr, node, |rs|);
    TriedShift(For(all + arr, node), |rs|, es, before);
  }

  // There is still a frame without a result.
  lemma {:induction false} MidPassHasNext(s: Box, all: seq<Frame>, passed: seq<Frame>, k: nat, rs: seq<bool>)
    requires MidPass(s, all, passed, k, rs)
    ensures |rs| < |For(all, s.node)|
  {
    ForAppend(passed, s.list[k..], s.node);
  }

  lemma {:induction false} PassConcludes(s: Box, all: seq<Frame>, rs: seq<bool>, es: seq<PassEvent>,
                                         passed: seq<Frame>, k: nat)
    requires MidPass(s, all, passed, k, rs)
    requires Passing(s, es) && PassRun(s, es).state != Sending
    ensures Outcome(PassRun(s, es), s.node, all + Arrived(s, es), rs + Results(es), Tries(s.log), |rs|, es)
    ensures EndsDone(es)
    decreases |es|, 1
  {
    MidPassHasNext(s, all, passed, k, rs);
    var s1 := PassStep(s, es[0]);
    if !es[0].Posted? { NothingArrives(s, es); }
    match es[0]
    case Done(_, ok, env) =>
      var p1, k1 := FinishMoves(s, ok, env, all, passed, k, rs);
      DoneConcludes(s, s1, all, rs, es, p1, k1);
    case Stray(ev, env) =>
      var p1, k1 := SendNextMoves(s, env, all, passed, k, rs);
      StrayConcludes(s, s1, all, rs, es, p1, k1);
    case Posted(f) =>
      ArrivedShift(all, s, f, es);
      if s1 != s { PostExtends(s, f, all, passed, k, rs); }
      PostConcludes(s1, if s1 != s then all + [f] else all, all + Arrived(s, es), rs, es, passed, k);
  }

  lemma {:induction false} DoneConcludes(s: Box, s1: Box, all: seq<Frame>, rs: seq<bool>, es: seq<PassEvent>,
                                         p1: seq<Frame>, k1: nat)
    requires es != [] && es[0].Done? && Passing(s1, es[1..]) && PassRun(s1, es[1..]).state != Sending
    requires s1.node == s.node && Tries(s1.log) == Tries(s.log) + At(For(all, s.node), |rs| + 1)
    requires if s1.state == Sending then MidPass(s1, all, p1, k1, rs + [es[0].ok])
             else PassOver(s1, all, rs + [es[0].ok], s.node)
    ensures Outcome(PassRun(s1, es[1..]), s.node, all + Arrived(s1, es[1..]), rs + Results(es), Tries(s.log), |rs|, es)
    ensures EndsDone(es)
    decreases |es|, 0
  {
    var ok, rest := es[0].ok, es[1..];
    if s1.state == Sending {
      PassConcludes(s1, all, rs + [ok], rest, p1, k1);
      MidPassHasNext(s1, all, p1, k1, rs + [ok]);
    } else {
      OverMeansNoMore(s1, rest);
      assert all + [] == all && rs + [ok] + [] == rs + [ok];
    }
    OutcomeDone(PassRun(s1, rest), s.node, all, Arrived(s1, rest), rs, Tries(s.log), es);
  }

  lemma {:induction false} StrayConcludes(s: Box, s1: Box, all: seq<Frame>, rs: seq<bool>, es: seq<PassEvent>,
                                          p1: seq<Frame>, k1: nat)
    requires es != [] && es[0].Stray? && Passing(s1, es[1..]) && PassRun(s1, es[1..]).state != Sending
    requires s1.node == s.node && Tries(s1.log) == Tries(s.log) + At(For(all, s.node), |rs|)
    requires |rs| < |For(all, s.node)|
    requires if s1.state == Sending then MidPass(s1, all, p1, k1, rs) else PassOver(s1, all, rs, s.node)
    ensures Outcome(PassRun(s1, es[1..]), s.node, all + Arrived(s1, es[1..]), rs + Results(es), Tries(s.log), |rs|, es)
    ensures EndsDone(es)
    decreases |es|, 0
  {
    PassConcludes(s1, all, rs, es[1..], p1, k1);
    OutcomeStray(PassRun(s1, es[1..]), s.node, all, Arrived(s1, es[1..]), rs, Tries(s.log), es);
  }

  // An event that is no posting adds no frame.
  lemma {:induction false} NothingArrives(s: Box, es: seq<PassEvent>)
    requires es != [] && !es[0].Posted?
    ensures Arrived(s, es) == Arrived(PassStep(s, es[0]), es[1..])
  {
    assert [] + Arrived(PassStep(s, es[0]), es[1..]) == Arrived(PassStep(s, es[0]), es[1..]);
  }

  lemma {:induction false} PostConcludes(s1: Box, all1: seq<Frame>, whole: seq<Frame>, rs: seq<bool>, es: seq<PassEvent>,
                                         passed: seq<Frame>, k: nat)
    requires es != [] && es[0].Posted? && Passing(s1, es[1..]) && PassRun(s1, es[1..]).state != Sending
    requires MidPass(s1, all1, passed, k, rs) && all1 + Arrived(s1, es[1..]) == whole
    ensures Outcome(PassRun(s1, es[1..]), s1.node, whole, rs + Results(es), Tries(s1.log), |rs|, es)
    ensures EndsDone(es)
    decreases |es|, 0
  {
    PassConcludes(s1, all1, rs, es[1..], passed, k);
    ResultsShift(rs, es);
    TriedShift(For(whole, s1.node), |rs|, es, Tries(s1.log));
  }

  lemma {:induction false} ArrivedShift(all: seq<Frame>, s: Box, f: Frame, es: seq<PassEvent>)
    requires es != [] && es[0] == Posted(f)
    ensures Post(s, f) != s ==> all + Arrived(s, es) == all + [f] + Arrived(Post(s, f), es[1..])
    ensures Post(s, f) == s ==> Arrived(s, es) == Arrived(Post(s, f), es[1..])
  {
    if Post(s, f) != s {
      ConcatAssoc(all, [f], Arrived(Post(s, f), es[1..]));
    } else {
      assert [] + Arrived(s, es[1..]) == Arrived(s, es[1..]);
    }
  }

  // A pass that is over takes in nothing more.
  lemma {:induction false} OverMeansNoMore(s: Box, es: seq<PassEvent>)
    requires Passing(s, es) && s.state != Sending
    ensures es == []
  {
  }

  // The last event is a transmit result.
  predicate EndsDone(es: seq<PassEvent>) { es != [] && if |es| == 1 then es[0].Done? else EndsDone(es[1..]) }

  function Strays(es: seq<PassEvent>): nat {
    if es == [] then 0 else (if es[0].Stray? then 1 else 0) + Strays(es[1..])
  }

  /** One wake-up pass, for every list, every posting and every sequence of results: when it is
      over, there has been one result for every frame of the node, the k-th result has been taken
      for the k-th frame and decided whether it is gone, everything else is still there in its
      order, and the frames tried are the node's frames in posting order, each once plus once per
      stray event. `MailboxResults` says when the results are taken for the right frames. */
  lemma {:induction false} PassDrains(s: Box, env: Env, es: seq<PassEvent>)
    requires Distinct(s.list) && env.frameAccepted && Passing(StartSending(s, env), es)
    requires PassRun(StartSending(s, env), es).state != Sending
    ensures var s0 := StartSending(s, env);
            var all := s.list + Arrived(s0, es);
            var mine := For(all, s.node);
            var tried := At(mine, 0) + Tried(mine, 0, es);
            && PassRun(s0, es).list == Drained(all, s.node, Results(es))
            && |Results(es)| == |mine|
            && Tries(PassRun(s0, es).log) == Tries(s.log) + tried
            && |tried| == |mine| + Strays(es)
            && (tried == mine <==> Strays(es) == 0)
  {
    var s0 := StartSending(s, env);
    var passed, k := PassBegins(s, env);
    PassOutcome(s0, s.list, es, passed, k, s.node, Tries(s.log));
  }

  lemma {:induction false} PassOutcome(s0: Box, list: seq<Frame>, es: seq<PassEvent>, passed: seq<Frame>, k: nat, node: int, base: seq<Frame>)
    requires if s0.state == Sending then MidPass(s0, list, passed, k, []) else PassOver(s0, list, [], node)
    requires s0.node == node && Tries(s0.log) == base + At(For(list, node), 0)
    requires Passing(s0, es) && PassRun(s0, es).state != Sending
    ensures var all := list + Arrived(s0, es);
            var mine := For(all, node);
            var tried := At(mine, 0) + Tried(mine, 0, es);
            && PassRun(s0, es).list == Drained(all, node, Results(es))
            && |Results(es)| == |mine|
            && Tries(PassRun(s0, es).log) == base + tried
            && |tried| == |mine| + Strays(es)
            && (tried == mine <==> Strays(es) == 0)
  {
    if s0.state == Sending {
      PassFinishes(s0, list, es, passed, k);
      var mine := For(list + Arrived(s0, es), node);
      ConcatAssoc(base, At(mine, 0), Tried(mine, 0, es));
    } else {
      OverMeansNoMore(s0, es);
      assert list + [] == list;
    }
  }

  lemma {:induction false} PassFinishes(s0: Box, list: seq<Frame>, es: seq<PassEvent>, passed: seq<Frame>, k: nat)
    requires MidPass(s0, list, passed, k, []) && Passing(s0, es) && PassRun(s0, es).state != Sending
    ensures var mine := For(list + Arrived(s0, es), s0.node);
            && PassRun(s0, es).list == Drained(list + Arrived(s0, es), s0.node, Results(es))
            && |Results(es)| == |mine| && At(mine, 0) == At(For(list, s0.node), 0)
            && Tries(PassRun(s0, es).log) == Tries(s0.log) + Tried(mine, 0, es)
            && |At(mine, 0) + Tried(mine, 0, es)| == |mine| + Strays(es)
            && (At(mine, 0) + Tried(mine, 0, es) == mine <==> Strays(es) == 0)
  {
    assert [] + Results(es) == Results(es);
    PassConcludes(s0, list, [], es, passed, k);
    MidPassHasNext(s0, list, passed, k, []);
    AtStable(list, Arrived(s0, es), s0.node, 0);
    TriedExactly(For(list + Arrived(s0, es), s0.node), es);
  }

  lemma {:induction false} TriedExactly(fs: seq<Frame>, es: seq<PassEvent>)
    requires fs != [] && |Results(es)| == |fs| && EndsDone(es)
    ensures |At(fs, 0) + Tried(fs, 0, es)| == |fs| + Strays(es)
    ensures At(fs, 0) + Tried(fs, 0, es) == fs <==> Strays(es) == 0
  {
    TriedCounts(fs, 0, es);
    if Strays(es) == 0 { assert [fs[0]] + fs[1..] == fs; }
  }

  lemma {:induction false} TriedCounts(fs: seq<Frame>, c: nat, es: seq<PassEvent>)
    requires c < |fs| && c + |Results(es)| == |fs|
    requires es == [] || EndsDone(es)
    ensures |Tried(fs, c, es)| == |fs| - c - 1 + Strays(es)
    ensures Strays(es) == 0 ==> Tried(fs, c, es) == fs[c + 1..]
    decreases |es|
  {
    if es != [] {
      var rest := es[1..];
      if es[0].Done? {
        if c + 1 < |fs| { TriedCounts(fs, c + 1, rest); } else { NoMoreResults(rest); }
      } else {
        TriedCounts(fs, c, rest);
      }
    }
  }

  lemma {:induction false} NoMoreResults(es: seq<PassEvent>)
    requires Results(es) == [] && (es == [] || EndsDone(es))
    ensures es == []
  {
    if es != [] { NoMoreResults(es[1..]); }
  }

  // An event that is not the machine's own makes the pass try the current frame a second time.
  lemma {:induction false} StrayRepeatsFrame(s: Box, ev: MbEvent, env: Env, k: nat)
    requires s.state == Sending && Distinct(s.list) && k < |s.list|
    requires s.last == Some(s.list[k].slot) && s.list[k].dnode == s.node
    requires ev != SendDone && ev != Transition && env.frameAccepted
    ensures Handle(s, ev, env).log == s.log + [Try(s.list[k])]
    ensures Handle(s, ev, env).last == s.last && Handle(s, ev, env).list == s.list
  {
    FromSplit(s.list, k);
  }

  // ---------------------------------------------------------------- the sleep decision

  datatype BoxEvent =
    | OnDone(ok: bool, env: Env) | OnTimeout(env: Env) | OnFrameSent(env: Env) | OnPost(frame: Frame)
    | OnWake(node: int, isBroadcast: bool, env: Env)

  function BoxStep(s: Box, e: BoxEvent): Box {
    match e
    case OnDone(ok, env) => Finish(s, ok, env)
    case OnTimeout(env) => Handle(s, Timeout, env)
    case OnFrameSent(env) => Handle(s, FrameSentToNode, env)
    case OnPost(f) => Post(s, f)
    case OnWake(node, b, env) => Wake(s, node, b, env)
  }

  function BoxRun(s: Box, es: seq<BoxEvent>): Box {
    if es == [] then s else BoxStep(BoxRun(s, es[..|es| - 1]), es[|es| - 1])
  }

  predicate TakesFrames(e: BoxEvent) { e.OnPost? || e.env.frameAccepted }

  datatype Kind = NoMores | Delays | MoreInfoTries

  predicate IsKind(a: Act, kind: Kind) {
    match kind
    case NoMores => a.NoMoreInformation?
    case Delays => a.StartDelay?
    case MoreInfoTries => a.Try? && a.frame.moreInfo
  }

  function Count(log: seq<Act>, kind: Kind): nat {
    if log == [] then 0 else Count(log[..|log| - 1], kind) + if IsKind(log[|log| - 1], kind) then 1 else 0
  }

  lemma {:induction false} CountOne(log: seq<Act>, a: Act)
    ensures forall kind :: Count(log + [a], kind) == Count(log, kind) + if IsKind(a, kind) then 1 else 0
  {
    assert (log + [a])[..|log|] == log;
  }

  // What a session for a (broadcast?) wake-up that began with log `base` has done so far. `taken`
  // says that every frame was accepted for transmission.
  predicate SessionInv(s: Box, base: seq<Act>, isBroadcast: bool, taken: bool) {
    var noMores := Count(s.log, NoMores) - Count(base, NoMores);
    var delayed := Count(s.log, Delays) > Count(base, Delays);
    var sawMore := Count(s.log, MoreInfoTries) > Count(base, MoreInfoTries);
    && Count(s.log, Delays) >= Count(base, Delays)
    && Count(s.log, MoreInfoTries) >= Count(base, MoreInfoTries)
    && match s.state
       case ProbeWakeUpInterval => noMores == 0 && s.broadcast == isBroadcast && !delayed && !sawMore && s.sendNoMore
       case Sending => noMores == 0 && s.broadcast == isBroadcast && !delayed && s.sendNoMore == !sawMore
       case SendNoMoreInfoDelayed => noMores == 0 && s.broadcast == isBroadcast && delayed && sawMore
       case SendNoMoreInfo => noMores == 1 && !isBroadcast && (delayed ==> sawMore) && (taken && sawMore ==> delayed)
       case Idle => noMores == (if isBroadcast then 0 else 1) && (delayed ==> sawMore) && (taken && sawMore ==> delayed)
  }

  lemma {:induction false} NoMoreKeeps(s: Box, env: Env, base: seq<Act>, b: bool, taken: bool)
    requires s.broadcast == b
    requires Count(s.log, NoMores) == Count(base, NoMores)
    requires Count(s.log, Delays) >= Count(base, Delays) && Count(s.log, MoreInfoTries) >= Count(base, MoreInfoTries)
    requires Count(s.log, Delays) > Count(base, Delays) ==> Count(s.log, MoreInfoTries) > Count(base, MoreInfoTries)
    requires taken && Count(s.log, MoreInfoTries) > Count(base, MoreInfoTries) ==> Count(s.log, Delays) > Count(base, Delays)
    ensures SessionInv(SendNoMore(s, env), base, b, taken)
  {
    if s.broadcast {
      CountOne(s.log, QueueUpdated);
    } else {
      CountOne(s.log, NoMoreInformation(s.node));
      CountOne(s.log + [NoMoreInformation(s.node)], QueueUpdated);
    }
  }

  lemma {:induction false} TryKeeps(s: Box, f: Frame, env: Env, base: seq<Act>, b: bool, taken: bool)
    requires s.state == Sending && SessionInv(s, base, b, taken)
    requires taken ==> env.frameAccepted
    ensures SessionInv(TryFrame(s, f, env), base, b, taken)
  {
    CountOne(s.log, Try(f));
    if !env.frameAccepted {
      NoMoreKeeps(Did(s.(sendNoMore := s.sendNoMore && !f.moreInfo), Try(f)), env, base, b, taken);
    }
  }

  lemma {:induction false} NothingLeftKeeps(s: Box, env: Env, base: seq<Act>, b: bool, taken: bool)
    requires s.state == Sending && SessionInv(s, base, b, taken)
    ensures SessionInv(NothingLeft(s, env), base, b, taken)
  {
    if s.sendNoMore {
      NoMoreKeeps(s, env, base, b, taken);
    } else {
      CountOne(s.log, StartDelay);
      CountOne(s.log + [StartDelay], QueueUpdated);
    }
  }

  lemma {:induction false} NextKeeps(s: Box, env: Env, base: seq<Act>, b: bool, taken: bool)
    requires s.state == Sending && SessionInv(s, base, b, taken)
    requires taken ==> env.frameAccepted
    ensures SessionInv(SendNext(s, env), base, b, taken)
  {
    var t := SkipTo(From(s.list, s.last), s.node);
    if t != [] {
      TryKeeps(s.(last := Head(t)), t[0], env, base, b, taken);
    } else {
      NothingLeftKeeps(s.(last := None), env, base, b, taken);
    }
  }

  lemma {:induction false} SendingKeeps(s: Box, ev: MbEvent, env: Env, base: seq<Act>, b: bool, taken: bool)
    requires SessionInv(s, base, b, taken) && s.state == Sending
    requires taken ==> env.frameAccepted
    ensures SessionInv(SendNext(Advance(s, ev), env), base, b, taken)
  {
    NextKeeps(Advance(s, ev), env, base, b, taken);
  }

  lemma {:induction false} DelayedKeeps(s: Box, ev: MbEvent, env: Env, base: seq<Act>, b: bool, taken: bool)
    requires SessionInv(s, base, b, taken) && s.state == SendNoMoreInfoDelayed
    ensures SessionInv(Handle(s, ev, env), base, b, taken)
  {
    CountOne(s.log, StartDelay);
    if ev == Timeout && !env.nodeBusy { NoMoreKeeps(s, env, base, b, taken); }
  }

  lemma {:induction false} HandleKeeps(s: Box, ev: MbEvent, env: Env, base: seq<Act>, b: bool, taken: bool)
    requires SessionInv(s, base, b, taken) && s.state != Idle
    requires taken ==> env.frameAccepted
    requires ev in {SendDone, Timeout, FrameSentToNode}
    ensures SessionInv(Handle(s, ev, env), base, b, taken)
  {
    match s.state
    case ProbeWakeUpInterval =>
      if ev == SendDone { SendingKeeps(s.(state := Sending), Transition, env, base, b, taken); }
    case Sending => SendingKeeps(s, ev, env, base, b, taken);
    case SendNoMoreInfoDelayed => DelayedKeeps(s, ev, env, base, b, taken);
    case SendNoMoreInfo => CountOne(s.log, QueueUpdated);
  }

  lemma {:induction false} WakeStarts(s: Box, node: int, b: bool, env: Env, taken: bool)
    requires s.state == Idle && (taken ==> env.frameAccepted)
    ensures SessionInv(Wake(s, node, b, env), s.log, b, taken)
  {
    var s1 := s.(node := node, sendNoMore := true, broadcast := b);
    if !env.nodeKnown {
      NoMoreKeeps(s1, env, s.log, b, taken);
    } else if env.wokeEarly {
      var s2 := Did(s1.(state := ProbeWakeUpInterval), ProbeInterval(node));
      CountOne(s.log, ProbeInterval(node));
      HandleKeeps(s2, SendDone, env, s.log, b, taken);
    } else {
      NextKeeps(Advance(s1.(state := Sending), Transition), env, s.log, b, taken);
    }
  }

  lemma {:induction false} SessionKeepsInv(s: Box, node: int, b: bool, env: Env, es: seq<BoxEvent>, taken: bool)
    requires s.state == Idle && (taken ==> env.frameAccepted)
    requires forall i :: 0 <= i < |es| ==> BoxRun(Wake(s, node, b, env), es[..i]).state != Idle
    requires taken ==> forall i :: 0 <= i < |es| ==> TakesFrames(es[i])
    ensures SessionInv(BoxRun(Wake(s, node, b, env), es), s.log, b, taken)
  {
    if es == [] {
      WakeStarts(s, node, b, env, taken);
    } else {
      var front, e := es[..|es| - 1], es[|es| - 1];
      var s0 := Wake(s, node, b, env);
      forall i | 0 <= i < |front| ensures BoxRun(s0, front[..i]).state != Idle {
        assert front[..i] == es[..i];
      }
      SessionKeepsInv(s, node, b, env, front, taken);
      BoxStepKeeps(BoxRun(s0, front), e, s.log, b, taken);
    }
  }

  lemma {:induction false} BoxStepKeeps(s: Box, e: BoxEvent, base: seq<Act>, b: bool, taken: bool)
    requires SessionInv(s, base, b, taken) && s.state != Idle
    requires taken ==> TakesFrames(e)
    ensures SessionInv(BoxStep(s, e), base, b, taken)
  {
    match e
    case OnDone(ok, env) => HandleKeeps(s.(txOk := ok), SendDone, env, base, b, taken);
    case OnTimeout(env) => HandleKeeps(s, Timeout, env, base, b, taken);
    case OnFrameSent(env) => HandleKeeps(s, FrameSentToNode, env, base, b, taken);
    case OnPost(f) =>
    case OnWake(_, _, _) =>
  }

  /** Every wake-up session that runs back to idle makes exactly one no-more-information attempt
      if the notification was unicast and none if it was broadcast; if every frame was accepted
      for transmission, the attempt was delayed if and only if a frame tried in the session asked
      for more information. */
  lemma {:induction false} SessionSleepDecision(s: Box, node: int, b: bool, env: Env, es: seq<BoxEvent>)
    requires s.state == Idle
    requires forall i :: 0 <= i < |es| ==> BoxRun(Wake(s, node, b, env), es[..i]).state != Idle
    requires BoxRun(Wake(s, node, b, env), es).state == Idle
    ensures var s' := BoxRun(Wake(s, node, b, env), es);
            && Count(s'.log, NoMores) == Count(s.log, NoMores) + (if b then 0 else 1)
            && (env.frameAccepted && (forall i :: 0 <= i < |es| ==> TakesFrames(es[i]))
                ==> (Count(s'.log, Delays) > Count(s.log, Delays)
                     <==> Count(s'.log, MoreInfoTries) > Count(s.log, MoreInfoTries)))
  {
    var taken := env.frameAccepted && forall i :: 0 <= i < |es| ==> TakesFrames(es[i]);
    SessionKeepsInv(s, node, b, env, es, taken);
  }
}
