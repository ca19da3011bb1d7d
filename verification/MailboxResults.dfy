/** Which frame a transmit result is for. The code of src/Mailbox.c takes every result for the current
    frame's. That is right as long as one transmission is under way at a time. */
module MailboxResults {
  import opened Common
  import opened Mailbox

  // The frames handed to the transmit queue between two states.
  function NewTries(s: Box, s': Box): seq<Frame> {
    var n := |Tries(s.log)|;
    if n <= |Tries(s'.log)| then Tries(s'.log)[n..] else []
  }

  function Minus(fs: seq<Frame>, f: Frame): seq<Frame> {
    if fs == [] then [] else if fs[0] == f then fs[1..] else [fs[0]] + Minus(fs[1..], f)
  }

  // Every result is for a transmission that is under way; `due` are those at the start.
  predicate Answers(due: seq<Frame>, s: Box, es: seq<PassEvent>)
    decreases |es|
  {
    es == [] ||
    var s' := PassStep(s, es[0]);
    match es[0]
    case Done(f, _, _) => f in due && Answers(Minus(due, f) + NewTries(s, s'), s', es[1..])
    case Posted(_) => Answers(due, s', es[1..])
    case Stray(_, _) => Answers(due + NewTries(s, s'), s', es[1..])
  }

  // The reference: posted frames join the end of the list, delivered frames leave it.
  function Applied(list: seq<Frame>, es: seq<PassEvent>): seq<Frame>
    decreases |es|
  {
    if es == [] then list
    else match es[0]
      case Done(f, ok, _) => Applied(if ok then Remove(list, Some(f.slot)) else list, es[1..])
      case Posted(f) => Applied(if Free(list, f.slot) then list + [f] else list, es[1..])
      case Stray(_, _) => Applied(list, es[1..])
  }

  // The machine is sending the frame at position `k`.
  predicate SendingAt(s: Box, k: nat) {
    && s.state == Sending && Distinct(s.list) && k < |s.list|
    && s.last == Some(s.list[k].slot) && s.list[k].dnode == s.node
  }

  // ---------------------------------------------------------------- one step

  // The frame at position `k` is tried.
  lemma {:induction false} FoundTries(s: Box, env: Env, k: nat)
    requires s.state == Sending && Distinct(s.list) && k < |s.list| && s.list[k].dnode == s.node && env.frameAccepted
    ensures var s' := TryFrame(s.(last := Some(s.list[k].slot)), s.list[k], env);
            s'.list == s.list && s'.node == s.node && SendingAt(s', k) && NewTries(s, s') == [s.list[k]]
  {
    TriesOne(s.log, Try(s.list[k]));
    NewTriesOf(s, TryFrame(s.(last := Some(s.list[k].slot)), s.list[k], env), [s.list[k]]);
  }

  lemma {:induction false} NoneFoundTries(s: Box, env: Env)
    requires s.state == Sending
    ensures var s' := NothingLeft(s.(last := None), env);
            s'.list == s.list && s'.node == s.node && NewTries(s, s') == [] && s'.state !in {Sending, ProbeWakeUpInterval}
  {
    EndOfPass(s.(last := None), env);
    NewTriesOf(s, NothingLeft(s.(last := None), env), []);
  }

  // The search from position `k` on stands at the frame at `k'`, the next for the node.
  lemma {:induction false} SearchFinds(s: Box, k: nat) returns (k': nat)
    requires Distinct(s.list) && k <= |s.list| && s.last == Head(s.list[k..])
    ensures var t := SkipTo(s.list[k..], s.node);
            && k <= k' <= |s.list| && s.list[k'..] == t && SkipTo(From(s.list, s.last), s.node) == t
            && (t != [] ==> k' < |s.list| && t[0] == s.list[k'])
  {
    if k < |s.list| { FromSplit(s.list, k); }
    var gap := SkipGap(s.list, k, s.node);
    k' := k + |gap|;
    if k' < |s.list| { assert s.list[k'..][0] == s.list[k']; }
  }

  // The search from position `k` on tries one frame of the node, or ends the pass.
  lemma {:induction false} SearchTries(s: Box, env: Env, k: nat) returns (k': nat)
    requires s.state == Sending && Distinct(s.list) && k <= |s.list| && s.last == Head(s.list[k..]) && env.frameAccepted
    ensures var s' := SendNext(s, env);
            && s'.list == s.list && s'.node == s.node
            && (s'.state == Sending <==> SkipTo(s.list[k..], s.node) != [])
            && (s'.state == Sending ==>
                 k <= k' && SendingAt(s', k') && NewTries(s, s') == [s.list[k']] && s.list[k'..] == SkipTo(s.list[k..], s.node))
            && (s'.state != Sending ==> NewTries(s, s') == [] && s'.state != ProbeWakeUpInterval)
  {
    k' := SearchFinds(s, k);
    if k' < |s.list| { FoundTries(s, env, k'); } else { NoneFoundTries(s, env); }
  }

  lemma {:induction false} NewTriesOf(s: Box, s': Box, fs: seq<Frame>)
    requires Tries(s'.log) == Tries(s.log) + fs
    ensures NewTries(s, s') == fs
  {
  }

  // A result taken for the current frame: the frame leaves if it was delivered, and the next is tried.
  lemma {:induction false} ResultTries(s: Box, k: nat, ok: bool, env: Env) returns (k': nat)
    requires SendingAt(s, k) && env.frameAccepted
    ensures var s' := Finish(s, ok, env);
            && s'.list == (if ok then Remove(s.list, Some(s.list[k].slot)) else s.list)
            && s'.node == s.node
            && (s'.state == Sending <==> SkipTo(s.list[k + 1..], s.node) != [])
            && (s'.state == Sending ==>
                 && SendingAt(s', k') && NewTries(s, s') == [s'.list[k']]
                 && s'.list[k'..] == SkipTo(s.list[k + 1..], s.node))
            && (s'.state != Sending ==> NewTries(s, s') == [] && s'.state != ProbeWakeUpInterval)
  {
    ListAdvance(s.list, k);
    ListDrop(s.list, k);
    var s1 := Advance(s.(txOk := ok), SendDone);
    k' := SearchTries(s1, env, if ok then k else k + 1);
  }

  // ---------------------------------------------------------------- results for the right frames

  lemma {:induction false} DeliveredGo(s: Box, k: nat, es: seq<PassEvent>)
    requires SendingAt(s, k) && Passing(s, es) && Strays(es) == 0 && Answers([s.list[k]], s, es)
    ensures PassRun(s, es).list == Applied(s.list, es)
    decreases |es|
  {
    if es != [] {
      var s', f := PassStep(s, es[0]), s.list[k];
      match es[0]
      case Done(of, ok, env) =>
        var k' := ResultTries(s, k, ok, env);
        assert Minus([f], f) == [];
        if s'.state == Sending {
          assert [] + [s'.list[k']] == [s'.list[k']];
          DeliveredGo(s', k', es[1..]);
        } else {
          OverMeansNoMore(s', es[1..]);
        }
      case Posted(g) =>
        PostKeepsSending(s, k, g);
        DeliveredGo(s', k, es[1..]);
      case Stray(_, _) =>
    }
  }

  lemma {:induction false} PostKeepsSending(s: Box, k: nat, g: Frame)
    requires SendingAt(s, k)
    ensures SendingAt(Post(s, g), k) && Post(s, g).list[k] == s.list[k]
  {
    if Free(s.list, g.slot) {
      forall i | 0 <= i < |s.list| ensures s.list[i].slot != g.slot { assert s.list[i].slot in Slots(s.list); }
    }
  }

  /** A pass during which no stray event comes, whatever is posted and however its transmissions end: at
      every moment the frames gone are exactly those that were delivered, and the others, posted ones
      included, stand in order. */
  lemma {:induction false} DeliveredAreRemoved(s: Box, env: Env, es: seq<PassEvent>)
    requires Distinct(s.list) && env.frameAccepted && Passing(StartSending(s, env), es) && Strays(es) == 0
    requires Answers(NewTries(s, StartSending(s, env)), StartSending(s, env), es)
    ensures PassRun(StartSending(s, env), es).list == Applied(s.list, es)
  {
    var s0 := StartSending(s, env);
    var s1 := Advance(s.(state := Sending), Transition);
    assert s.list[0..] == s.list;
    var k := SearchTries(s1, env, 0);
    if s0.state == Sending { DeliveredGo(s0, k, es); } else { OverMeansNoMore(s0, es); }
  }

  // ---------------------------------------------------------------- what a stray event costs

  // A busy sender gives every frame back at once.
  function GivenBack(fs: seq<Frame>, env: Env): seq<PassEvent> {
    if fs == [] then [] else [Done(fs[0], false, env)] + GivenBack(fs[1..], env)
  }

  lemma {:induction false} ForSkip(fs: seq<Frame>, node: int)
    ensures For(fs, node) == For(SkipTo(fs, node), node)
  {
    if fs != [] && fs[0].dnode != node { ForSkip(fs[1..], node); }
  }

  lemma {:induction false} GivenBackPasses(s: Box, k: nat, env: Env)
    requires SendingAt(s, k) && env.frameAccepted
    ensures var s' := PassRun(s, GivenBack(For(s.list[k..], s.node), env)); s'.list == s.list && s'.state !in {Sending, ProbeWakeUpInterval}
    decreases |s.list| - k
  {
    var f, rest := s.list[k], s.list[k + 1..];
    assert s.list[k..][1..] == rest;
    assert For(s.list[k..], s.node) == [f] + For(rest, s.node);
    ForSkip(rest, s.node);
    var k' := ResultTries(s, k, false, env);
    var s1 := Finish(s, false, env);
    var es := GivenBack(For(s.list[k..], s.node), env);
    assert ([f] + For(rest, s.node))[1..] == For(rest, s.node);
    assert es[0] == Done(f, false, env) && es[1..] == GivenBack(For(rest, s.node), env);
    if s1.state == Sending {
      assert |s.list[k'..]| <= |rest|;
      GivenBackPasses(s1, k', env);
    } else {
      assert SkipTo(rest, s.node) == [] && For(rest, s.node) == [];
    }
  }

  // Out of the sending state a transmit result leaves the list alone.
  lemma {:induction false} LateResultIgnored(s: Box, ok: bool, env: Env)
    requires s.state !in {Sending, ProbeWakeUpInterval}
    ensures Finish(s, ok, env).list == s.list
  {
  }

  /** What follows if a stray event comes while a frame is under way. The frame is handed over again; the
      sender is busy with it and gives it and all later frames of the node back at once, so the pass
      ends without one of them sent; and the result of the first transmission, good or bad, then
      finds the machine elsewhere. The delivered frame stays in the list. */
  lemma {:induction false} StrayLosesResult(s: Box, k: nat, ev: MbEvent, env: Env, ok: bool, env': Env)
    requires SendingAt(s, k) && env.frameAccepted && ev != SendDone && ev != Transition
    ensures var es := [Stray(ev, env)] + GivenBack(For(s.list[k..], s.node), env);
            var s' := PassRun(s, es);
            s'.state != Sending && s'.list == s.list && Finish(s', ok, env').list == s.list
  {
    var es := [Stray(ev, env)] + GivenBack(For(s.list[k..], s.node), env);
    var s1 := PassStep(s, es[0]);
    StrayRepeatsFrame(s, ev, env, k);
    assert es[1..] == GivenBack(For(s.list[k..], s.node), env);
    GivenBackPasses(s1, k, env);
    LateResultIgnored(PassRun(s, es), ok, env');
  }
}
