/** The mailbox together with the sender it hands its frames to (src/ClassicZIPNode.c), which carries one
    frame at a time and gives every other back at once. */
module MailboxSender {
  import opened Common
  import opened Mailbox
  import opened MailboxResults

  // What the sender is at work on: nothing, a frame of the mailbox, or one of another queue.
  datatype Air = Ready | Carries(frame: Frame) | Foreign

  // `back` is the frame it has been handed while at work and will now give back.
  datatype Sender = Sender(air: Air, back: Option<Frame>)

  function Handed(air: Air, tries: seq<Frame>): Sender {
    if tries == [] then Sender(air, None)
    else if air == Ready then Sender(Carries(tries[0]), None)
    else Sender(air, Some(tries[0]))
  }

  // A frame given back is reported as not sent, before anything else happens; otherwise a result is for
  // the frame carried.
  predicate MayCome(q: Sender, e: PassEvent) {
    if q.back.Some? then e.Done? && e.of == q.back.value && !e.ok else e.Done? ==> q.air == Carries(e.of)
  }

  function After(q: Sender, s: Box, e: PassEvent): Sender {
    Handed(if e.Done? && q.back.None? then Ready else q.air, NewTries(s, PassStep(s, e)))
  }

  predicate MayRun(q: Sender, s: Box, es: seq<PassEvent>)
    decreases |es|
  {
    es == [] || (MayCome(q, es[0]) && MayRun(After(q, s, es[0]), PassStep(s, es[0]), es[1..]))
  }

  function SenderRun(q: Sender, s: Box, es: seq<PassEvent>): Sender
    decreases |es|
  {
    if es == [] then q else SenderRun(After(q, s, es[0]), PassStep(s, es[0]), es[1..])
  }

  // The pass is over: its list is `list`, and the sender is left with `air`.
  predicate PassEnds(s: Box, list: seq<Frame>, q: Sender, air: Air) {
    s.state !in {Sending, ProbeWakeUpInterval} && s.list == list && q.air == air
  }

  // While the sender is at work every frame comes back, to the end of the pass.
  lemma {:induction false} AllGivenBack(s: Box, k: nat, air: Air, es: seq<PassEvent>)
    requires SendingAt(s, k) && air != Ready && MayRun(Sender(air, Some(s.list[k])), s, es)
    requires Passing(s, es) && PassRun(s, es).state != Sending
    ensures PassEnds(PassRun(s, es), s.list, SenderRun(Sender(air, Some(s.list[k])), s, es), air)
    ensures Applied(s.list, es) == s.list && Strays(es) == 0
    decreases |es|
  {
    var q, s' := Sender(air, Some(s.list[k])), PassStep(s, es[0]);
    var k' := ResultTries(s, k, false, es[0].env);
    assert After(q, s, es[0]) == Handed(air, NewTries(s, s'));
    if s'.state == Sending { AllGivenBack(s', k', air, es[1..]); } else { OverMeansNoMore(s', es[1..]); }
  }

  lemma {:induction false} PostTriesNothing(s: Box, f: Frame)
    ensures NewTries(s, Post(s, f)) == []
  {
  }

  lemma {:induction false} StrayTriesAgain(s: Box, k: nat, ev: MbEvent, env: Env)
    requires SendingAt(s, k) && env.frameAccepted && ev != SendDone && ev != Transition
    ensures var s' := Handle(s, ev, env); SendingAt(s', k) && s'.list == s.list && NewTries(s, s') == [s.list[k]]
  {
    StrayRepeatsFrame(s, ev, env, k);
    TriesOne(s.log, Try(s.list[k]));
    NewTriesOf(s, Handle(s, ev, env), [s.list[k]]);
  }

  // The end of a pass in which the sender carried the frames: it is ready again, or left with a frame that
  // is still in the list.
  predicate CarriedEnds(s: Box, list: seq<Frame>, q: Sender, strays: nat, air: Air) {
    PassEnds(s, list, q, air) && if strays == 0 then air == Ready else air.Carries? && air.frame in s.list
  }

  lemma {:induction false} StrayedPass(s: Box, k: nat, es: seq<PassEvent>)
    requires SendingAt(s, k) && MayRun(Sender(Carries(s.list[k]), None), s, es)
    requires Passing(s, es) && PassRun(s, es).state != Sending && es[0].Stray?
    ensures CarriedEnds(PassRun(s, es), Applied(s.list, es), SenderRun(Sender(Carries(s.list[k]), None), s, es),
                        Strays(es), Carries(s.list[k]))
  {
    var q, s', air := Sender(Carries(s.list[k]), None), PassStep(s, es[0]), Carries(s.list[k]);
    StrayTriesAgain(s, k, es[0].ev, es[0].env);
    assert After(q, s, es[0]) == Sender(air, Some(s'.list[k]));
    AllGivenBack(s', k, air, es[1..]);
  }

  // From the moment the sender carries the current frame.
  lemma {:induction false} CarriedPass(s: Box, k: nat, es: seq<PassEvent>) returns (air: Air)
    requires SendingAt(s, k) && MayRun(Sender(Carries(s.list[k]), None), s, es)
    requires Passing(s, es) && PassRun(s, es).state != Sending
    ensures CarriedEnds(PassRun(s, es), Applied(s.list, es), SenderRun(Sender(Carries(s.list[k]), None), s, es),
                        Strays(es), air)
    decreases |es|, 1
  {
    if es[0].Stray? {
      StrayedPass(s, k, es);
      air := Carries(s.list[k]);
    } else if es[0].Posted? {
      PostTriesNothing(s, es[0].frame);
      PostKeepsSending(s, k, es[0].frame);
      air := CarriedPass(PassStep(s, es[0]), k, es[1..]);
    } else {
      air := AnsweredPass(s, k, es);
    }
  }

  lemma {:induction false} AnsweredPass(s: Box, k: nat, es: seq<PassEvent>) returns (air: Air)
    requires SendingAt(s, k) && MayRun(Sender(Carries(s.list[k]), None), s, es)
    requires Passing(s, es) && PassRun(s, es).state != Sending && es[0].Done?
    ensures CarriedEnds(PassRun(s, es), Applied(s.list, es), SenderRun(Sender(Carries(s.list[k]), None), s, es),
                        Strays(es), air)
    decreases |es|, 0
  {
    var q, s', rest := Sender(Carries(s.list[k]), None), PassStep(s, es[0]), es[1..];
    var k' := ResultTries(s, k, es[0].ok, es[0].env);
    assert After(q, s, es[0]) == Handed(Ready, NewTries(s, s'));
    if s'.state == Sending {
      air := CarriedPass(s', k', rest);
    } else {
      OverMeansNoMore(s', rest);
      air := Ready;
    }
  }

  lemma {:induction false} AppliedOne(list: seq<Frame>, es: seq<PassEvent>, e: PassEvent)
    ensures Applied(list, es + [e]) == Applied(Applied(list, es), [e])
    decreases |es|
  {
    if es == [] {
      assert es + [e] == [e];
    } else {
      assert (es + [e])[1..] == es[1..] + [e];
      match es[0]
      case Done(f, ok, _) => AppliedOne(if ok then Remove(list, Some(f.slot)) else list, es[1..], e);
      case Posted(f) => AppliedOne(if Mailbox.Free(list, f.slot) then list + [f] else list, es[1..], e);
      case Stray(_, _) => AppliedOne(list, es[1..], e);
    }
  }

  lemma {:induction false} RemoveShortens(list: seq<Frame>, f: Frame)
    requires f in list
    ensures |Remove(list, Some(f.slot))| == |list| - 1
  {
    if list[0].slot != f.slot { RemoveShortens(list[1..], f); }
  }

  // The result of the frame the sender is left with, after the pass.
  lemma {:induction false} LateResultCounts(s: Box, f: Frame, ok: bool, env: Env)
    requires s.state !in {Sending, ProbeWakeUpInterval} && f in s.list
    ensures Finish(s, ok, env).list == Applied(s.list, [Done(f, ok, env)]) <==> !ok
  {
    LateResultIgnored(s, ok, env);
    assert [Done(f, ok, env)][1..] == [];
    RemoveShortens(s.list, f);
  }

  // `es` is all that happens in a pass that begins with `s0`.
  predicate WholePass(s: Box, s0: Box, air: Air, es: seq<PassEvent>) {
    MayRun(Handed(air, NewTries(s, s0)), s0, es) && Passing(s0, es) && PassRun(s0, es).state != Sending
  }

  /** A whole pass over any list with any postings, results and stray events, the sender ready or at work on
      another queue's frame as it starts: at its end the frames gone are exactly those reported
      delivered; the sender is left with a frame of the mailbox if and only if a stray event came;
      and when that frame's result comes, the frames gone are still exactly the delivered ones if and
      only if it was not delivered. */
  lemma {:induction false} RemovesDeliveredIff(s: Box, env: Env, air: Air, es: seq<PassEvent>, ok: bool, env': Env)
    requires Distinct(s.list) && env.frameAccepted && !air.Carries? && WholePass(s, StartSending(s, env), air, es)
    ensures var s0 := StartSending(s, env);
            var s', air' := PassRun(s0, es), SenderRun(Handed(air, NewTries(s, s0)), s0, es).air;
            && s'.list == Applied(s.list, es)
            && (air'.Carries? <==> Strays(es) > 0)
            && (air'.Carries? ==>
                 (Finish(s', ok, env').list == Applied(s.list, es + [Done(air'.frame, ok, env')]) <==> !ok))
  {
    var s0 := StartSending(s, env);
    assert s.list[0..] == s.list;
    var k := SearchTries(Advance(s.(state := Sending), Transition), env, 0);
    if s0.state != Sending {
      OverMeansNoMore(s0, es);
    } else if air == Foreign {
      AllGivenBack(s0, k, air, es);
    } else {
      var air' := CarriedPass(s0, k, es);
      if air'.Carries? {
        AppliedOne(s.list, es, Done(air'.frame, ok, env'));
        LateResultCounts(PassRun(s0, es), air'.frame, ok, env');
      }
    }
  }
}
