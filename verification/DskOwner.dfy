/** Whose DSK is stored after an inclusion (src/CC_NetworkManagement.c): the one given in that inclusion,
    unless the session is a replacement or an inclusion for another controller, which do not forget
    the DSK of an earlier one. */
module DskOwner {
  import opened NmAdd
  import opened SmartStart

  // A DSK has been given since the latest session began.
  predicate Given(h: History) {
    match h
    case Nothing => false
    case Then(before, latest) => if latest.Session? then false else latest == DskGiven || Given(before)
  }

  // Every DSK stored was given in its own session.
  predicate AllOwn(h: History) {
    match h
    case Nothing => true
    case Then(before, latest) => AllOwn(before) && (latest == StoreDsk ==> Given(before))
  }

  // A good S2 result comes in a session that was given no DSK while one is left over from an earlier session.
  predicate Misfiles(p: Nm, e: Event) {
    && p.dskValid && !Given(p.log)
    && ((p.state == SecureAdd && e == SecurityDone(false, true)) || (p.state == WaitSuc && e == HandOverDone(true)))
  }

  // Smart Start sessions begin without a DSK.
  predicate SmartOwn(p: Nm) { p.flags.smart && p.dskValid ==> Given(p.log) }

  // What a step that is no such result keeps.
  predicate KeepsOwn(p: Nm, q: Nm) { SmartOwn(q) && (AllOwn(q.log) <==> AllOwn(p.log)) }

  // ---------------------------------------------------------------- pieces

  // An entry that neither begins a session nor stores a DSK.
  lemma {:induction false} EntryOwn(p: Nm, e: Entry)
    requires SmartOwn(p) && !e.Session? && e != StoreDsk
    ensures KeepsOwn(p, Log(p, e))
  {
  }

  lemma {:induction false} ResetOwn(p: Nm)
    ensures KeepsOwn(p, Reset(p))
  {
  }

  lemma {:induction false} ReplyOwn(p: Nm, late: bool)
    requires SmartOwn(p)
    ensures KeepsOwn(p, Reply(p, late))
  {
    ResetOwn(Log(p, Report(p.status)));
  }

  lemma {:induction false} OpenOwn(p: Nm, s: State, f: Flags, replace: bool)
    requires !f.smart
    ensures KeepsOwn(p, Open(p, s, f, replace))
  {
  }

  // Without a good S2 result a DSK is stored by Smart Start only.
  lemma {:induction false} SecuredOwn(p: Nm, bad: bool, s2: bool)
    requires SmartOwn(p) && (bad || !s2 || !p.dskValid || Given(p.log))
    ensures KeepsOwn(p, Secured(p, bad, s2))
  {
  }

  lemma {:induction false} BootstrapOwn(p: Nm, n: Node)
    requires SmartOwn(p)
    ensures KeepsOwn(p, Bootstrap(p, n))
  {
    SecuredOwn(p, false, false);
  }

  lemma {:induction false} StatusDoneOwn(p: Nm, n: Node)
    requires SmartOwn(p)
    ensures KeepsOwn(p, OnStatusDone(p, n))
  {
    var q := p.(state := SecureAdd);
    SecuredOwn(q.(dskValid := false), n.cachedBad, n.cachedS2);
    BootstrapOwn(q.(lock := true), n);
  }

  lemma {:induction false} ReplaceDoneOwn(p: Nm, n: Node)
    requires SmartOwn(p)
    ensures KeepsOwn(p, OnReplaceDone(p, n))
  {
    SecuredOwn(p.(state := SecureAdd, lock := true), false, false);
  }

  lemma {:induction false} GiveUpOwn(p: Nm, late: bool)
    requires SmartOwn(p)
    ensures KeepsOwn(p, GiveUp(p, late))
  {
    ReplyOwn(p.(status := Failed, lock := false), late);
  }

  // ---------------------------------------------------------------- state by state

  lemma {:induction false} AddOwn(p: Nm, f: Flags)
    ensures KeepsOwn(p, Open(p, WaitingForAdd, f, false).(dskValid := false))
  {
  }

  lemma {:induction false} IdleAddOwn(p: Nm, e: Event, late: bool)
    requires p.state == Idle && p.flags == NO_FLAGS && (e.Add? || e.SmartStart?)
    ensures KeepsOwn(p, OnIdle(p, e, late))
  {
    if e.Add? { AddOwn(p, if e.s2 then Flags(true, false, false) else p.flags); }
    else { AddOwn(p, Flags(true, true, false)); }
  }

  lemma {:induction false} IdleReplaceOwn(p: Nm, e: Event, late: bool)
    requires p.state == Idle && p.flags == NO_FLAGS && (e.Replace? || e.ReplaceStop?)
    ensures KeepsOwn(p, OnIdle(p, e, late))
  {
    ReplaceOwn(p, if e.Replace? && e.s2 then Flags(true, false, false) else p.flags, late);
  }

  lemma {:induction false} IdleOwn(p: Nm, e: Event, late: bool)
    requires p.state == Idle && p.flags == NO_FLAGS
    ensures KeepsOwn(p, OnIdle(p, e, late))
  {
    if e.Add? || e.SmartStart? { IdleAddOwn(p, e, late); }
    else if e.Replace? || e.ReplaceStop? { IdleReplaceOwn(p, e, late); }
    else if e.AddStop? { ReplyOwn(p.(status := Failed), late); }
    else if e.SmartStartReject? { ResetOwn(p); }
  }

  lemma {:induction false} ReplaceOwn(p: Nm, f: Flags, late: bool)
    requires !f.smart
    ensures KeepsOwn(p, Open(p, ReplaceReq, f, true)) && KeepsOwn(p, Reply(Open(p, ReplaceReq, f, true), late))
  {
    OpenOwn(p, ReplaceReq, f, true);
    ReplyOwn(Open(p, ReplaceReq, f, true), late);
  }

  lemma {:induction false} ProxyOwn(p: Nm, e: Event, late: bool)
    requires p.state == ProxyWaitNif && p.flags == NO_FLAGS
    ensures KeepsOwn(p, OnProxyNif(p, e, late))
  {
    if e.NodeInfo? {
      var f := Flags(true, false, true);
      if p.replace {
        OpenOwn(p, ReplaceReq, f, true);
        ReplaceDoneOwn(Open(p, ReplaceReq, f, true), e.node);
      } else {
        var q := Open(p, NodeFound, f, false);
        OpenOwn(p, NodeFound, f, false);
        GiveUpOwn(q, late);
        StatusDoneOwn(q.(state := WaitForProtocol), e.node);
      }
    }
  }

  lemma {:induction false} LookingOwn(p: Nm, e: Event, late: bool)
    requires SmartOwn(p) && (p.state == ReplaceReq || p.state == WaitingForAdd || p.state == NodeFound)
    ensures KeepsOwn(p, OnState(p, e, late))
  {
    if p.state == ReplaceReq {
      if e.ReplaceDone? { ReplaceDoneOwn(p, e.node); } else { ReplyOwn(p, late); }
    } else if p.state == WaitingForAdd {
      ReplyOwn(p.(status := Failed), late);
    } else {
      GiveUpOwn(p, late);
    }
  }

  lemma {:induction false} ProtocolOwn(p: Nm, e: Event, late: bool)
    requires SmartOwn(p) && p.state == WaitForProtocol
    ensures KeepsOwn(p, OnProtocol(p, e, late))
  {
    if e.StatusDone? { StatusDoneOwn(p, e.node); } else { GiveUpOwn(p, late); }
  }

  lemma {:induction false} HandOverOwn(p: Nm, e: Event)
    requires SmartOwn(p) && (p.state == PrepareSuc || p.state == WaitSuc) && !Misfiles(p, e)
    ensures KeepsOwn(p, OnHandOver(p, e))
  {
    if p.state == WaitSuc && e.HandOverDone? { SecuredOwn(p.(state := SecureAdd), false, e.s2); }
  }

  lemma {:induction false} SecureAddOwn(p: Nm, e: Event)
    requires SmartOwn(p) && p.state == SecureAdd && !Misfiles(p, e)
    ensures KeepsOwn(p, OnSecureAdd(p, e))
  {
    if e.SecurityDone? { SecuredOwn(p, e.bad, e.s2); } else { SecuredOwn(p, true, false); }
  }

  lemma {:induction false} AfterOwn(p: Nm, e: Event, late: bool)
    requires SmartOwn(p) && After(p.state)
    ensures KeepsOwn(p, OnAfter(p, e, late))
  {
    ReplyOwn(p, late);
  }

  lemma {:induction false} NotRemovedOwn(p: Nm)
    requires SmartOwn(p)
    ensures KeepsOwn(p, OnNotRemoved(p))
  {
    EntryOwn(p, NotRemoved);
    var q := Log(p, NotRemoved).(status := SecurityFailed, lock := false);
    EntryOwn(q, Report(SecurityFailed));
    ResetOwn(Log(q, Report(SecurityFailed)));
  }

  lemma {:induction false} RemovedOwn(p: Nm)
    requires SmartOwn(p)
    ensures KeepsOwn(p, OnRemoved(p))
  {
    EntryOwn(p, Removed);
    var q := Log(p, Removed).(status := Failed);
    EntryOwn(q, Report(Failed));
    ResetOwn(Log(q, Report(Failed)));
  }

  lemma {:induction false} TxOwn(p: Nm, e: Event)
    requires SmartOwn(p) && (p.state == TxSelfDestruct || p.state == TxSelfDestructRetry)
    ensures KeepsOwn(p, OnTx(p, e))
  {
    var q := p.(state := if p.state == TxSelfDestruct then Removal else RemovalRetry);
    EntryOwn(q, Attempt);
    NotRemovedOwn(Log(q, Attempt));
  }

  lemma {:induction false} RemovalOwn(p: Nm, e: Event)
    requires SmartOwn(p) && (p.state == Removal || p.state == RemovalRetry)
    ensures KeepsOwn(p, OnRemoval(p, e))
  {
    if e.RemoveOk? { RemovedOwn(p); }
    else if e.RemoveFail? { NotRemovedOwn(p); }
    else { ResetOwn(p.(lock := false)); }
  }

  lemma {:induction false} DestructOwn(p: Nm, e: Event, late: bool)
    requires SmartOwn(p) && Destruct(p.state)
    ensures KeepsOwn(p, OnState(p, e, late))
  {
    if p.state == TxSelfDestruct || p.state == TxSelfDestructRetry { TxOwn(p, e); }
    else if p.state == Removal || p.state == RemovalRetry { RemovalOwn(p, e); }
  }

  lemma {:induction false} StateOwn(p: Nm, e: Event, late: bool)
    requires Safe(p) && SmartOwn(p) && !Misfiles(p, e)
    ensures KeepsOwn(p, OnState(p, e, late))
  {
    if Destruct(p.state) { DestructOwn(p, e, late); }
    else if After(p.state) { AfterOwn(p, e, late); }
    else if p.state == Idle { IdleOwn(p, e, late); }
    else if p.state == WaitForProtocol { ProtocolOwn(p, e, late); }
    else if p.state == ProxyWaitNif { ProxyOwn(p, e, late); }
    else if p.state == PrepareSuc || p.state == WaitSuc { HandOverOwn(p, e); }
    else if p.state == SecureAdd { SecureAddOwn(p, e); }
    else { LookingOwn(p, e, late); }
  }

  // ---------------------------------------------------------------- steps and runs

  lemma {:induction false} OtherStepOwn(p: Nm, e: Event, late: bool)
    requires Safe(p) && p.updates.disabled && SmartOwn(p) && !Misfiles(p, e)
    ensures KeepsOwn(p, Step(p, e, late))
  {
    if e.Delivered? { ResetOwn(p.(pending := if p.pending > 0 then p.pending - 1 else 0)); }
    else if !e.Update? { StateOwn(p, e, late); }
  }

  // The DSK left over is stored.
  lemma {:induction false} MisfiledOwn(p: Nm)
    requires p.dskValid && !Given(p.log) && SmartOwn(p)
    ensures !AllOwn(Secured(p, false, true).log) && SmartOwn(Secured(p, false, true))
  {
    var q := Log(p.(status := Done), Result(false));
    assert !Given(q.log) && !AllOwn(Log(q, StoreDsk).log);
  }

  /** One step: the DSKs stored so far are all their own sessions' if and only if they were before and the
      step is not a good S2 result in a session that was given none while one is left over. */
  lemma {:induction false} StepOwnIff(p: Nm, e: Event, late: bool)
    requires Safe(p) && p.updates.disabled && SmartOwn(p)
    ensures AllOwn(Step(p, e, late).log) <==> AllOwn(p.log) && !Misfiles(p, e)
    ensures SmartOwn(Step(p, e, late))
  {
    if Misfiles(p, e) { MisfiledOwn(p.(state := SecureAdd)); } else { OtherStepOwn(p, e, late); }
  }

  predicate NeverMisfiles(p: Nm, es: seq<Input>)
    decreases |es|
  {
    es == [] || (!Misfiles(p, es[0].event) && NeverMisfiles(Step(p, es[0].event, es[0].late), es[1..]))
  }

  lemma {:induction false} RunOwnIff(p: Nm, es: seq<Input>)
    requires Safe(p) && p.updates.disabled && SmartOwn(p)
    ensures AllOwn(Run(p, es).log) <==> AllOwn(p.log) && NeverMisfiles(p, es)
    decreases |es|
  {
    if es != [] {
      StepOwnIff(p, es[0].event, es[0].late);
      StepSafe(p, es[0].event, es[0].late);
      RunOwnIff(Step(p, es[0].event, es[0].late), es[1..]);
    }
  }

  /** Every run from a reset machine: each DSK stored was given in its own session if and only if no good S2
      result comes in a session that was given no DSK while one is left over from an earlier one. */
  lemma {:induction false} StoredOwnIff(p: Nm, es: seq<Input>)
    requires IsReset(p)
    ensures AllOwn(Run(p, es).log) <==> NeverMisfiles(p, es)
  {
    RunOwnIff(p, es);
  }

  // ---------------------------------------------------------------- a replacement

  // An add always begins without a DSK.
  lemma {:induction false} AddForgets(p: Nm, e: Event, late: bool)
    requires p.state == Idle && (e.Add? || (e.SmartStart? && e.listed))
    ensures var q := Step(p, e, late); q.state == WaitingForAdd && !q.dskValid
  {
  }

  // A node is added with S2, its DSK matched and stored, and its interview finished.
  lemma {:induction false} AddLeavesDsk(p: Nm, n: Node)
    requires IsReset(p) && !p.delay && !n.known && !n.handOver && n.gatewayS2 && n.nodeS2
    ensures var p3 := Step(Step(Step(p, Add(true), false), Found, false), Adding(true), false);
            var p5 := Step(Step(p3, StatusDone(n), false), KeyChallenge(true), false);
            var q := Step(Step(p5, SecurityDone(false, true), false), ProbeDone(true, true), false);
            q.state == Idle && q.dskValid
  {
    var p3 := Step(Step(Step(p, Add(true), false), Found, false), Adding(true), false);
    assert p3.state == WaitForProtocol && p3.flags == Flags(true, false, false) && !p3.delay;
    AddEnds(p3, n);
  }

  lemma {:induction false} AddEnds(p: Nm, n: Node)
    requires p.state == WaitForProtocol && p.flags == Flags(true, false, false) && !p.delay
    requires !n.known && !n.handOver && n.gatewayS2 && n.nodeS2
    ensures var p5 := Step(Step(p, StatusDone(n), false), KeyChallenge(true), false);
            var q := Step(Step(p5, SecurityDone(false, true), false), ProbeDone(true, true), false);
            q.state == Idle && q.dskValid
  {
    var p4 := Step(p, StatusDone(n), false);
    assert p4.state == SecureAdd && p4.flags == p.flags && !p4.delay;
    var p5 := Step(p4, KeyChallenge(true), false);
    assert p5.state == SecureAdd && p5.dskValid;
    var p6 := Step(p5, SecurityDone(false, true), false);
    assert p6.state == ProbeAfterAdd && p6.dskValid;
  }

  /** A replacement that is handed to the SUC on a machine left like that: the earlier DSK is stored again,
      for the new node. */
  lemma {:induction false} ReplacementMisfiles(p: Nm, n: Node)
    requires p.state == Idle && p.dskValid && n.handOver
    ensures var q := Step(Step(Step(p, Replace(true, true), false), ReplaceDone(n), false), Timeout, false);
            Misfiles(q, HandOverDone(true))
  {
    var p1 := Step(p, Replace(true, true), false);
    assert p1.state == ReplaceReq && p1.dskValid && !Given(p1.log);
    var p2 := Step(p1, ReplaceDone(n), false);
    assert p2.state == PrepareSuc && p2.dskValid && p2.log == p1.log;
  }
}
