/** What inclusion must never do, stated as a watcher over the log of src/CC_NetworkManagement.c's
    machine, and the proof that no run makes the watcher object. */
module SmartStart {
  import opened NmAdd

  datatype Verdict = NoResult | Good | Bad

  // What the watcher remembers of the session: whether it is Smart Start, how bootstrapping ended,
  // the removal attempts and failures since; and whether all was well so far.
  datatype Watch = Watch(smart: bool, verdict: Verdict, attempts: nat, failures: nat, removed: bool, ok: bool)

  const QUIET := Watch(false, NoResult, 0, 0, false, true)

  function Remember(m: Watch, e: Entry): Watch {
    match e
    case Session(smart) => QUIET.(smart := smart, ok := m.ok)
    case Closed => QUIET.(ok := m.ok)
    case Result(bad) => m.(verdict := if bad then Bad else Good)
    case Attempt => m.(attempts := m.attempts + 1)
    case Removed => m.(removed := true)
    case NotRemoved => m.(failures := m.failures + 1)
    case _ => m
  }

  // Bootstrapping starts before there is a result, and never with S0 in a Smart Start session; a DSK
  // is stored only after a good result; only a failed Smart Start session removes its node, at most
  // twice; a report says what happened; and no reply is set off by the network-update flags.
  predicate Allowed(m: Watch, e: Entry) {
    && e != UpdateReply
    && (e == S2Begin || e == S0Begin || e == YouDoIt ==> m.verdict == NoResult)
    && (e == S0Begin || e == YouDoIt ==> !m.smart)
    && (e == StoreDsk ==> m.verdict == Good)
    && (e == Attempt ==> FailedSmart(m) && m.attempts < 2)
    && (e.Report? ==> RightStatus(m, e.status))
  }

  // Failed before a result, Done after a good one, SecurityFailed after a bad one; but a failed Smart
  // Start session reports Failed if its node was removed and SecurityFailed only after two failures.
  predicate RightStatus(m: Watch, status: Status) {
    match m.verdict
    case NoResult => status == Failed
    case Good => status == Done
    case Bad => if m.removed then status == Failed else status == SecurityFailed && (m.smart ==> m.failures == 2)
  }

  function Next(m: Watch, e: Entry): Watch {
    Remember(m, e).(ok := m.ok && Allowed(m, e))
  }

  predicate FailedSmart(m: Watch) { m.smart && m.verdict == Bad }

  function Watched(h: History): Watch {
    match h
    case Nothing => QUIET
    case Then(before, latest) => Next(Watched(before), latest)
  }

  // How the machine's state goes with what was seen.
  predicate Fits(s: State, f: Flags, st: Status, m: Watch) {
    && !(f.smart && f.proxy)
    && match s
       case Idle => f == NO_FLAGS && m == QUIET
       case ProxyWaitNif => f == NO_FLAGS && m == QUIET
       case NeighborUpdate => Settled(f, st, m)
       case ProbeAfterAdd => Settled(f, st, m)
       case WaitDhcp => Settled(f, st, m)
       case ReplaceReq => st == Failed && m == QUIET.(smart := f.smart)
       case SelfDestruct => f.smart && m == Removing(0, 0)
       case TxSelfDestruct => f.smart && m == Removing(0, 0)
       case Removal => f.smart && m == Removing(1, 0)
       case SelfDestructRetry => f.smart && m == Removing(1, 1)
       case TxSelfDestructRetry => f.smart && m == Removing(1, 1)
       case RemovalRetry => f.smart && m == Removing(2, 1)
       case _ => m == QUIET.(smart := f.smart)
  }

  // Bootstrapping is over, its node stays, and the status says how it went.
  predicate Settled(f: Flags, st: Status, m: Watch) {
    && m == Watch(f.smart, m.verdict, 0, 0, false, true) && !FailedSmart(m)
    && ((m.verdict == Good && st == Done) || (m.verdict == Bad && st == SecurityFailed))
  }

  // A failed Smart Start session after so many removal attempts and failures.
  function Removing(attempts: nat, failures: nat): Watch { Watch(true, Bad, attempts, failures, false, true) }

  predicate Safe(p: Nm) { Fits(p.state, p.flags, p.status, Watched(p.log)) }

  // ---------------------------------------------------------------- pieces

  lemma {:induction false} ResetSafe(p: Nm)
    requires Watched(p.log).ok
    ensures Safe(Reset(p))
  {
  }

  lemma {:induction false} ReportSafe(p: Nm)
    requires Safe(p) && !Destruct(p.state) && (After(p.state) || p.status == Failed)
    ensures Watched(Log(p, Report(p.status)).log) == Watched(p.log) && Watched(p.log).ok
  {
  }

  lemma {:induction false} ReplySafe(p: Nm, late: bool)
    requires Safe(p) && !Destruct(p.state) && (After(p.state) || p.status == Failed)
    ensures Safe(Reply(p, late))
  {
    ReportSafe(p);
    if p.flags.smart || !late { ResetSafe(Log(p, Report(p.status))); }
  }

  lemma {:induction false} OpenSafe(p: Nm, s: State, f: Flags, replace: bool)
    requires Safe(p) && !After(s) && !Destruct(s) && s != Idle && s != ProxyWaitNif && !(f.smart && f.proxy)
    ensures Safe(Open(p, s, f, replace))
  {
  }

  lemma {:induction false} FailureSafe(p: Nm, s2: bool)
    requires Safe(p) && p.state == SecureAdd
    ensures Safe(Secured(p, true, s2))
  {
    var q := Log(p.(status := SecurityFailed), Result(true));
    assert Watched(q.log) == Watch(p.flags.smart, Bad, 0, 0, false, true);
  }

  lemma {:induction false} SuccessSafe(p: Nm, s2: bool)
    requires Safe(p) && p.state == SecureAdd
    ensures Safe(Secured(p, false, s2))
  {
    var q := Log(p.(status := Done), Result(false));
    assert Watched(q.log) == Watch(p.flags.smart, Good, 0, 0, false, true);
    assert Watched(Log(q, StoreDsk).log) == Watched(q.log);
  }

  lemma {:induction false} SecuredSafe(p: Nm, bad: bool, s2: bool)
    requires Safe(p) && p.state == SecureAdd
    ensures Safe(Secured(p, bad, s2))
  {
    if bad { FailureSafe(p, s2); } else { SuccessSafe(p, s2); }
  }

  lemma {:induction false} BeginSafe(p: Nm, e: Entry)
    requires Safe(p) && p.state == SecureAdd && (e == S2Begin || ((e == S0Begin || e == YouDoIt) && !p.flags.smart))
    ensures Safe(Log(p, e))
  {
  }

  lemma {:induction false} BootstrapSafe(p: Nm, n: Node)
    requires Safe(p) && p.state == SecureAdd
    ensures Safe(Bootstrap(p, n))
  {
    BeginSafe(p, S2Begin);
    if !p.flags.smart {
      BeginSafe(p, S0Begin);
      BeginSafe(p, YouDoIt);
    }
    SecuredSafe(p, false, false);
  }

  lemma {:induction false} StatusDoneSafe(p: Nm, n: Node)
    requires Safe(p) && p.state == WaitForProtocol
    ensures Safe(OnStatusDone(p, n))
  {
    var q := p.(state := SecureAdd);
    SecuredSafe(q.(dskValid := false), n.cachedBad, n.cachedS2);
    BootstrapSafe(q.(lock := true), n);
  }

  lemma {:induction false} ReplaceDoneSafe(p: Nm, n: Node)
    requires Safe(p) && p.state == ReplaceReq
    ensures Safe(OnReplaceDone(p, n))
  {
    var q := p.(state := SecureAdd, lock := true);
    BeginSafe(q, S2Begin);
    if !p.flags.smart {
      BeginSafe(q, S0Begin);
      BeginSafe(q, YouDoIt);
    }
    SecuredSafe(q, false, false);
  }

  lemma {:induction false} RemovedSafe(p: Nm)
    requires Safe(p) && (p.state == Removal || p.state == RemovalRetry)
    ensures Safe(OnRemoved(p))
  {
    var q := Log(p, Removed).(status := Failed);
    ResetSafe(Log(q, Report(Failed)));
  }

  lemma {:induction false} NotRemovedSafe(p: Nm)
    requires Safe(p) && (p.state == Removal || p.state == RemovalRetry)
    ensures Safe(OnNotRemoved(p))
  {
    if p.state == Removal {
      assert Watched(Log(p, NotRemoved).log) == Removing(1, 1);
    } else {
      LastFailureSafe(p);
    }
  }

  lemma {:induction false} LastFailureSafe(p: Nm)
    requires Safe(p) && p.state == RemovalRetry
    ensures Safe(OnNotRemoved(p))
  {
    var q := Log(p, NotRemoved).(status := SecurityFailed, lock := false);
    assert Watched(q.log) == Removing(2, 2);
    assert Watched(Log(q, Report(SecurityFailed)).log) == Removing(2, 2);
    ResetSafe(Log(q, Report(SecurityFailed)));
  }

  // ---------------------------------------------------------------- state by state

  lemma {:induction false} ReplaceSafe(p: Nm, f: Flags, started: bool, late: bool)
    requires Safe(p) && !(f.smart && f.proxy)
    ensures var q := Open(p, ReplaceReq, f, true); Safe(if started then q else Reply(q, late))
  {
    OpenSafe(p, ReplaceReq, f, true);
    ReplySafe(Open(p, ReplaceReq, f, true), late);
  }

  lemma {:induction false} IdleAddSafe(p: Nm, e: Event, late: bool)
    requires Safe(p) && p.state == Idle && (e.Add? || e.SmartStart?)
    ensures Safe(OnIdle(p, e, late))
  {
    if e.Add? { OpenSafe(p, WaitingForAdd, if e.s2 then Flags(true, false, false) else p.flags, false); }
    else { OpenSafe(p, WaitingForAdd, Flags(true, true, false), false); }
  }

  lemma {:induction false} IdleReplaceSafe(p: Nm, e: Event, late: bool)
    requires Safe(p) && p.state == Idle && (e.Replace? || e.ReplaceStop?)
    ensures Safe(OnIdle(p, e, late))
  {
    if e.Replace? { ReplaceSafe(p, if e.s2 then Flags(true, false, false) else p.flags, e.started, late); }
    else { ReplaceSafe(p, p.flags, false, late); }
  }

  lemma {:induction false} IdleSafe(p: Nm, e: Event, late: bool)
    requires Safe(p) && p.state == Idle
    ensures Safe(OnIdle(p, e, late))
  {
    if e.Add? || e.SmartStart? { IdleAddSafe(p, e, late); }
    else if e.Replace? || e.ReplaceStop? { IdleReplaceSafe(p, e, late); }
    else if e.AddStop? { ReplySafe(p.(status := Failed), late); }
    else if e.SmartStartReject? { ResetSafe(p); }
  }

  lemma {:induction false} GiveUpSafe(p: Nm, late: bool)
    requires Safe(p) && !Destruct(p.state) && !After(p.state)
    ensures Safe(GiveUp(p, late))
  {
    ReplySafe(p.(status := Failed, lock := false), late);
  }

  lemma {:induction false} WaitingSafe(p: Nm, e: Event, late: bool)
    requires Safe(p) && p.state == WaitingForAdd
    ensures Safe(OnWaitingForAdd(p, e, late))
  {
    ReplySafe(p.(status := Failed), late);
  }

  lemma {:induction false} ReplaceReqSafe(p: Nm, e: Event, late: bool)
    requires Safe(p) && p.state == ReplaceReq
    ensures Safe(OnReplaceReq(p, e, late))
  {
    if e.ReplaceDone? { ReplaceDoneSafe(p, e.node); }
    ReplySafe(p, late);
  }

  lemma {:induction false} NodeFoundSafe(p: Nm, e: Event, late: bool)
    requires Safe(p) && p.state == NodeFound
    ensures Safe(OnNodeFound(p, e, late))
  {
    GiveUpSafe(p, late);
  }

  lemma {:induction false} ProtocolSafe(p: Nm, e: Event, late: bool)
    requires Safe(p) && p.state == WaitForProtocol
    ensures Safe(OnProtocol(p, e, late))
  {
    GiveUpSafe(p, late);
    if e.StatusDone? { StatusDoneSafe(p, e.node); }
  }

  lemma {:induction false} ProxySafe(p: Nm, e: Event, late: bool)
    requires Safe(p) && p.state == ProxyWaitNif
    ensures Safe(OnProxyNif(p, e, late))
  {
    if e.NodeInfo? {
      var f := Flags(true, false, true);
      if p.replace {
        OpenSafe(p, ReplaceReq, f, true);
        ReplaceDoneSafe(Open(p, ReplaceReq, f, true), e.node);
      } else {
        var q := Open(p, NodeFound, f, false);
        OpenSafe(p, NodeFound, f, false);
        GiveUpSafe(q, late);
        if e.valid { StatusDoneSafe(q.(state := WaitForProtocol), e.node); }
      }
    }
  }

  lemma {:induction false} HandOverSafe(p: Nm, e: Event)
    requires Safe(p) && (p.state == PrepareSuc || p.state == WaitSuc)
    ensures Safe(OnHandOver(p, e))
  {
    if e.HandOverDone? { SecuredSafe(p.(state := SecureAdd), false, e.s2); }
  }

  lemma {:induction false} DskSafe(p: Nm, valid: bool)
    requires Safe(p) && p.state == SecureAdd
    ensures Safe(Log(p.(dskValid := true), DskGiven)) && Safe(p.(dskValid := valid))
  {
  }

  lemma {:induction false} SecureAddSafe(p: Nm, e: Event)
    requires Safe(p) && p.state == SecureAdd
    ensures Safe(OnSecureAdd(p, e))
  {
    if e.SecurityDone? { SecuredSafe(p, e.bad, e.s2); }
    else if e.AddStop? || e.Timeout? { SecuredSafe(p, true, false); }
    else { DskSafe(p, false); }
  }

  lemma {:induction false} AfterSafe(p: Nm, e: Event, late: bool)
    requires Safe(p) && After(p.state)
    ensures Safe(OnAfter(p, e, late))
  {
    if p.state == NeighborUpdate { SettledSafe(p, ProbeAfterAdd, false); }
    else if p.state == ProbeAfterAdd && e.ProbeDone? && !e.hasIp { SettledSafe(p, WaitDhcp, p.lock); }
    else { ReplySafe(p, late); }
  }

  lemma {:induction false} SettledSafe(p: Nm, s: State, lock: bool)
    requires Safe(p) && After(p.state) && After(s)
    ensures Safe(p.(state := s, lock := lock))
  {
  }

  lemma {:induction false} TxSafe(p: Nm, e: Event)
    requires Safe(p) && (p.state == TxSelfDestruct || p.state == TxSelfDestructRetry)
    ensures Safe(OnTx(p, e))
  {
    var q := p.(state := if p.state == TxSelfDestruct then Removal else RemovalRetry);
    NotRemovedSafe(Log(q, Attempt));
  }

  lemma {:induction false} RemovalSafe(p: Nm, e: Event)
    requires Safe(p) && (p.state == Removal || p.state == RemovalRetry)
    ensures Safe(OnRemoval(p, e))
  {
    RemovedSafe(p);
    NotRemovedSafe(p);
    ResetSafe(p.(lock := false));
  }

  lemma {:induction false} SelfDestructSafe(p: Nm, e: Event)
    requires Safe(p) && (p.state == SelfDestruct || p.state == SelfDestructRetry)
    ensures Safe(OnSelfDestruct(p, e))
  {
  }

  lemma {:induction false} DestructSafe(p: Nm, e: Event, late: bool)
    requires Safe(p) && Destruct(p.state)
    ensures Safe(OnState(p, e, late))
  {
    if p.state == TxSelfDestruct || p.state == TxSelfDestructRetry { TxSafe(p, e); }
    else if p.state == Removal || p.state == RemovalRetry { RemovalSafe(p, e); }
    else { SelfDestructSafe(p, e); }
  }

  lemma {:induction false} LookingSafe(p: Nm, e: Event, late: bool)
    requires Safe(p) && (p.state == ReplaceReq || p.state == WaitingForAdd || p.state == NodeFound)
    ensures Safe(OnState(p, e, late))
  {
    if p.state == ReplaceReq { ReplaceReqSafe(p, e, late); }
    else if p.state == WaitingForAdd { WaitingSafe(p, e, late); }
    else { NodeFoundSafe(p, e, late); }
  }

  lemma {:induction false} StateSafe(p: Nm, e: Event, late: bool)
    requires Safe(p)
    ensures Safe(OnState(p, e, late))
  {
    if Destruct(p.state) { DestructSafe(p, e, late); }
    else if After(p.state) { AfterSafe(p, e, late); }
    else if p.state == Idle { IdleSafe(p, e, late); }
    else if p.state == WaitForProtocol { ProtocolSafe(p, e, late); }
    else if p.state == ProxyWaitNif { ProxySafe(p, e, late); }
    else if p.state == PrepareSuc || p.state == WaitSuc { HandOverSafe(p, e); }
    else if p.state == SecureAdd { SecureAddSafe(p, e); }
    else { LookingSafe(p, e, late); }
  }

  lemma {:induction false} DeliveredSafe(p: Nm, late: bool)
    requires Safe(p) && p.updates.disabled
    ensures Safe(Step(p, Delivered, late)) && Step(p, Delivered, late).updates.disabled
  {
    ResetSafe(p.(pending := if p.pending > 0 then p.pending - 1 else 0));
  }

  lemma {:induction false} UpdateSafe(p: Nm, e: Event, late: bool)
    requires Safe(p) && p.updates.disabled && e.Update?
    ensures Safe(Step(p, e, late)) && Step(p, e, late).updates.disabled
  {
    var q := Step(p, e, late);
    assert q == p.(updates := q.updates);
  }

  lemma {:induction false} StepSafe(p: Nm, e: Event, late: bool)
    requires Safe(p) && p.updates.disabled
    ensures Safe(Step(p, e, late)) && Step(p, e, late).updates.disabled
  {
    if e.Delivered? { DeliveredSafe(p, late); }
    else if e.Update? { UpdateSafe(p, e, late); }
    else { ReactionSafe(p, e, late); }
  }

  lemma {:induction false} ReactionSafe(p: Nm, e: Event, late: bool)
    requires Safe(p) && p.updates.disabled && !e.Delivered? && !e.Update?
    ensures Safe(Step(p, e, late)) && Step(p, e, late).updates.disabled
  {
    StateSafe(p, e, late);
    StateKeeps(p, e, late);
  }

  lemma {:induction false} RunSafe(p: Nm, es: seq<Input>)
    requires Safe(p) && p.updates.disabled
    ensures Safe(Run(p, es)) && Run(p, es).updates.disabled
    decreases |es|
  {
    if es != [] {
      StepSafe(p, es[0].event, es[0].late);
      RunSafe(Step(p, es[0].event, es[0].late), es[1..]);
    }
  }

  // ---------------------------------------------------------------- what the watcher vouches for

  predicate AllAllowed(h: History) {
    h == Nothing || (AllAllowed(h.before) && Allowed(Watched(h.before), h.latest))
  }

  lemma {:induction false} OkMeansAllowed(h: History)
    requires Watched(h).ok
    ensures AllAllowed(h)
  {
    if h != Nothing { OkMeansAllowed(h.before); }
  }

  lemma {:induction false} SafeIsOk(p: Nm)
    requires Safe(p)
    ensures Watched(p.log).ok
  {
  }

  /** In every run from a reset machine, whatever the order and timing of events and of late replies,
      every entry of the log is one the watcher allows after the entries before it: Smart Start never
      starts S0, a DSK is stored only after a good result of its session, a failed Smart Start
      session makes at most two removal attempts, every report carries the status of what happened,
      after a failed Smart Start session Failed only if the node was removed and SecurityFailed only
      after two failed attempts, and no network-update flag sets off a reply. */
  lemma {:induction false} InclusionIsSafe(p: Nm, es: seq<Input>)
    requires IsReset(p)
    ensures AllAllowed(Run(p, es).log)
  {
    RunSafe(p, es);
    SafeIsOk(Run(p, es));
    OkMeansAllowed(Run(p, es).log);
  }
}
