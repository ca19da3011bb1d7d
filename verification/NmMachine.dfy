/** The node-adding machine as the code runs it: the global network-management record, updated in
    place by one handler per state. */
module NmMachine {
  import opened NmAdd
  import Watcher = SmartStart

  // What every input leaves true: the record agrees with what was seen of the session, bootstrapping
  // goes on only with the interview locked, and the update flags set off no reply.
  ghost predicate Legal(p: Nm) { Watcher.Safe(p) && Guarded(p) && p.updates.disabled }

  lemma {:induction false} StepIsLegal(p: Nm, e: Event, late: bool)
    requires Legal(p)
    ensures Legal(Step(p, e, late))
    ensures LockOk(p) ==> (LockOk(Step(p, e, late)) <==> !Overtaken(p, e))
  {
    Watcher.StepSafe(p, e, late);
    StepIsGuarded(p, e, late);
    if LockOk(p) { StepLockIff(p, e, late); }
  }

  class Machine {
    var state: State
    var flags: Flags
    var replace: bool
    var status: Status
    var dskValid: bool
    var delay: bool
    var lock: bool
    var updates: Updates
    var pending: nat
    var log: History

    ghost function Snapshot(): Nm
      reads this
    {
      Nm(state, flags, replace, status, dskValid, delay, lock, updates, pending, log)
    }

    ghost predicate Valid()
      reads this
    {
      Legal(Snapshot())
    }

    constructor ()
      ensures Valid() && LockOk(Snapshot()) && IsReset(Snapshot())
    {
      state, flags, replace, status := Idle, NO_FLAGS, false, Failed;
      dskValid, delay, lock, pending := false, false, false, 0;
      updates, log := Updates(false, false, false, true), Nothing;
    }

    method Note(e: Entry)
      modifies `log
      ensures Snapshot() == Log(old(Snapshot()), e)
    {
      log := Then(log, e);
    }

    method ResetState()
      modifies this
      ensures Snapshot() == Reset(old(Snapshot()))
    {
      flags := NO_FLAGS;
      updates := Updates(false, false, false, true);
      state := Idle;
      Note(Closed);
    }

    method SendReply(late: bool)
      modifies this
      ensures Snapshot() == Reply(old(Snapshot()), late)
    {
      Note(Report(status));
      if !flags.smart {
        if late { pending := pending + 1; } else { ResetState(); }
      } else {
        ResetState();
      }
    }

    method PrepareForAdd(to: State, with: Flags, replacing: bool)
      modifies this
      ensures Snapshot() == Open(old(Snapshot()), to, with, replacing)
    {
      state, flags, replace, status := to, with, replacing, Failed;
      Note(Session(with.smart));
    }

    method SecurityResult(bad: bool, s2: bool)
      modifies this
      ensures Snapshot() == Secured(old(Snapshot()), bad, s2)
    {
      status := if bad then SecurityFailed else Done;
      Note(Result(bad));
      if flags.smart && bad {
        state := SelfDestruct;
        return;
      }
      if dskValid {
        if flags.smart || (s2 && !bad) { Note(StoreDsk); }
      }
      if delay {
        state, delay := NeighborUpdate, false;
      } else {
        state, lock := ProbeAfterAdd, false;
      }
    }

    method StartBootstrap(n: Node)
      modifies this
      ensures Snapshot() == Bootstrap(old(Snapshot()), n)
    {
      if n.handOver {
        state := PrepareSuc;
        return;
      }
      if flags.s2 && n.gatewayS2 {
        if n.nodeS2 || flags.smart {
          Note(S2Begin);
          return;
        }
      }
      if n.gatewayS0 {
        if n.nodeS0 {
          if flags.proxy {
            Note(YouDoIt);
          } else if !flags.smart {
            Note(S0Begin);
          }
          return;
        }
      }
      SecurityResult(false, false);
    }

    method AddDone(n: Node)
      modifies this
      ensures Snapshot() == OnStatusDone(old(Snapshot()), n)
    {
      state := SecureAdd;
      if n.known && !flags.proxy {
        dskValid := false;
        SecurityResult(n.cachedBad, n.cachedS2);
      } else {
        lock := true;
        StartBootstrap(n);
      }
    }

    method ReplaceFinished(n: Node)
      modifies this
      ensures Snapshot() == OnReplaceDone(old(Snapshot()), n)
    {
      state, lock := SecureAdd, true;
      if n.handOver {
        state := PrepareSuc;
        return;
      }
      if flags.s2 && n.nodeS2 {
        Note(S2Begin);
        return;
      }
      if n.nodeS0 {
        if flags.proxy {
          Note(YouDoIt);
          return;
        } else if !flags.smart {
          Note(S0Begin);
          return;
        }
      }
      SecurityResult(false, false);
    }

    method Fail(late: bool)
      modifies this
      ensures Snapshot() == GiveUp(old(Snapshot()), late)
    {
      status := Failed;
      lock := false;
      SendReply(late);
    }

    method StartReplace(with: Flags, started: bool, late: bool)
      modifies this
      ensures Snapshot() == (var q := Open(old(Snapshot()), ReplaceReq, with, true); if started then q else Reply(q, late))
    {
      PrepareForAdd(ReplaceReq, with, true);
      if !started { SendReply(late); }
    }

    method StartAdd(with: Flags)
      modifies this
      ensures Snapshot() == Open(old(Snapshot()), WaitingForAdd, with, false).(dskValid := false)
    {
      PrepareForAdd(WaitingForAdd, with, false);
      dskValid := false;
    }

    method ReplyFailed(late: bool)
      modifies this
      ensures Snapshot() == Reply(old(Snapshot()).(status := Failed), late)
    {
      status := Failed;
      SendReply(late);
    }

    method HandleIdle(e: Event, late: bool)
      modifies this
      ensures Snapshot() == OnIdle(old(Snapshot()), e, late)
    {
      match e {
        case Add(s2) => StartAdd(if s2 then Flags(true, false, false) else flags);
        case SmartStart(listed) => if listed { StartAdd(Flags(true, true, false)); }
        case SmartStartReject => ResetState();
        case Replace(s2, started) => StartReplace(if s2 then Flags(true, false, false) else flags, started, late);
        case ReplaceStop => StartReplace(flags, false, late);
        case AddStop => ReplyFailed(late);
        case Proxy(replacing) => state, replace := ProxyWaitNif, replacing;
        case _ =>
      }
    }

    method HandleLooking(e: Event, late: bool)
      modifies this
      ensures old(state) == ReplaceReq ==> Snapshot() == OnReplaceReq(old(Snapshot()), e, late)
      ensures old(state) == WaitingForAdd ==> Snapshot() == OnWaitingForAdd(old(Snapshot()), e, late)
      ensures old(state) == NodeFound ==> Snapshot() == OnNodeFound(old(Snapshot()), e, late)
    {
      if state == ReplaceReq {
        if e.Timeout? || e.ReplaceStop? || e.ReplaceFailed? { SendReply(late); }
        else if e.ReplaceDone? { ReplaceFinished(e.node); }
      } else if state == WaitingForAdd {
        if e.AddStop? || e.Timeout? {
          ReplyFailed(late);
        } else if e.Found? {
          state := NodeFound;
        }
      } else if state == NodeFound {
        if e.Adding? { HandleAdding(e.valid, late); }
        else if e.AddFailed? || e.Timeout? { Fail(late); }
      }
    }

    method HandleAdding(valid: bool, late: bool)
      modifies this
      ensures Snapshot() == OnAdding(old(Snapshot()), valid, late)
    {
      if valid { state := WaitForProtocol; } else { Fail(late); }
    }

    method HandleProtocol(e: Event, late: bool)
      modifies this
      ensures Snapshot() == OnProtocol(old(Snapshot()), e, late)
    {
      if e.FlirsSkipped? { delay := true; }
      else if e.StatusDone? { AddDone(e.node); }
      else if e.Timeout? || e.AddFailed? || e.NotPrimary? { Fail(late); }
    }

    // An inclusion on behalf of another controller plays the add events to itself.
    method HandleProxyNif(e: Event, late: bool)
      modifies this
      ensures Snapshot() == OnProxyNif(old(Snapshot()), e, late)
    {
      if e.Timeout? {
        state := Idle;
      } else if e.NodeInfo? {
        if replace {
          PrepareForAdd(ReplaceReq, Flags(true, false, true), true);
          ReplaceFinished(e.node);
        } else {
          PrepareForAdd(NodeFound, Flags(true, false, true), false);
          HandleAdding(e.valid, late);
          if state == WaitForProtocol { AddDone(e.node); }
        }
      }
    }

    method HandleHandOver(e: Event)
      modifies this
      ensures Snapshot() == OnHandOver(old(Snapshot()), e)
    {
      if state == PrepareSuc {
        if e.Timeout? { state := WaitSuc; }
      } else if state == WaitSuc {
        if e.HandOverDone? {
          state := SecureAdd;
          SecurityResult(false, e.s2);
        }
      }
    }

    method TakeDsk()
      modifies this
      ensures Snapshot() == Log(old(Snapshot()).(dskValid := true), DskGiven)
    {
      dskValid := true;
      Note(DskGiven);
    }

    method HandleSecureAdd(e: Event)
      modifies this
      ensures Snapshot() == OnSecureAdd(old(Snapshot()), e)
    {
      match e {
        case SecurityDone(bad, s2) => SecurityResult(bad, s2);
        case AddStop => SecurityResult(true, false);
        case Timeout => SecurityResult(true, false);
        case KeyChallenge(matched) =>
          if matched { TakeDsk(); } else if flags.smart { dskValid := false; }
        case DskSet(fits) => if fits { TakeDsk(); }
        case _ =>
      }
    }

    method HandleAfter(e: Event, late: bool)
      modifies this
      ensures Snapshot() == OnAfter(old(Snapshot()), e, late)
    {
      if state == NeighborUpdate {
        if e.NeighborsDone? || e.Timeout? { state, lock := ProbeAfterAdd, false; }
      } else if state == ProbeAfterAdd {
        if e.ProbeDone? && e.mine {
          if e.hasIp { SendReply(late); } else { state := WaitDhcp; }
        }
      } else if (e.DhcpDone? && e.mine) || e.Timeout? {
        SendReply(late);
      }
    }

    method RemoveFailedFail()
      modifies this
      ensures Snapshot() == OnNotRemoved(old(Snapshot()))
    {
      Note(NotRemoved);
      if state == Removal {
        state := SelfDestructRetry;
      } else {
        status := SecurityFailed;
        lock := false;
        Note(Report(SecurityFailed));
        ResetState();
      }
    }

    method HandleDestruct(e: Event)
      modifies this
      ensures old(state) == SelfDestruct || old(state) == SelfDestructRetry ==> Snapshot() == OnSelfDestruct(old(Snapshot()), e)
      ensures old(state) == TxSelfDestruct || old(state) == TxSelfDestructRetry ==> Snapshot() == OnTx(old(Snapshot()), e)
    {
      if state == SelfDestruct || state == SelfDestructRetry {
        if e.Timeout? { state := if state == SelfDestruct then TxSelfDestruct else TxSelfDestructRetry; }
      } else if e.TxDone? {
        AttemptRemoval(e.started);
      }
    }

    method AttemptRemoval(started: bool)
      modifies this
      ensures Snapshot() ==
        (var q := Log(old(Snapshot()).(state := if old(state) == TxSelfDestruct then Removal else RemovalRetry), Attempt);
         if started then q else OnNotRemoved(q))
    {
      state := if state == TxSelfDestruct then Removal else RemovalRetry;
      Note(Attempt);
      if !started { RemoveFailedFail(); }
    }

    method RemoveFailedOk()
      modifies this
      ensures Snapshot() == OnRemoved(old(Snapshot()))
    {
      Note(Removed);
      status := Failed;
      Note(Report(Failed));
      ResetState();
      lock := false;
    }

    method HandleRemoval(e: Event)
      modifies this
      ensures Snapshot() == OnRemoval(old(Snapshot()), e)
    {
      if e.RemoveOk? {
        RemoveFailedOk();
      } else if e.RemoveFail? {
        RemoveFailedFail();
      } else if e.Timeout? {
        lock := false;
        ResetState();
      }
    }

    method PostEvent(e: Event, late: bool)
      modifies this
      ensures Snapshot() == OnState(old(Snapshot()), e, late)
    {
      if Destruct(state) { PostDestructEvent(e, late); }
      else if After(state) { PostAfterEvent(e, late); }
      else { PostInclusionEvent(e, late); }
    }

    method PostDestructEvent(e: Event, late: bool)
      requires Destruct(state)
      modifies this
      ensures Snapshot() == OnState(old(Snapshot()), e, late)
    {
      if state == Removal || state == RemovalRetry { HandleRemoval(e); } else { HandleDestruct(e); }
    }

    method PostAfterEvent(e: Event, late: bool)
      requires After(state)
      modifies this
      ensures Snapshot() == OnState(old(Snapshot()), e, late)
    {
      HandleAfter(e, late);
    }

    method PostInclusionEvent(e: Event, late: bool)
      requires !Destruct(state) && !After(state)
      modifies this
      ensures Snapshot() == OnState(old(Snapshot()), e, late)
    {
      if state == Idle { HandleIdle(e, late); }
      else if state == WaitForProtocol { HandleProtocol(e, late); }
      else if state == ProxyWaitNif { HandleProxyNif(e, late); }
      else if state == PrepareSuc || state == WaitSuc { HandleHandOver(e); }
      else if state == SecureAdd { HandleSecureAdd(e); }
      else { HandleLooking(e, late); }
    }

    method SetUpdates(dhcp: bool, probed: bool, allHaveIp: bool, bridgeUp: bool)
      modifies `updates
      ensures updates == Updates(old(updates).dhcp || dhcp || allHaveIp, old(updates).probed || probed,
                                 old(updates).virtualNodes || bridgeUp, old(updates).disabled)
    {
      updates := updates.(dhcp := updates.dhcp || dhcp, probed := updates.probed || probed);
      if allHaveIp { updates := updates.(dhcp := true); }
      if bridgeUp { updates := updates.(virtualNodes := true); }
    }

    method NetworkUpdateStatus(dhcp: bool, probed: bool, allHaveIp: bool, bridgeUp: bool, late: bool)
      modifies this
      ensures Snapshot() == OnUpdate(old(Snapshot()), dhcp, probed, allHaveIp, bridgeUp, late)
    {
      SetUpdates(dhcp, probed, allHaveIp, bridgeUp);
      if updates == Updates(true, true, true, false) {
        Note(UpdateReply);
        if late { pending := pending + 1; } else { ResetState(); }
      }
    }

    // The client confirms an earlier reply.
    method ReplyDelivered()
      modifies this
      ensures Snapshot() == Step(old(Snapshot()), Delivered, false)
    {
      if pending > 0 {
        pending := pending - 1;
        ResetState();
      }
    }

    method Dispatch(e: Event, late: bool)
      modifies this
      ensures Snapshot() == Step(old(Snapshot()), e, late)
    {
      if e.Update? {
        NetworkUpdateStatus(e.dhcp, e.probed, e.allHaveIp, e.bridgeUp, late);
      } else if e.Delivered? {
        ReplyDelivered();
      } else {
        PostEvent(e, late);
      }
    }

    // Everything that can reach the machine, in any order. The lock stays where it will be given back
    // unless the input is the confirmation that overtakes an inclusion.
    method TakeInput(e: Event, late: bool)
      requires Valid()
      modifies this
      ensures Valid()
      ensures Snapshot() == Step(old(Snapshot()), e, late)
      ensures old(LockOk(Snapshot())) ==> (LockOk(Snapshot()) <==> !old(Overtaken(Snapshot(), e)))
    {
      StepIsLegal(Snapshot(), e, late);
      Dispatch(e, late);
    }
  }
}
