/** The generated statechart code (src-gen/Secure_learn.c) as the mutable record it is, with the
    driver around it (src/transport/security_layer.c). Each reaction performs the exit, arrow and
    entry actions one after the other; `Snapshot` is the value `SecureLearn.React` works on. */
module SecureLearnStatechart {
  import opened Common
  import opened SecureLearn

  // What every event leaves true of the machine.
  ghost predicate Disciplined(m: Machine) { TimerDiscipline(m) && WellLogged(m) }

  lemma {:induction false} StepKeepsDiscipline(m: Machine, e: Event)
    requires Disciplined(m)
    ensures Disciplined(Step(m, e))
  {
    StepKeepsTimerDiscipline(m, e);
    StepKeepsLog(m, e);
  }

  lemma {:induction false} CycleKeepsDiscipline(m: Machine)
    requires Disciplined(m)
    ensures Disciplined(SecureLearn.RunCycle(m))
  {
    CycleKeepsTimerDiscipline(m);
    CycleKeepsLog(m);
  }

  class Statechart {
    var state: State
    var position: nat
    var sig: Signals
    var isController: bool
    var node: int
    var scheme: int
    var netScheme: int
    var armed: Option<State>
    var log: seq<Entry>

    function Snapshot(): Machine
      reads this
    {
      Machine(state, sig, isController, node, scheme, netScheme, armed, log)
    }

    // The current state has its own timer armed or its timeout pending, and the log is a path of the
    // statechart that ends in the current state.
    ghost predicate Valid()
      reads this
    {
      Disciplined(Snapshot())
    }

    // secure_learn_init and secure_learn_enter.
    constructor ()
      ensures Valid() && Snapshot() == ENTERED
    {
      sig := QUIET;
      isController, node, scheme, netScheme := false, 0, 0, 0;
      armed, log := None, [In(Idle, 0)];
      state, position := Idle, 0;
    }

    // Default exit sequence of whichever state is active; secure_learn_exit is this and nothing more.
    method Exit()
      modifies this`state, this`position, this`armed
      ensures state == LastState
      ensures armed == if Timed(old(state)) then None else old(armed)
    {
      if Timed(state) { armed := None; }
      state, position := LastState, 0;
    }

    method ReactLearnStart()
      requires state == LearnStart
      modifies this
      ensures Snapshot() == React(old(Snapshot()))
    {
      if sig.schemeGet.Some? {
        Exit();
        node := sig.schemeGet.value;
        log := log + [Saw(SchemeGet, node, LearnStart)];
        armed := Some(LearnSchemeReport);
        log := log + [Did(SendSchemeReport, node, LearnSchemeReport), Did(SetInclusionKey, node, LearnSchemeReport),
                      Did(RegisterScheme(scheme), node, LearnSchemeReport), In(LearnSchemeReport, node)];
        state, position := LearnSchemeReport, 0;
      } else if LearnStart in sig.timeouts {
        Exit();
        log := log + [Saw(GaveUp, node, LearnStart)];
        if isController {
          scheme := 0;
          log := log + [In(LearnInsecureNet, node)];
          state, position := LearnInsecureNet, 0;
        } else {
          log := log + [In(LearnEnd, node)];
          state, position := LearnEnd, 0;
        }
      }
    }

    method ReactLearnSchemeReport()
      requires state == LearnSchemeReport
      modifies this
      ensures Snapshot() == React(old(Snapshot()))
    {
      if sig.keySet == Some(node) {
        Exit();
        log := log + [Saw(KeySet, node, LearnSchemeReport)];
        armed := Some(LearnNewKey);
        log := log + [Did(SendKeyVerify, node, LearnNewKey), In(LearnNewKey, node)];
        netScheme := scheme % 2;
        state, position := LearnNewKey, 0;
      } else if LearnSchemeReport in sig.timeouts || sig.txFail {
        Exit();
        log := log + [Saw(GaveUp, node, LearnSchemeReport)];
        FailLearn();
      } else if sig.txDone && scheme % 2 == 0 {
        Exit();
        log := log + [Saw(TxDone, node, LearnSchemeReport)];
        FailLearn();
      }
    }

    method FailLearn()
      modifies this`state, this`position, this`scheme, this`log
      ensures scheme == -1 && log == old(log) + [In(LearnFail, node)] && state == LearnFail
    {
      scheme := -1;
      log := log + [In(LearnFail, node)];
      state, position := LearnFail, 0;
    }

    method FailInclusion()
      modifies this`state, this`position, this`scheme, this`log
      ensures scheme == -1 && state == InclFail
      ensures log == old(log) + [Did(RegisterScheme(0), node, InclFail), In(InclFail, node)]
    {
      scheme := -1;
      log := log + [Did(RegisterScheme(0), node, InclFail), In(InclFail, node)];
      state, position := InclFail, 0;
    }

    method ReactLearnNewKey()
      requires state == LearnNewKey
      modifies this
      ensures Snapshot() == React(old(Snapshot()))
    {
      if sig.txDone && !isController {
        Exit();
        log := log + [Saw(TxDone, node, LearnNewKey)];
        log := log + [In(LearnEnd, node)];
        state, position := LearnEnd, 0;
      } else if LearnNewKey in sig.timeouts || sig.txFail {
        Exit();
        log := log + [Saw(GaveUp, node, LearnNewKey)];
        FailLearn();
      } else if sig.schemeInherit == Some(node) && isController {
        TakeInherit();
      }
    }

    method TakeInherit()
      requires state == LearnNewKey && isController && sig.schemeInherit == Some(node)
      requires LearnNewKey !in sig.timeouts && !sig.txFail
      modifies this
      ensures Snapshot() == React(old(Snapshot()))
    {
      Exit();
      log := log + [Saw(SchemeInherit, node, LearnNewKey)];
      log := log + [Did(SendSchemeReport, node, LearnInherited), In(LearnInherited, node)];
      state, position := LearnInherited, 0;
    }

    method ReactLearnInherited()
      requires state == LearnInherited
      modifies this
      ensures Snapshot() == React(old(Snapshot()))
    {
      if sig.txDone {
        Exit();
        log := log + [Saw(TxDone, node, LearnInherited)];
        log := log + [In(LearnEnd, node)];
        state, position := LearnEnd, 0;
      } else if sig.txFail {
        Exit();
        log := log + [Saw(GaveUp, node, LearnInherited)];
        FailLearn();
      }
    }

    method ReactLearnEnd()
      requires state == LearnEnd
      modifies this
      ensures Snapshot() == React(old(Snapshot()))
    {
      Exit();
      netScheme := scheme;
      log := log + [Did(SaveState, node, LearnEnd)];
      log := log + [Did(ReportComplete(scheme), node, Complete), In(Complete, node)];
      state, position := Complete, 0;
    }

    method StartLearning()
      requires state == Idle && sig.learnRequest
      modifies this
      ensures Snapshot() == React(old(Snapshot()))
    {
      Exit();
      log := log + [Saw(LearnRequest, node, Idle)];
      armed := Some(LearnStart);
      netScheme := 0;
      log := log + [In(LearnStart, node)];
      state, position := LearnStart, 0;
    }

    method StartInclusion()
      requires state == Idle && !sig.learnRequest && sig.inclusionRequest.Some?
      modifies this
      ensures Snapshot() == React(old(Snapshot()))
    {
      Exit();
      node := sig.inclusionRequest.value;
      log := log + [Saw(InclusionRequest, node, Idle)];
      armed := Some(InclSchemeRequest);
      log := log + [Did(SendSchemeGet, node, InclSchemeRequest), In(InclSchemeRequest, node)];
      state, position := InclSchemeRequest, 0;
    }

    method ReactIdle()
      requires state == Idle
      modifies this
      ensures Snapshot() == React(old(Snapshot()))
    {
      if sig.learnRequest {
        StartLearning();
      } else if sig.inclusionRequest.Some? {
        StartInclusion();
      } else if sig.commandsRequest {
        Exit();
        log := log + [Saw(CommandsRequest, node, Idle)];
        log := log + [Did(SendCommandsSupported, node, SendReport), In(SendReport, node)];
        state, position := SendReport, 0;
      }
    }

    method ReactInclSchemeRequest()
      requires state == InclSchemeRequest
      modifies this
      ensures Snapshot() == React(old(Snapshot()))
    {
      if sig.schemeReport == Some(node) {
        Exit();
        if scheme % 2 > 0 {
          log := log + [Saw(SchemeReport(scheme), node, InclSchemeRequest),
                        Did(RegisterScheme(scheme), node, InclSchemeRequest)];
          armed := Some(InclSendKey);
          log := log + [Did(SendKey, node, InclSendKey), In(InclSendKey, node)];
          state, position := InclSendKey, 0;
        } else {
          log := log + [Saw(SchemeReport(scheme), node, InclSchemeRequest)];
          FailInclusion();
        }
      } else if InclSchemeRequest in sig.timeouts || sig.txFail {
        Exit();
        log := log + [Saw(GaveUp, node, InclSchemeRequest)];
        FailInclusion();
      }
    }

    method ReactInclSendKey()
      requires state == InclSendKey
      modifies this
      ensures Snapshot() == React(old(Snapshot()))
    {
      if sig.txFail || InclSendKey in sig.timeouts {
        Exit();
        log := log + [Saw(GaveUp, node, InclSendKey)];
        FailInclusion();
      } else if sig.txDone {
        Exit();
        log := log + [Saw(TxDone, node, InclSendKey)];
        armed := Some(InclWaitVerify);
        log := log + [Did(RestoreKey, node, InclWaitVerify), In(InclWaitVerify, node)];
        state, position := InclWaitVerify, 0;
      }
    }

    method TakeSecondReport()
      requires state == InclSendInherit && sig.schemeReport == Some(node)
      requires InclSendInherit !in sig.timeouts && !sig.txFail
      modifies this
      ensures Snapshot() == React(old(Snapshot()))
    {
      Exit();
      log := log + [Saw(SchemeReport(scheme), node, InclSendInherit),
                    Did(RegisterScheme(scheme), node, InclSendInherit)];
      if scheme % 2 > 0 {
        log := log + [In(InclEnd, node)];
        state, position := InclEnd, 0;
      } else {
        FailInclusion();
      }
    }

    method ReactInclSendInherit()
      requires state == InclSendInherit
      modifies this
      ensures Snapshot() == React(old(Snapshot()))
    {
      if InclSendInherit in sig.timeouts || sig.txFail {
        Exit();
        log := log + [Saw(GaveUp, node, InclSendInherit)];
        FailInclusion();
      } else if sig.schemeReport == Some(node) {
        TakeSecondReport();
      }
    }

    method ReactInclEnd()
      requires state == InclEnd
      modifies this
      ensures Snapshot() == React(old(Snapshot()))
    {
      Exit();
      assert log == log + [];
      log := log + [Did(ReportComplete(scheme), node, Complete), In(Complete, node)];
      state, position := Complete, 0;
    }

    method TakeVerify()
      requires state == InclWaitVerify && sig.keyVerify == Some(node)
      modifies this
      ensures Snapshot() == React(old(Snapshot()))
    {
      if isController { PassOnInherit(); } else { FinishVerified(); }
    }

    method PassOnInherit()
      requires state == InclWaitVerify && sig.keyVerify == Some(node) && isController
      modifies this
      ensures Snapshot() == React(old(Snapshot()))
    {
      Exit();
      log := log + [Saw(KeyVerify, node, InclWaitVerify)];
      armed := Some(InclSendInherit);
      log := log + [Did(SendSchemeInherit, node, InclSendInherit), In(InclSendInherit, node)];
      state, position := InclSendInherit, 0;
    }

    method FinishVerified()
      requires state == InclWaitVerify && sig.keyVerify == Some(node) && !isController
      modifies this
      ensures Snapshot() == React(old(Snapshot()))
    {
      Exit();
      log := log + [Saw(KeyVerify, node, InclWaitVerify), Did(RegisterScheme(scheme), node, InclWaitVerify)];
      log := log + [In(InclEnd, node)];
      state, position := InclEnd, 0;
    }

    method ReactInclWaitVerify()
      requires state == InclWaitVerify
      modifies this
      ensures Snapshot() == React(old(Snapshot()))
    {
      if sig.keyVerify == Some(node) {
        TakeVerify();
      } else if InclWaitVerify in sig.timeouts {
        Exit();
        log := log + [Saw(GaveUp, node, InclWaitVerify)];
        FailInclusion();
      }
    }

    method ReactSendReport()
      requires state == SendReport
      modifies this
      ensures Snapshot() == React(old(Snapshot()))
    {
      if sig.txDone || sig.txFail {
        Exit();
        log := log + [Saw(if sig.txDone then TxDone else GaveUp, node, SendReport)];
        log := log + [In(Idle, node)];
        state, position := Idle, 0;
      }
    }

    // The states whose only reaction is to move on.
    method ReactPassThrough(next: State)
      requires (state == LearnFail && next == LearnEnd) || (state == LearnInsecureNet && next == LearnEnd)
               || (state == InclFail && next == InclEnd) || (state == Complete && next == Idle)
      modifies this
      ensures Snapshot() == React(old(Snapshot()))
    {
      Exit();
      assert log == log + [];
      log := log + [In(next, node)];
      state, position := next, 0;
    }

    method ReactCurrent()
      modifies this
      ensures Snapshot() == React(old(Snapshot()))
    {
      match state
      case LearnStart => ReactLearnStart();
      case LearnSchemeReport => ReactLearnSchemeReport();
      case LearnFail => ReactPassThrough(LearnEnd);
      case LearnNewKey => ReactLearnNewKey();
      case LearnInherited => ReactLearnInherited();
      case LearnInsecureNet => ReactPassThrough(LearnEnd);
      case LearnEnd => ReactLearnEnd();
      case Idle => ReactIdle();
      case InclSchemeRequest => ReactInclSchemeRequest();
      case InclSendKey => ReactInclSendKey();
      case InclSendInherit => ReactInclSendInherit();
      case InclFail => ReactPassThrough(InclEnd);
      case InclEnd => ReactInclEnd();
      case InclWaitVerify => ReactInclWaitVerify();
      case Complete => ReactPassThrough(Idle);
      case SendReport => ReactSendReport();
      case Final =>
      case LastState =>
    }

    // The statechart has one orthogonal region, so the loop runs the current state's reaction once.
    method ReactRegions()
      modifies this
      ensures Snapshot() == React(old(Snapshot()))
    {
      position := 0;
      while position < 1
        invariant Snapshot() == if position > 0 then React(old(Snapshot())) else old(Snapshot())
        decreases 1 - position
      {
        ReactCurrent();
        position := 1;
      }
    }

    method ReactAndClear()
      modifies this
      ensures Snapshot() == SecureLearn.RunCycle(old(Snapshot()))
    {
      ReactRegions();
      sig := QUIET;
    }

    method RunCycle()
      requires Valid()
      modifies this
      ensures Valid()
      ensures Snapshot() == SecureLearn.RunCycle(old(Snapshot()))
    {
      CycleKeepsDiscipline(Snapshot());
      ReactAndClear();
    }

    // secure_poll: cycles until a cycle leaves the state unchanged.
    method SecurePoll()
      requires Valid()
      modifies this
      ensures Valid() && !Transient(state) && sig == QUIET
      ensures Snapshot() == Poll(old(Snapshot()))
    {
      ghost var start := Snapshot();
      var s: Option<State> := None;
      while s != Some(state)
        invariant Valid()
        invariant if s == Some(state) then Snapshot() == Poll(start) else Poll(Snapshot()) == Poll(start)
        decreases if s == Some(state) then 0 else 1, if sig == QUIET then 0 else 1, Rank(state)
      {
        s := Some(state);
        ghost var before := Snapshot();
        RunCycle();
        CycleDescends(before);
        QuietIdleStays(before);
      }
      PollSettles(start);
    }

    // The timer callback: the time event the timer was armed with is raised.
    method RaiseTimeEvent()
      requires Valid()
      modifies this
      ensures Valid()
      ensures Snapshot() == Step(old(Snapshot()), TimerFires)
    {
      StepKeepsDiscipline(Snapshot(), TimerFires);
      if armed.Some? {
        sig, armed := sig.(timeouts := sig.timeouts + {armed.value}), None;
      }
    }

    // The functions that raise an event of the interface or set one of its variables.
    method Raise(e: Event)
      requires Valid() && e != TimerFires && e != Cycle
      modifies this`sig, this`scheme, this`isController, this`netScheme
      ensures Valid()
      ensures Snapshot() == Step(old(Snapshot()), e)
    {
      StepKeepsDiscipline(Snapshot(), e);
      match e {
        case RaiseLearn => sig := sig.(learnRequest := true);
        case RaiseInclusion(n) => sig := sig.(inclusionRequest := Some(n));
        case RaiseCommands => sig := sig.(commandsRequest := true);
        case RaiseTxDone => sig := sig.(txDone := true);
        case RaiseTxFail => sig := sig.(txFail := true);
        case RaiseSchemeGet(n) => sig := sig.(schemeGet := Some(n));
        case RaiseSchemeInherit(n) => sig := sig.(schemeInherit := Some(n));
        case RaiseKeySet(n) => sig := sig.(keySet := Some(n));
        case RaiseSchemeReport(n) => sig := sig.(schemeReport := Some(n));
        case RaiseKeyVerify(n) => sig := sig.(keyVerify := Some(n));
        case SetScheme(x) => scheme := x;
        case SetController(c) => isController := c;
        case SetNetScheme(x) => netScheme := x;
      }
    }
  }
}
