/** The Security 0 bootstrapping statechart (src-gen/Secure_learn.c) together with the timer
    and polling glue that drives it (src/transport/security_layer.c).

    `RunCycle` is the reaction function the lemmas reason about; class `Statechart` is the
    generated code itself, field by field, and every method of it is tied to that function.
    The log records what an observer of the machine sees: which event a reaction consumed,
    which operation it called, and which state it entered. */
module SecureLearn {
  import opened Common

  datatype State =
    | LearnStart | LearnSchemeReport | LearnFail | LearnNewKey | LearnInherited
    | LearnInsecureNet | LearnEnd
    | Idle
    | InclSchemeRequest | InclSendKey | InclSendInherit | InclFail | InclEnd | InclWaitVerify
    | Complete | SendReport | Final | LastState

  // An event a reaction consumed. GaveUp is the "timeout or tx_fail" guard.
  datatype Seen =
    | LearnRequest | InclusionRequest | CommandsRequest | SchemeGet | SchemeReport(scheme: int)
    | KeySet | KeyVerify | SchemeInherit | TxDone | GaveUp

  // An operation the machine calls in its environment.
  datatype Call =
    | SendSchemeGet | SendSchemeReport | SendKey | SendKeyVerify | SendSchemeInherit
    | SendCommandsSupported | SetInclusionKey | RestoreKey | SaveState
    | RegisterScheme(scheme: int) | ReportComplete(scheme: int)

  // `at` is the state whose arrow or entry action made the entry.
  datatype Entry =
    | Saw(ev: Seen, node: int, at: State)
    | Did(call: Call, node: int, at: State)
    | In(state: State, node: int)

  // The raised flags with their values, and the raised time events (one per timed state).
  datatype Signals = Signals(
    learnRequest: bool, inclusionRequest: Option<int>, commandsRequest: bool,
    txDone: bool, txFail: bool,
    schemeGet: Option<int>, schemeInherit: Option<int>, keySet: Option<int>,
    schemeReport: Option<int>, keyVerify: Option<int>,
    timeouts: set<State>)

  const QUIET := Signals(false, None, false, false, false, None, None, None, None, None, {})

  // `armed` is the one hardware timer all states share, with the time event it will raise.
  datatype Machine = Machine(
    state: State, sig: Signals, isController: bool, node: int, scheme: int, netScheme: int,
    armed: Option<State>, log: seq<Entry>)

  predicate Timed(s: State) {
    s in {LearnStart, LearnSchemeReport, LearnNewKey,
          InclSchemeRequest, InclSendKey, InclSendInherit, InclWaitVerify}
  }

  // Bit 0 of a two's complement integer; -1 has it set.
  predicate Bit0(x: int) { x % 2 == 1 }

  // ---------------------------------------------------------------- reactions

  // The calls made on entering state `s`, and the entry itself.
  function ArrivalWord(m: Machine, s: State): seq<Entry> {
    var n := m.node;
    match s
    case LearnSchemeReport =>
      [Did(SendSchemeReport, n, s), Did(SetInclusionKey, n, s), Did(RegisterScheme(m.scheme), n, s), In(s, n)]
    case LearnNewKey => [Did(SendKeyVerify, n, s), In(s, n)]
    case LearnInherited => [Did(SendSchemeReport, n, s), In(s, n)]
    case InclSchemeRequest => [Did(SendSchemeGet, n, s), In(s, n)]
    case InclSendKey => [Did(SendKey, n, s), In(s, n)]
    case InclWaitVerify => [Did(RestoreKey, n, s), In(s, n)]
    case InclSendInherit => [Did(SendSchemeInherit, n, s), In(s, n)]
    case InclFail => [Did(RegisterScheme(0), n, s), In(s, n)]
    case Complete => [Did(ReportComplete(m.scheme), n, s), In(s, n)]
    case SendReport => [Did(SendCommandsSupported, n, s), In(s, n)]
    case _ => [In(s, n)]
  }

  // Entry of state `s`: its timer, its calls and its assignments.
  function Arrive(m: Machine, s: State): Machine {
    var m1 := m.(state := s, armed := if Timed(s) then Some(s) else m.armed, log := m.log + ArrivalWord(m, s));
    match s
    case LearnStart => m1.(netScheme := 0)
    case LearnNewKey => m1.(netScheme := m.scheme % 2)
    case LearnFail => m1.(scheme := -1)
    case LearnInsecureNet => m1.(scheme := 0)
    case InclFail => m1.(scheme := -1)
    case _ => m1
  }

  predicate Pending(m: Machine) { m.state in m.sig.timeouts }

  // What a reaction decides: to stay, or to take an arrow of the statechart. `word` is what the
  // arrow itself consumes and calls, before the target state is entered.
  datatype Move = Stay | Go(node: int, word: seq<Entry>, target: State)

  function On(m: Machine, ev: Seen, s: State): Move { Go(m.node, [Saw(ev, m.node, m.state)], s) }

  function OnRegister(m: Machine, ev: Seen, s: State): Move {
    Go(m.node, [Saw(ev, m.node, m.state), Did(RegisterScheme(m.scheme), m.node, m.state)], s)
  }

  function Decide(m: Machine): Move {
    var g := m.sig;
    match m.state
    case LearnStart =>
      if g.schemeGet.Some? then On(m.(node := g.schemeGet.value), SchemeGet, LearnSchemeReport)
      else if Pending(m) then On(m, GaveUp, if m.isController then LearnInsecureNet else LearnEnd)
      else Stay
    case LearnSchemeReport =>
      if g.keySet == Some(m.node) then On(m, KeySet, LearnNewKey)
      else if Pending(m) || g.txFail then On(m, GaveUp, LearnFail)
      else if g.txDone && !Bit0(m.scheme) then On(m, TxDone, LearnFail)
      else Stay
    case LearnFail => Go(m.node, [], LearnEnd)
    case LearnNewKey =>
      if g.txDone && !m.isController then On(m, TxDone, LearnEnd)
      else if Pending(m) || g.txFail then On(m, GaveUp, LearnFail)
      else if g.schemeInherit == Some(m.node) && m.isController then On(m, SchemeInherit, LearnInherited)
      else Stay
    case LearnInherited =>
      if g.txDone then On(m, TxDone, LearnEnd)
      else if g.txFail then On(m, GaveUp, LearnFail)
      else Stay
    case LearnInsecureNet => Go(m.node, [], LearnEnd)
    case LearnEnd => Go(m.node, [Did(SaveState, m.node, LearnEnd)], Complete)
    case Idle =>
      if g.learnRequest then On(m, LearnRequest, LearnStart)
      else if g.inclusionRequest.Some? then
        On(m.(node := g.inclusionRequest.value), InclusionRequest, InclSchemeRequest)
      else if g.commandsRequest then On(m, CommandsRequest, SendReport)
      else Stay
    case InclSchemeRequest =>
      if g.schemeReport == Some(m.node) then
        if Bit0(m.scheme) then OnRegister(m, SchemeReport(m.scheme), InclSendKey)
        else On(m, SchemeReport(m.scheme), InclFail)
      else if Pending(m) || g.txFail then On(m, GaveUp, InclFail)
      else Stay
    case InclSendKey =>
      if g.txFail || Pending(m) then On(m, GaveUp, InclFail)
      else if g.txDone then On(m, TxDone, InclWaitVerify)
      else Stay
    case InclSendInherit =>
      if Pending(m) || g.txFail then On(m, GaveUp, InclFail)
      else if g.schemeReport == Some(m.node) then
        OnRegister(m, SchemeReport(m.scheme), if Bit0(m.scheme) then InclEnd else InclFail)
      else Stay
    case InclFail => Go(m.node, [], InclEnd)
    case InclEnd => Go(m.node, [], Complete)
    case InclWaitVerify =>
      if g.keyVerify == Some(m.node) then
        if m.isController then On(m, KeyVerify, InclSendInherit)
        else OnRegister(m, KeyVerify, InclEnd)
      else if Pending(m) then On(m, GaveUp, InclFail)
      else Stay
    case Complete => Go(m.node, [], Idle)
    case SendReport =>
      if g.txDone then On(m, TxDone, Idle)
      else if g.txFail then On(m, GaveUp, Idle)
      else Stay
    case Final => Stay
    case LastState => Stay
  }

  // Exit of the current state, the assignments and calls of the arrow itself.
  function Depart(m: Machine, mv: Move): Machine
    requires mv.Go?
  {
    m.(armed := if Timed(m.state) then None else m.armed,
       node := mv.node,
       netScheme := if m.state == LearnEnd then m.scheme else m.netScheme,
       log := m.log + mv.word)
  }

  function React(m: Machine): Machine {
    var mv := Decide(m);
    if mv.Stay? then m else Arrive(Depart(m, mv), mv.target)
  }

  // One run-to-completion step. The input flags are cleared at the end, including any tx_fail
  // a refused send raised while the reaction was still running.
  function RunCycle(m: Machine): Machine { React(m).(sig := QUIET) }

  // What one cycle adds to the log.
  function CycleWord(m: Machine): seq<Entry> {
    var mv := Decide(m);
    if mv.Stay? then [] else mv.word + ArrivalWord(Depart(m, mv), mv.target)
  }

  lemma {:induction false} CycleLog(m: Machine)
    ensures RunCycle(m).log == m.log + CycleWord(m)
  {
    var mv := Decide(m);
    if mv.Go? { ConcatAssoc(m.log, mv.word, ArrivalWord(Depart(m, mv), mv.target)); }
  }

  // The position of each state on the way back to Idle.
  function Rank(s: State): nat {
    match s
    case Idle => 0 case Final => 0 case LastState => 0
    case Complete => 1 case SendReport => 1
    case LearnEnd => 2 case InclEnd => 2
    case LearnFail => 3 case LearnInsecureNet => 3 case InclFail => 3
    case LearnInherited => 4 case InclSendInherit => 4
    case LearnNewKey => 5 case InclWaitVerify => 5
    case LearnSchemeReport => 6 case InclSendKey => 6
    case LearnStart => 7 case InclSchemeRequest => 7
  }

  // secure_poll: cycles are run until one leaves the state unchanged.
  function Poll(m: Machine): Machine
    decreases if m.sig == QUIET then 0 else 1, Rank(m.state)
  {
    var m1 := RunCycle(m);
    if m1.state == m.state then m1 else Poll(m1)
  }

  // ---------------------------------------------------------------- runs

  datatype Event =
    | RaiseLearn | RaiseInclusion(node: int) | RaiseCommands | RaiseTxDone | RaiseTxFail
    | RaiseSchemeGet(from: int) | RaiseSchemeInherit(from: int) | RaiseKeySet(from: int)
    | RaiseSchemeReport(from: int) | RaiseKeyVerify(from: int)
    | TimerFires | SetScheme(scheme: int) | SetController(c: bool) | SetNetScheme(scheme: int)
    | Cycle

  function Step(m: Machine, e: Event): Machine {
    match e
    case RaiseLearn => m.(sig := m.sig.(learnRequest := true))
    case RaiseInclusion(n) => m.(sig := m.sig.(inclusionRequest := Some(n)))
    case RaiseCommands => m.(sig := m.sig.(commandsRequest := true))
    case RaiseTxDone => m.(sig := m.sig.(txDone := true))
    case RaiseTxFail => m.(sig := m.sig.(txFail := true))
    case RaiseSchemeGet(n) => m.(sig := m.sig.(schemeGet := Some(n)))
    case RaiseSchemeInherit(n) => m.(sig := m.sig.(schemeInherit := Some(n)))
    case RaiseKeySet(n) => m.(sig := m.sig.(keySet := Some(n)))
    case RaiseSchemeReport(n) => m.(sig := m.sig.(schemeReport := Some(n)))
    case RaiseKeyVerify(n) => m.(sig := m.sig.(keyVerify := Some(n)))
    case TimerFires =>
      if m.armed.None? then m
      else m.(armed := None, sig := m.sig.(timeouts := m.sig.timeouts + {m.armed.value}))
    case SetScheme(s) => m.(scheme := s)
    case SetController(c) => m.(isController := c)
    case SetNetScheme(s) => m.(netScheme := s)
    case Cycle => RunCycle(m)
  }

  function Run(m: Machine, es: seq<Event>): Machine {
    if es == [] then m else Step(Run(m, es[..|es| - 1]), es[|es| - 1])
  }

  // secure_learn_init followed by secure_learn_enter.
  const ENTERED := Machine(Idle, QUIET, false, 0, 0, 0, None, [In(Idle, 0)])

  // ---------------------------------------------------------------- timer discipline

  predicate TimerDiscipline(m: Machine) {
    if Timed(m.state) then
      || (m.armed == Some(m.state) && m.sig.timeouts == {})
      || (m.armed == None && m.sig.timeouts == {m.state})
    else m.armed == None && m.sig.timeouts == {}
  }

  lemma {:induction false} CycleKeepsTimerDiscipline(m: Machine)
    requires TimerDiscipline(m)
    ensures TimerDiscipline(RunCycle(m))
  {
  }

  lemma {:induction false} StepKeepsTimerDiscipline(m: Machine, e: Event)
    requires TimerDiscipline(m)
    ensures TimerDiscipline(Step(m, e))
  {
    if e == Cycle { CycleKeepsTimerDiscipline(m); }
  }

  lemma {:induction false} RunKeepsTimerDiscipline(es: seq<Event>)
    ensures TimerDiscipline(Run(ENTERED, es))
  {
    if es != [] {
      RunKeepsTimerDiscipline(es[..|es| - 1]);
      StepKeepsTimerDiscipline(Run(ENTERED, es[..|es| - 1]), es[|es| - 1]);
    }
  }

  // A raised timeout is never lost and never stale: the very next cycle acts on it.
  lemma {:induction false} TimeoutLeavesState(es: seq<Event>)
    requires Run(ENTERED, es).sig.timeouts != {}
    ensures var m := Run(ENTERED, es);
            && m.sig.timeouts == {m.state}
            && RunCycle(m).state != m.state
            && Rank(RunCycle(m).state) < Rank(m.state)
            && RunCycle(m).sig.timeouts == {}
  {
    RunKeepsTimerDiscipline(es);
    PendingLeaves(Run(ENTERED, es));
  }

  lemma {:induction false} PendingLeaves(m: Machine)
    requires TimerDiscipline(m) && m.sig.timeouts != {}
    ensures m.sig.timeouts == {m.state} && RunCycle(m).sig.timeouts == {}
    ensures RunCycle(m).state != m.state && Rank(RunCycle(m).state) < Rank(m.state)
  {
  }

  // ---------------------------------------------------------------- rank and polling

  lemma {:induction false} CycleDescends(m: Machine)
    ensures RunCycle(m).state == m.state || m.state == Idle || Rank(RunCycle(m).state) < Rank(m.state)
  {
  }

  lemma {:induction false} QuietIdleStays(m: Machine)
    ensures RunCycle(m).sig == QUIET
    ensures m.state == Idle && m.sig == QUIET ==> RunCycle(m).state == Idle
  {
  }

  predicate Transient(s: State) { s in {LearnFail, LearnInsecureNet, LearnEnd, InclFail, InclEnd, Complete} }

  // secure_poll never returns with a transient state standing and never leaves a flag raised.
  lemma {:induction false} PollSettles(m: Machine)
    ensures !Transient(Poll(m).state)
    ensures Poll(m).sig == QUIET
    decreases if m.sig == QUIET then 0 else 1, Rank(m.state)
  {
    var m1 := RunCycle(m);
    if m1.state != m.state { PollSettles(m1); }
  }

  // The untimed waiting state of the joiner is left by a transmit result and nothing else, so
  // a report whose refusal was wiped with the cycle's flags holds the session there for good.
  lemma {:induction false} InheritedOnlyLeavesOnTransmit(m: Machine, es: seq<Event>)
    requires m.state == LearnInherited
    requires !m.sig.txDone && !m.sig.txFail
    requires forall i :: 0 <= i < |es| ==> es[i] != RaiseTxDone && es[i] != RaiseTxFail
    ensures Run(m, es).state == LearnInherited
    ensures !Run(m, es).sig.txDone && !Run(m, es).sig.txFail
  {
    if es != [] { InheritedOnlyLeavesOnTransmit(m, es[..|es| - 1]); }
  }

  // ---------------------------------------------------------------- session grammar

  // The events a state may act on.
  predicate Awaits(s: State, ev: Seen) {
    match s
    case Idle => ev in {LearnRequest, InclusionRequest, CommandsRequest}
    case LearnStart => ev in {SchemeGet, GaveUp}
    case LearnSchemeReport => ev in {KeySet, GaveUp, TxDone}
    case LearnNewKey => ev in {TxDone, GaveUp, SchemeInherit}
    case LearnInherited => ev in {TxDone, GaveUp}
    case InclSchemeRequest => ev.SchemeReport? || ev == GaveUp
    case InclSendKey => ev in {GaveUp, TxDone}
    case InclWaitVerify => ev in {KeyVerify, GaveUp}
    case InclSendInherit => ev.SchemeReport? || ev == GaveUp
    case SendReport => ev in {TxDone, GaveUp}
    case _ => false
  }

  /** The arrows of the statechart, as a relation between neighbouring log entries: entry `b`
      may come directly after entry `a`. */
  predicate Follows(a: Entry, b: Entry) {
    match b
    case Saw(ev, n, at) =>
      a.In? && a.state == at && Awaits(at, ev) && (ev != SchemeGet && ev != InclusionRequest ==> a.node == n)
    case In(s, n) => a.node == n && Enters(a, s)
    case Did(SendSchemeGet, n, at) => at == InclSchemeRequest && a == Saw(InclusionRequest, n, Idle)
    case Did(SendSchemeReport, n, at) =>
      if at == LearnSchemeReport then a == Saw(SchemeGet, n, LearnStart) else at == LearnInherited && a == Saw(SchemeInherit, n, LearnNewKey)
    case Did(SetInclusionKey, n, at) => at == LearnSchemeReport && a == Did(SendSchemeReport, n, LearnSchemeReport)
    case Did(SendKeyVerify, n, at) => at == LearnNewKey && a == Saw(KeySet, n, LearnSchemeReport)
    case Did(SendKey, n, at) =>
      at == InclSendKey && a.Did? && a.call.RegisterScheme? && Bit0(a.call.scheme) && a.node == n && a.at == InclSchemeRequest
    case Did(RestoreKey, n, at) => at == InclWaitVerify && a == Saw(TxDone, n, InclSendKey)
    case Did(SendSchemeInherit, n, at) => at == InclSendInherit && a == Saw(KeyVerify, n, InclWaitVerify)
    case Did(SendCommandsSupported, n, at) => at == SendReport && a == Saw(CommandsRequest, n, Idle)
    case Did(SaveState, n, at) => at == LearnEnd && a == In(LearnEnd, n)
    case Did(ReportComplete(_), n, at) => at == Complete && (a == Did(SaveState, n, LearnEnd) || a == In(InclEnd, n))
    case Did(RegisterScheme(s), n, at) =>
      match at
      case LearnSchemeReport => a == Did(SetInclusionKey, n, at)
      case InclSchemeRequest => Bit0(s) && a == Saw(SchemeReport(s), n, at)
      case InclSendInherit => a == Saw(SchemeReport(s), n, at)
      case InclWaitVerify => a == Saw(KeyVerify, n, at)
      case InclFail =>
        && s == 0 && a.node == n
        && ((a.Saw? && a.ev == GaveUp && InSession(a.at) && !InLearnMode(a.at))
            || (a.Saw? && a.ev.SchemeReport? && !Bit0(a.ev.scheme) && a.at == InclSchemeRequest)
            || (a.Did? && a.call.RegisterScheme? && !Bit0(a.call.scheme) && a.at == InclSendInherit))
      case _ => false
  }

  // What may come directly before the entry of state `s`.
  predicate Enters(a: Entry, s: State) {
    match s
    case LearnStart => a.Saw? && a.ev == LearnRequest && a.at == Idle
    case LearnSchemeReport => a.Did? && a.call.RegisterScheme? && a.at == s
    case LearnNewKey => a.Did? && a.call == SendKeyVerify && a.at == s
    case LearnInherited => a.Did? && a.call == SendSchemeReport && a.at == s
    case LearnFail => a.Saw? && InLearnMode(a.at) && (a.ev == GaveUp || a.ev == TxDone)
    case LearnInsecureNet => a.Saw? && a.ev == GaveUp && a.at == LearnStart
    case LearnEnd => || (a.Saw? && a.ev == GaveUp && a.at == LearnStart)
                     || (a.Saw? && a.ev == TxDone && (a.at == LearnNewKey || a.at == LearnInherited))
                     || (a.In? && (a.state == LearnFail || a.state == LearnInsecureNet))
    case InclSchemeRequest => a.Did? && a.call == SendSchemeGet && a.at == s
    case InclSendKey => a.Did? && a.call == SendKey && a.at == s
    case InclWaitVerify => a.Did? && a.call == RestoreKey && a.at == s
    case InclSendInherit => a.Did? && a.call == SendSchemeInherit && a.at == s
    case InclFail => a.Did? && a.call == RegisterScheme(0) && a.at == s
    case InclEnd => || (a.Did? && a.call.RegisterScheme? && a.at == InclWaitVerify)
                    || (a.Did? && a.call.RegisterScheme? && a.at == InclSendInherit && Bit0(a.call.scheme))
                    || (a.In? && a.state == InclFail)
    case Complete => a.Did? && a.call.ReportComplete? && a.at == s
    case SendReport => a.Did? && a.call == SendCommandsSupported && a.at == s
    case Idle => (a.In? && a.state == Complete) || (a.Saw? && a.at == SendReport && !StartsSession(a))
    case Final => false
    case LastState => false
  }

  predicate IsPath(log: seq<Entry>) {
    && |log| > 0
    && log[0] == In(Idle, 0)
    && forall i :: 0 < i < |log| ==> Follows(log[i - 1], log[i])
  }

  predicate WellLogged(m: Machine) {
    IsPath(m.log) && m.log[|m.log| - 1] == In(m.state, m.node)
  }

  // Every run writes a path of the statechart whose last entry is the current state.
  lemma {:induction false} RunIsWellLogged(es: seq<Event>)
    ensures WellLogged(Run(ENTERED, es))
  {
    if es != [] {
      RunIsWellLogged(es[..|es| - 1]);
      StepKeepsLog(Run(ENTERED, es[..|es| - 1]), es[|es| - 1]);
    }
  }

  lemma {:induction false} StepKeepsLog(m: Machine, e: Event)
    requires WellLogged(m)
    ensures WellLogged(Step(m, e))
  {
    if e == Cycle { CycleKeepsLog(m); }
  }

  lemma {:induction false} CycleKeepsLog(m: Machine)
    requires WellLogged(m)
    ensures WellLogged(RunCycle(m))
  {
    ReactKeepsLog(m);
  }

  lemma {:induction false} PathExtends(log: seq<Entry>, w: seq<Entry>)
    requires IsPath(log) && w != []
    requires Follows(log[|log| - 1], w[0])
    requires forall i :: 0 < i < |w| ==> Follows(w[i - 1], w[i])
    ensures IsPath(log + w)
    ensures (log + w)[|log + w| - 1] == w[|w| - 1]
  {
  }

  lemma {:induction false} ArriveKeepsLog(m: Machine, s: State)
    requires IsPath(m.log)
    requires Follows(m.log[|m.log| - 1], ArrivalWord(m, s)[0])
    ensures WellLogged(Arrive(m, s))
  {
    PathExtends(m.log, ArrivalWord(m, s));
  }

  // The word of move `mv` of machine `m` may follow the entry of its state.
  predicate WordLegal(m: Machine, mv: Move)
    requires mv.Go?
  {
    var w := mv.word;
    w == [] || (Follows(In(m.state, m.node), w[0]) && (|w| == 1 || (|w| == 2 && Follows(w[0], w[1]))))
  }

  // The entry of the target state may follow the word.
  predicate ArrivalLegal(m: Machine, mv: Move)
    requires mv.Go?
  {
    Follows(if mv.word == [] then In(m.state, m.node) else mv.word[|mv.word| - 1],
            ArrivalWord(Depart(m, mv), mv.target)[0])
  }

  predicate InLearnMode(s: State) {
    s in {LearnStart, LearnSchemeReport, LearnFail, LearnNewKey, LearnInherited, LearnInsecureNet, LearnEnd}
  }

  lemma {:induction false} DecisionWordIsLegal(m: Machine)
    requires Decide(m).Go?
    ensures WordLegal(m, Decide(m))
  {
  }

  lemma {:induction false} JoinArrivalIsLegal(m: Machine)
    requires m.state in {LearnStart, LearnSchemeReport} && Decide(m).Go?
    ensures ArrivalLegal(m, Decide(m))
  {
  }

  lemma {:induction false} NewKeyArrivalIsLegal(m: Machine)
    requires m.state == LearnNewKey && Decide(m).Go?
    ensures ArrivalLegal(m, Decide(m))
  {
  }

  lemma {:induction false} JoinedArrivalIsLegal(m: Machine)
    requires m.state in {LearnFail, LearnInherited, LearnInsecureNet, LearnEnd} && Decide(m).Go?
    ensures ArrivalLegal(m, Decide(m))
  {
  }

  lemma {:induction false} LearnArrivalIsLegal(m: Machine)
    requires InLearnMode(m.state) && Decide(m).Go?
    ensures ArrivalLegal(m, Decide(m))
  {
    if m.state == LearnStart || m.state == LearnSchemeReport { JoinArrivalIsLegal(m); }
    else if m.state == LearnNewKey { NewKeyArrivalIsLegal(m); }
    else { JoinedArrivalIsLegal(m); }
  }

  lemma {:induction false} ReportedArrivalIsLegal(m: Machine)
    requires m.state == InclSchemeRequest && m.sig.schemeReport == Some(m.node)
    ensures Decide(m).Go? && ArrivalLegal(m, Decide(m))
  {
    if Bit0(m.scheme) {
      assert Decide(m) == OnRegister(m, SchemeReport(m.scheme), InclSendKey);
    } else {
      assert Decide(m) == On(m, SchemeReport(m.scheme), InclFail);
    }
  }

  lemma {:induction false} UnreportedArrivalIsLegal(m: Machine)
    requires m.state == InclSchemeRequest && m.sig.schemeReport != Some(m.node) && Decide(m).Go?
    ensures ArrivalLegal(m, Decide(m))
  {
    assert Decide(m) == On(m, GaveUp, InclFail);
  }

  lemma {:induction false} SchemeArrivalIsLegal(m: Machine)
    requires m.state == InclSchemeRequest && Decide(m).Go?
    ensures ArrivalLegal(m, Decide(m))
  {
    if m.sig.schemeReport == Some(m.node) { ReportedArrivalIsLegal(m); } else { UnreportedArrivalIsLegal(m); }
  }

  lemma {:induction false} InheritArrivalIsLegal(m: Machine)
    requires m.state == InclSendInherit && Decide(m).Go?
    ensures ArrivalLegal(m, Decide(m))
  {
    if Pending(m) || m.sig.txFail {
      assert Decide(m) == On(m, GaveUp, InclFail);
    } else {
      assert Decide(m) == OnRegister(m, SchemeReport(m.scheme), if Bit0(m.scheme) then InclEnd else InclFail);
    }
  }

  lemma {:induction false} KeyArrivalIsLegal(m: Machine)
    requires m.state == InclSendKey && Decide(m).Go?
    ensures ArrivalLegal(m, Decide(m))
  {
    if m.sig.txFail || Pending(m) {
      assert Decide(m) == On(m, GaveUp, InclFail);
    } else {
      assert Decide(m) == On(m, TxDone, InclWaitVerify);
    }
  }

  lemma {:induction false} VerifiedArrivalIsLegal(m: Machine)
    requires m.state == InclWaitVerify && m.sig.keyVerify == Some(m.node)
    ensures Decide(m).Go? && ArrivalLegal(m, Decide(m))
  {
    if m.isController {
      assert Decide(m) == On(m, KeyVerify, InclSendInherit);
    } else {
      assert Decide(m) == OnRegister(m, KeyVerify, InclEnd);
    }
  }

  lemma {:induction false} UnverifiedArrivalIsLegal(m: Machine)
    requires m.state == InclWaitVerify && m.sig.keyVerify != Some(m.node) && Decide(m).Go?
    ensures ArrivalLegal(m, Decide(m))
  {
    assert Decide(m) == On(m, GaveUp, InclFail);
  }

  lemma {:induction false} VerifyArrivalIsLegal(m: Machine)
    requires m.state == InclWaitVerify && Decide(m).Go?
    ensures ArrivalLegal(m, Decide(m))
  {
    if m.sig.keyVerify == Some(m.node) { VerifiedArrivalIsLegal(m); } else { UnverifiedArrivalIsLegal(m); }
  }

  lemma {:induction false} EndArrivalIsLegal(m: Machine)
    requires m.state in {InclFail, InclEnd, Complete, SendReport} && Decide(m).Go?
    ensures ArrivalLegal(m, Decide(m))
  {
  }

  lemma {:induction false} IdleArrivalIsLegal(m: Machine)
    requires m.state == Idle && Decide(m).Go?
    ensures ArrivalLegal(m, Decide(m))
  {
  }

  lemma {:induction false} ReactKeepsLog(m: Machine)
    requires WellLogged(m)
    ensures WellLogged(React(m))
  {
    var mv := Decide(m);
    if mv.Go? {
      DecisionWordIsLegal(m);
      if InLearnMode(m.state) { LearnArrivalIsLegal(m); }
      else if m.state == InclSchemeRequest { SchemeArrivalIsLegal(m); }
      else if m.state == InclSendInherit { InheritArrivalIsLegal(m); }
      else if m.state == InclSendKey { KeyArrivalIsLegal(m); }
      else if m.state == InclWaitVerify { VerifyArrivalIsLegal(m); }
      else if m.state == Idle { IdleArrivalIsLegal(m); }
      else { EndArrivalIsLegal(m); }
      MoveKeepsLog(m, mv);
    }
  }

  lemma {:induction false} MoveKeepsLog(m: Machine, mv: Move)
    requires WellLogged(m) && mv.Go? && WordLegal(m, mv) && ArrivalLegal(m, mv)
    ensures WellLogged(Arrive(Depart(m, mv), mv.target))
  {
    var mid := Depart(m, mv);
    if mv.word == [] { assert mid.log == m.log; } else { PathExtends(m.log, mv.word); }
    ArriveKeepsLog(mid, mv.target);
  }

  // ---------------------------------------------------------------- what a session guarantees

  // The network key is sent to a node only right after that node's scheme report, with bit 0
  // set, answered the scheme get of this very session.
  lemma {:induction false} KeyOnlyAfterReport(log: seq<Entry>, i: int)
    requires IsPath(log) && 0 <= i < |log|
    requires log[i].Did? && log[i].call == SendKey
    ensures var n := log[i].node;
            && i >= 5
            && log[i - 1].Did? && log[i - 1].call.RegisterScheme? && Bit0(log[i - 1].call.scheme)
            && log[i - 5..i] == [Saw(InclusionRequest, n, Idle), Did(SendSchemeGet, n, InclSchemeRequest),
                                 In(InclSchemeRequest, n),
                                 Saw(SchemeReport(log[i - 1].call.scheme), n, InclSchemeRequest),
                                 Did(log[i - 1].call, n, InclSchemeRequest)]
  {
    assert Follows(log[i - 1], log[i]);
    assert Follows(log[i - 2], log[i - 1]);
    assert Follows(log[i - 3], log[i - 2]);
    assert Follows(log[i - 4], log[i - 3]);
    assert Follows(log[i - 5], log[i - 4]);
  }

  // The inherit command is sent only after the key went out, the old key was restored and the
  // same node verified the new key.
  lemma {:induction false} InheritOnlyAfterVerify(log: seq<Entry>, i: int)
    requires IsPath(log) && 0 <= i < |log|
    requires log[i].Did? && log[i].call == SendSchemeInherit
    ensures var n := log[i].node;
            && i >= 6
            && log[i - 6..i] == [Did(SendKey, n, InclSendKey), In(InclSendKey, n), Saw(TxDone, n, InclSendKey),
                                 Did(RestoreKey, n, InclWaitVerify), In(InclWaitVerify, n),
                                 Saw(KeyVerify, n, InclWaitVerify)]
  {
    assert Follows(log[i - 1], log[i]);
    assert Follows(log[i - 2], log[i - 1]);
    assert Follows(log[i - 3], log[i - 2]);
    assert Follows(log[i - 4], log[i - 3]);
    assert Follows(log[i - 5], log[i - 4]);
    assert Follows(log[i - 6], log[i - 5]);
  }

  // The joiner verifies a key only towards the node whose scheme get it answered, after that
  // node set a key while the inclusion key was in force.
  lemma {:induction false} KeyVerifyOnlyAfterKeySet(log: seq<Entry>, i: int)
    requires IsPath(log) && 0 <= i < |log|
    requires log[i].Did? && log[i].call == SendKeyVerify
    ensures var n := log[i].node;
            && i >= 6
            && log[i - 3].Did? && log[i - 3].call.RegisterScheme?
            && log[i - 6..i] == [Saw(SchemeGet, n, LearnStart), Did(SendSchemeReport, n, LearnSchemeReport),
                                 Did(SetInclusionKey, n, LearnSchemeReport),
                                 Did(log[i - 3].call, n, LearnSchemeReport),
                                 In(LearnSchemeReport, n), Saw(KeySet, n, LearnSchemeReport)]
  {
    assert Follows(log[i - 1], log[i]);
    assert Follows(log[i - 2], log[i - 1]);
    assert Follows(log[i - 3], log[i - 2]);
    assert Follows(log[i - 4], log[i - 3]);
    assert Follows(log[i - 5], log[i - 4]);
    assert Follows(log[i - 6], log[i - 5]);
  }

  // How an inclusion can end: through Fail with scheme 0 registered, or with the scheme
  // registered that was current when the last message from the node was consumed.
  lemma {:induction false} InclusionOutcome(log: seq<Entry>, i: int)
    requires IsPath(log) && 0 <= i < |log|
    requires log[i].In? && log[i].state == InclEnd
    ensures var n := log[i].node;
            && i >= 2
            && (|| (log[i - 1] == In(InclFail, n) && log[i - 2] == Did(RegisterScheme(0), n, InclFail))
                || (&& log[i - 1].Did? && log[i - 1].call.RegisterScheme?
                    && (|| log[i - 2..i] == [Saw(KeyVerify, n, InclWaitVerify), Did(log[i - 1].call, n, InclWaitVerify)]
                        || (&& Bit0(log[i - 1].call.scheme)
                            && log[i - 2..i] == [Saw(SchemeReport(log[i - 1].call.scheme), n, InclSendInherit),
                                                 Did(log[i - 1].call, n, InclSendInherit)]))))
  {
    assert Follows(log[i - 1], log[i]);
    assert Follows(log[i - 2], log[i - 1]);
  }

  // ---------------------------------------------------------------- one completion per session

  predicate StartsSession(e: Entry) { e.Saw? && (e.ev == LearnRequest || e.ev == InclusionRequest) }
  predicate EndsSession(e: Entry) { e.Did? && e.call.ReportComplete? }

  // Whether a session is running after `log`: started, and completion not yet reported.
  function Open(log: seq<Entry>): bool {
    if log == [] then false
    else var e := log[|log| - 1];
      if StartsSession(e) then true else if EndsSession(e) then false else Open(log[..|log| - 1])
  }

  predicate InSession(s: State) {
    InLearnMode(s)
    || s in {InclSchemeRequest, InclSendKey, InclSendInherit, InclFail, InclEnd, InclWaitVerify}
  }

  predicate Busy(e: Entry) {
    match e
    case In(s, _) => InSession(s)
    case Saw(ev, _, at) => StartsSession(e) || InSession(at)
    case Did(call, _, at) => InSession(at)
  }

  lemma {:induction false} OpenIsBusy(log: seq<Entry>)
    requires IsPath(log)
    ensures Open(log) == Busy(log[|log| - 1])
  {
    var k := |log| - 1;
    if k > 0 {
      assert log[..k][|log[..k]| - 1] == log[k - 1];
      OpenIsBusy(log[..k]);
      assert Follows(log[k - 1], log[k]);
    } else {
      assert log[..0] == [];
    }
  }

  // Sessions never overlap, completion is reported only inside one and only once, and Idle is
  // reached only with the session's completion already reported.
  lemma {:induction false} SessionsAlternate(log: seq<Entry>, i: int)
    requires IsPath(log) && 0 < i < |log|
    ensures StartsSession(log[i]) ==> !Open(log[..i])
    ensures EndsSession(log[i]) ==> Open(log[..i])
    ensures log[i].In? && log[i].state == Idle ==> !Open(log[..i])
  {
    assert log[..i][|log[..i]| - 1] == log[i - 1];
    OpenIsBusy(log[..i]);
    assert Follows(log[i - 1], log[i]);
  }

  // ---------------------------------------------------------------- registered scheme

  // security_layer.c only ever sets a scheme with bit 0 forced on.
  predicate SetsOddSchemes(es: seq<Event>) {
    forall i :: 0 <= i < |es| && es[i].SetScheme? ==> Bit0(es[i].scheme)
  }

  predicate OddRegistrations(log: seq<Entry>) {
    forall i :: 0 <= i < |log| && log[i].Did? && log[i].call.RegisterScheme? && log[i].at == InclWaitVerify
      ==> Bit0(log[i].call.scheme)
  }

  predicate KeyedIsOdd(m: Machine) {
    && (m.state in {InclSendKey, InclWaitVerify, InclSendInherit} ==> Bit0(m.scheme))
    && OddRegistrations(m.log)
  }

  lemma {:induction false} CycleKeepsKeyedOdd(m: Machine)
    requires KeyedIsOdd(m)
    ensures KeyedIsOdd(RunCycle(m))
  {
    CycleLog(m);
    if Decide(m).Go? {
      MoveWordOdd(m);
      ArrivalWordOdd(Depart(m, Decide(m)), Decide(m).target);
      KeyedStateOdd(m);
    }
  }

  lemma {:induction false} MoveWordOdd(m: Machine)
    requires Decide(m).Go? && (m.state == InclWaitVerify ==> Bit0(m.scheme))
    ensures OddRegistrations(Decide(m).word)
  {
  }

  lemma {:induction false} ArrivalWordOdd(m: Machine, s: State)
    ensures OddRegistrations(ArrivalWord(m, s))
  {
  }

  lemma {:induction false} KeyedStateOdd(m: Machine)
    requires m.state in {InclSendKey, InclWaitVerify, InclSendInherit} ==> Bit0(m.scheme)
    ensures RunCycle(m).state in {InclSendKey, InclWaitVerify, InclSendInherit} ==> Bit0(RunCycle(m).scheme)
  {
  }

  lemma {:induction false} RunKeepsKeyedOdd(es: seq<Event>)
    requires SetsOddSchemes(es)
    ensures KeyedIsOdd(Run(ENTERED, es))
  {
    if es != [] {
      var m, e := Run(ENTERED, es[..|es| - 1]), es[|es| - 1];
      RunKeepsKeyedOdd(es[..|es| - 1]);
      if e == Cycle { CycleKeepsKeyedOdd(m); } else { assert KeyedIsOdd(Step(m, e)); }
    }
  }

  // The last scheme registered for any node in a log.
  function LastRegistered(log: seq<Entry>): Option<int> {
    if log == [] then None
    else var e := log[|log| - 1];
      if e.Did? && e.call.RegisterScheme? then Some(e.call.scheme) else LastRegistered(log[..|log| - 1])
  }

  lemma {:induction false} ZeroIffFailedInLog(log: seq<Entry>, i: int)
    requires IsPath(log) && OddRegistrations(log)
    requires 0 <= i < |log| && log[i].In? && log[i].state == InclEnd
    ensures i > 0 && (LastRegistered(log[..i]) == Some(0) <==> log[i - 1] == In(InclFail, log[i].node))
  {
    InclusionOutcome(log, i);
    var before := log[..i];
    assert before[|before| - 1] == log[i - 1];
    if log[i - 1].In? {
      var earlier := before[..i - 1];
      assert earlier[|earlier| - 1] == log[i - 2];
    }
  }

  predicate EndsInclusion(e: Entry) { e.In? && e.state == InclEnd }

  // An inclusion ends with scheme 0 registered if and only if it went through Fail.
  lemma {:induction false} ZeroRegisteredIffFailed(es: seq<Event>, i: int)
    requires SetsOddSchemes(es)
    requires 0 <= i < |Run(ENTERED, es).log| && EndsInclusion(Run(ENTERED, es).log[i])
    ensures var log := Run(ENTERED, es).log;
            i > 0 && (LastRegistered(log[..i]) == Some(0) <==> log[i - 1] == In(InclFail, log[i].node))
  {
    RunIsWellLogged(es);
    RunKeepsKeyedOdd(es);
    ZeroIffFailedInLog(Run(ENTERED, es).log, i);
  }

  // The scheme registered by a verify, when it is 0.
  predicate ZeroAtVerify(e: Entry) { e.Did? && e.call == RegisterScheme(0) && e.at == InclWaitVerify }

  predicate HasZero(log: seq<Entry>) { exists k :: 0 <= k < |log| && ZeroAtVerify(log[k]) }

  // Every inclusion that ends in the log ends with scheme 0 registered if and only if it went through Fail.
  predicate ZeroMeansFailed(log: seq<Entry>) {
    forall i :: 0 < i < |log| && EndsInclusion(log[i]) ==>
      (LastRegistered(log[..i]) == Some(0) <==> log[i - 1] == In(InclFail, log[i].node))
  }

  // The verify's registration is followed by the end of the inclusion.
  lemma {:induction false} VerifyThenEnd(log: seq<Entry>, k: int)
    requires IsPath(log) && 0 <= k < |log| - 1 && ZeroAtVerify(log[k])
    ensures log[k + 1] == In(InclEnd, log[k].node)
  {
    assert Follows(log[k + 1 - 1], log[k + 1]);
  }

  lemma {:induction false} EndIsRight(log: seq<Entry>, i: int)
    requires IsPath(log) && 0 < i < |log| && EndsInclusion(log[i])
    ensures (LastRegistered(log[..i]) == Some(0) <==> log[i - 1] == In(InclFail, log[i].node)) <==> !ZeroAtVerify(log[i - 1])
  {
    InclusionOutcome(log, i);
    var before := log[..i];
    assert before[|before| - 1] == log[i - 1];
    if log[i - 1].In? {
      var earlier := before[..i - 1];
      assert earlier[|earlier| - 1] == log[i - 2];
    }
  }

  lemma {:induction false} ZeroMeansFailedIff(log: seq<Entry>)
    requires IsPath(log) && log[|log| - 1].In?
    ensures ZeroMeansFailed(log) <==> !HasZero(log)
  {
    forall i | 0 < i < |log| && EndsInclusion(log[i])
      ensures (LastRegistered(log[..i]) == Some(0) <==> log[i - 1] == In(InclFail, log[i].node)) <==> !ZeroAtVerify(log[i - 1])
    {
      EndIsRight(log, i);
    }
    forall k | 0 <= k < |log| && ZeroAtVerify(log[k]) ensures !ZeroMeansFailed(log) {
      VerifyThenEnd(log, k);
      EndIsRight(log, k + 1);
    }
  }

  // A gateway that is no controller takes the verify while the scheme is 0.
  predicate VerifiesAtZero(m: Machine, e: Event) {
    e == Cycle && m.state == InclWaitVerify && m.sig.keyVerify == Some(m.node) && !m.isController && m.scheme == 0
  }

  lemma {:induction false} ArrivalHasNoVerify(m: Machine, s: State)
    ensures !HasZero(ArrivalWord(m, s))
  {
  }

  lemma {:induction false} DecisionVerifiesIff(m: Machine)
    requires Decide(m).Go?
    ensures HasZero(Decide(m).word) <==> VerifiesAtZero(m, Cycle)
  {
    if VerifiesAtZero(m, Cycle) { assert ZeroAtVerify(Decide(m).word[1]); }
  }

  lemma {:induction false} HasZeroSum(a: seq<Entry>, b: seq<Entry>)
    ensures HasZero(a + b) <==> HasZero(a) || HasZero(b)
  {
    forall k | 0 <= k < |a + b| && ZeroAtVerify((a + b)[k]) ensures HasZero(a) || HasZero(b) {
      if k < |a| { assert ZeroAtVerify(a[k]); } else { assert ZeroAtVerify(b[k - |a|]); }
    }
    forall k | 0 <= k < |a| && ZeroAtVerify(a[k]) ensures HasZero(a + b) { assert (a + b)[k] == a[k]; }
    forall k | 0 <= k < |b| && ZeroAtVerify(b[k]) ensures HasZero(a + b) { assert (a + b)[|a| + k] == b[k]; }
  }

  lemma {:induction false} StepHasZeroIff(m: Machine, e: Event)
    ensures HasZero(Step(m, e).log) <==> HasZero(m.log) || VerifiesAtZero(m, e)
  {
    if e == Cycle {
      var mv := Decide(m);
      CycleLog(m);
      HasZeroSum(m.log, CycleWord(m));
      if mv.Go? {
        HasZeroSum(mv.word, ArrivalWord(Depart(m, mv), mv.target));
        ArrivalHasNoVerify(Depart(m, mv), mv.target);
        DecisionVerifiesIff(m);
      }
    }
  }

  // No event of the run is such a verify.
  predicate NeverVerifiesAtZero(es: seq<Event>) {
    es == [] || (NeverVerifiesAtZero(es[..|es| - 1]) && !VerifiesAtZero(Run(ENTERED, es[..|es| - 1]), es[|es| - 1]))
  }

  lemma {:induction false} RunHasZeroIff(es: seq<Event>)
    ensures HasZero(Run(ENTERED, es).log) <==> !NeverVerifiesAtZero(es)
  {
    if es != [] {
      RunHasZeroIff(es[..|es| - 1]);
      StepHasZeroIff(Run(ENTERED, es[..|es| - 1]), es[|es| - 1]);
    }
  }

  /** Every run, whatever schemes its caller sets: the inclusions in it end with scheme 0 registered exactly
      when they went through Fail, if and only if no verify is taken by a gateway that is no controller
      while the scheme is 0. */
  lemma {:induction false} ZeroMeansFailedRunIff(es: seq<Event>)
    ensures ZeroMeansFailed(Run(ENTERED, es).log) <==> NeverVerifiesAtZero(es)
  {
    RunIsWellLogged(es);
    RunHasZeroIff(es);
    ZeroMeansFailedIff(Run(ENTERED, es).log);
  }

  // Node `n` is being included by a gateway that is no controller, and nothing is raised.
  predicate Including(m: Machine, s: State, n: int) {
    m.state == s && m.sig == QUIET && m.node == n && !m.isController
  }

  lemma {:induction false} InclusionAsks(m: Machine, n: int)
    requires m.state == Idle && m.sig == QUIET && !m.isController
    ensures Including(Step(Step(m, RaiseInclusion(n)), Cycle), InclSchemeRequest, n)
  {
  }

  lemma {:induction false} ReportSendsKey(m: Machine, n: int)
    requires Including(m, InclSchemeRequest, n)
    ensures Including(Step(Step(Step(m, SetScheme(1)), RaiseSchemeReport(n)), Cycle), InclSendKey, n)
  {
  }

  lemma {:induction false} SentKeyWaits(m: Machine, n: int)
    requires Including(m, InclSendKey, n)
    ensures Including(Step(Step(m, RaiseTxDone), Cycle), InclWaitVerify, n)
  {
  }

  lemma {:induction false} VerifyRegistersCurrent(m: Machine, n: int, scheme: int)
    requires Including(m, InclWaitVerify, n)
    ensures var m' := Step(Step(Step(m, SetScheme(scheme)), RaiseKeyVerify(n)), Cycle);
            && m'.state == InclEnd
            && m'.log == m.log + [Saw(KeyVerify, n, InclWaitVerify),
                                  Did(RegisterScheme(scheme), n, InclWaitVerify), In(InclEnd, n)]
  {
    CycleLog(Step(Step(m, SetScheme(scheme)), RaiseKeyVerify(n)));
  }

  // An inclusion of node `n` up to where it waits for the node to verify its key.
  function UpToVerify(n: int): seq<Event> {
    [RaiseInclusion(n), Cycle] + [SetScheme(1), RaiseSchemeReport(n), Cycle] + [RaiseTxDone, Cycle]
  }

  lemma {:induction false} WaitsForVerify(n: int)
    ensures Including(Run(ENTERED, UpToVerify(n)), InclWaitVerify, n)
  {
    var asked, answered := [RaiseInclusion(n), Cycle], [SetScheme(1), RaiseSchemeReport(n), Cycle];
    InclusionAsks(ENTERED, n);
    RunTwo(ENTERED, RaiseInclusion(n), Cycle);
    var m1 := Run(ENTERED, asked);
    ReportSendsKey(m1, n);
    RunThree(m1, SetScheme(1), RaiseSchemeReport(n), Cycle);
    var m2 := Run(m1, answered);
    SentKeyWaits(m2, n);
    RunTwo(m2, RaiseTxDone, Cycle);
    RunThen(ENTERED, asked, answered);
    RunThen(ENTERED, asked + answered, [RaiseTxDone, Cycle]);
  }

  // Without that guarantee from its caller the statechart registers 0 on a session that never failed.
  lemma {:induction false} ZeroRegisteredWithoutFailing(n: int)
    ensures var m := Run(ENTERED, UpToVerify(n));
            var m' := Run(ENTERED, UpToVerify(n) + [SetScheme(0), RaiseKeyVerify(n), Cycle]);
            && m'.state == InclEnd
            && m'.log == m.log + [Saw(KeyVerify, n, InclWaitVerify),
                                  Did(RegisterScheme(0), n, InclWaitVerify), In(InclEnd, n)]
  {
    var m := Run(ENTERED, UpToVerify(n));
    WaitsForVerify(n);
    VerifyRegistersCurrent(m, n, 0);
    RunThree(m, SetScheme(0), RaiseKeyVerify(n), Cycle);
    RunThen(ENTERED, UpToVerify(n), [SetScheme(0), RaiseKeyVerify(n), Cycle]);
  }

  lemma {:induction false} RunThen(m: Machine, es: seq<Event>, fs: seq<Event>)
    ensures Run(m, es + fs) == Run(Run(m, es), fs)
    decreases |fs|
  {
    if fs == [] {
      assert es + fs == es;
    } else {
      RunThen(m, es, fs[..|fs| - 1]);
      assert (es + fs)[..|es + fs| - 1] == es + fs[..|fs| - 1];
    }
  }

  lemma {:induction false} RunTwo(m: Machine, e: Event, f: Event)
    ensures Run(m, [e, f]) == Step(Step(m, e), f)
  {
    RunSnoc(m, [], e);
    RunSnoc(m, [e], f);
    assert [] + [e] == [e] && [e] + [f] == [e, f];
  }

  lemma {:induction false} RunThree(m: Machine, e: Event, f: Event, g: Event)
    ensures Run(m, [e, f, g]) == Step(Step(Step(m, e), f), g)
  {
    RunTwo(m, e, f);
    RunSnoc(m, [e, f], g);
    assert [e, f] + [g] == [e, f, g];
  }

  lemma {:induction false} RunSnoc(m: Machine, es: seq<Event>, e: Event)
    ensures Run(m, es + [e]) == Step(Run(m, es), e)
  {
    assert (es + [e])[..|es|] == es;
  }

  // ---------------------------------------------------------------- a timeout ends the session

  lemma {:induction false} TransientPollsToIdle(m: Machine)
    requires m.sig == QUIET && (Transient(m.state) || m.state == Idle)
    ensures Poll(m).state == Idle
    decreases Rank(m.state)
  {
    var m1 := RunCycle(m);
    if m1.state != m.state { TransientPollsToIdle(m1); }
  }

  // With no other event raised, the expiry of the current state's timer ends the session in one poll.
  lemma {:induction false} TimeoutEndsSession(es: seq<Event>)
    requires Timed(Run(ENTERED, es).state) && Run(ENTERED, es).sig == QUIET
    ensures Poll(Step(Run(ENTERED, es), TimerFires)).state == Idle
  {
    RunKeepsTimerDiscipline(es);
    ExpiryPollsToIdle(Run(ENTERED, es));
  }

  lemma {:induction false} ExpiryLeaves(m: Machine)
    requires Timed(m.state) && m.sig == QUIET && m.armed == Some(m.state)
    ensures var m1 := RunCycle(Step(m, TimerFires)); Transient(m1.state) && m1.sig == QUIET
  {
  }

  lemma {:induction false} ExpiryPollsToIdle(m: Machine)
    requires Timed(m.state) && m.sig == QUIET && m.armed == Some(m.state)
    ensures Poll(Step(m, TimerFires)).state == Idle
  {
    ExpiryLeaves(m);
    TransientPollsToIdle(RunCycle(Step(m, TimerFires)));
  }
}
