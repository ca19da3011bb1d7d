/** Two statecharts bootstrapping each other over a radio that may delay, reorder or lose
    messages but never invents or duplicates one. Both machines may take part in any number of
    sessions, in either role, and both may hear arbitrary traffic from other nodes; only frames
    that claim to come from the peer have to be frames the peer really sent. */
module SecureLearnPair {
  import opened Common
  import opened SecureLearn

  datatype Kind = GetKind | ReportKind | KeyKind | VerifyKind | InheritKind

  datatype Msg = Msg(kind: Kind, from: int, to: int)

  datatype Pair = Pair(a: Machine, b: Machine, net: multiset<Msg>)

  datatype PairEvent = AtA(e: Event) | AtB(e: Event) | ToA(m: Msg) | ToB(m: Msg) | Lose(m: Msg)

  function Transmits(c: Call): Option<Kind> {
    match c
    case SendSchemeGet => Some(GetKind)
    case SendSchemeReport => Some(ReportKind)
    case SendKey => Some(KeyKind)
    case SendKeyVerify => Some(VerifyKind)
    case SendSchemeInherit => Some(InheritKind)
    case _ => None
  }

  function Carries(ev: Seen): Option<Kind> {
    match ev
    case SchemeGet => Some(GetKind)
    case SchemeReport(_) => Some(ReportKind)
    case KeySet => Some(KeyKind)
    case KeyVerify => Some(VerifyKind)
    case SchemeInherit => Some(InheritKind)
    case _ => None
  }

  function Receive(m: Msg): Event {
    match m.kind
    case GetKind => RaiseSchemeGet(m.from)
    case ReportKind => RaiseSchemeReport(m.from)
    case KeyKind => RaiseKeySet(m.from)
    case VerifyKind => RaiseKeyVerify(m.from)
    case InheritKind => RaiseSchemeInherit(m.from)
  }

  // The flag a message of kind `k` raises.
  function Flag(g: Signals, k: Kind): Option<int> {
    match k
    case GetKind => g.schemeGet
    case ReportKind => g.schemeReport
    case KeyKind => g.keySet
    case VerifyKind => g.keyVerify
    case InheritKind => g.schemeInherit
  }

  // A local event is not a frame from the peer.
  predicate Local(e: Event, peer: int) {
    match e
    case RaiseSchemeGet(n) => n != peer
    case RaiseSchemeInherit(n) => n != peer
    case RaiseKeySet(n) => n != peer
    case RaiseSchemeReport(n) => n != peer
    case RaiseKeyVerify(n) => n != peer
    case _ => true
  }

  // The frames put on the air by the calls in `w`, made by node `self`.
  function Outbox(w: seq<Entry>, self: int): multiset<Msg> {
    if w == [] then multiset{}
    else var e := w[|w| - 1];
      Outbox(w[..|w| - 1], self)
      + if e.Did? && Transmits(e.call).Some? then multiset{Msg(Transmits(e.call).value, self, e.node)} else multiset{}
  }

  // What a local event puts on the air; only a cycle calls anything.
  function Emitted(m: Machine, e: Event, self: int): multiset<Msg> {
    if e == Cycle then Outbox(CycleWord(m), self) else multiset{}
  }

  // A step that is not enabled leaves the pair as it is.
  function PairStep(p: Pair, ev: PairEvent, A: int, B: int): Pair {
    match ev
    case AtA(e) => if Local(e, B) then Pair(Step(p.a, e), p.b, p.net + Emitted(p.a, e, A)) else p
    case AtB(e) => if Local(e, A) then Pair(p.a, Step(p.b, e), p.net + Emitted(p.b, e, B)) else p
    case ToA(m) => if m in p.net && m.to == A then Pair(Step(p.a, Receive(m)), p.b, p.net - multiset{m}) else p
    case ToB(m) => if m in p.net && m.to == B then Pair(p.a, Step(p.b, Receive(m)), p.net - multiset{m}) else p
    case Lose(m) => p.(net := p.net - multiset{m})
  }

  function PairRun(evs: seq<PairEvent>, A: int, B: int): Pair {
    if evs == [] then Pair(ENTERED, ENTERED, multiset{})
    else PairStep(PairRun(evs[..|evs| - 1], A, B), evs[|evs| - 1], A, B)
  }

  // ---------------------------------------------------------------- counting log entries

  datatype Test =
    | Sent(kind: Kind, peer: int)        // sent a message of this kind to the peer
    | Taken(kind: Kind, peer: int)       // acted on a message of this kind from the peer
    | Entering(state: State, peer: int)  // entered the state while dealing with the peer
    | EnteringAny(state: State)
    | Succeeded(peer: int)               // ended an inclusion of the peer without failing
    | SucceededAsController(peer: int)

  predicate Holds(t: Test, e: Entry) {
    match t
    case Sent(k, n) => e.Did? && e.node == n && Transmits(e.call) == Some(k)
    case Taken(k, n) => e.Saw? && e.node == n && Carries(e.ev) == Some(k)
    case Entering(s, n) => e == In(s, n)
    case EnteringAny(s) => e.In? && e.state == s
    case Succeeded(n) =>
      e.Did? && e.node == n && e.call.RegisterScheme?
      && (e.at == InclWaitVerify || (e.at == InclSendInherit && Bit0(e.call.scheme)))
    case SucceededAsController(n) =>
      e.Did? && e.node == n && e.call.RegisterScheme? && e.at == InclSendInherit && Bit0(e.call.scheme)
  }

  function Count(log: seq<Entry>, t: Test): nat {
    if log == [] then 0 else Count(log[..|log| - 1], t) + if Holds(t, log[|log| - 1]) then 1 else 0
  }

  lemma {:induction false} CountAppend(log: seq<Entry>, w: seq<Entry>, t: Test)
    ensures Count(log + w, t) == Count(log, t) + Count(w, t)
  {
    if w == [] {
      assert log + w == log;
    } else {
      assert (log + w)[..|log + w| - 1] == log + w[..|w| - 1];
      CountAppend(log, w[..|w| - 1], t);
    }
  }

  lemma {:induction false} CountWitness(log: seq<Entry>, t: Test) returns (i: int)
    requires Count(log, t) > 0
    ensures 0 <= i < |log| && Holds(t, log[i])
  {
    i := |log| - 1;
    if !Holds(t, log[i]) { i := CountWitness(log[..|log| - 1], t); }
  }

  lemma {:induction false} CountsWhatHolds(log: seq<Entry>, t: Test, i: int)
    requires 0 <= i < |log| && Holds(t, log[i])
    ensures Count(log, t) > 0
  {
    if i < |log| - 1 { CountsWhatHolds(log[..|log| - 1], t, i); }
  }

  lemma {:induction false} OutboxCounts(w: seq<Entry>, self: int, k: Kind, to: int, from: int)
    ensures Outbox(w, self)[Msg(k, from, to)] == if from == self then Count(w, Sent(k, to)) else 0
  {
    if w != [] { OutboxCounts(w[..|w| - 1], self, k, to, from); }
  }

  // ---------------------------------------------------------------- the ledger

  // Messages of kind `k` from `snd` to `rcv` that were acted on, are waiting in a flag or are in
  // the air never outnumber those sent.
  predicate Ledger(rcv: Machine, snd: Machine, net: multiset<Msg>, k: Kind, R: int, S: int) {
    Count(rcv.log, Taken(k, S)) + (if Flag(rcv.sig, k) == Some(S) then 1 else 0) + net[Msg(k, S, R)]
      <= Count(snd.log, Sent(k, R))
  }

  // A cycle acts on at most one message, and only on one that was raised.
  lemma {:induction false} CycleTakes(m: Machine, k: Kind, n: int)
    ensures Count(CycleWord(m), Taken(k, n)) <= if Flag(m.sig, k) == Some(n) then 1 else 0
  {
    var mv := Decide(m);
    if mv.Go? {
      CountAppend(mv.word, ArrivalWord(Depart(m, mv), mv.target), Taken(k, n));
      ArrivalSeesNothing(Depart(m, mv), mv.target);
      NoneTaken(ArrivalWord(Depart(m, mv), mv.target), k, n);
      WordTakes(m, k, n);
    }
  }

  lemma {:induction false} ArrivalSeesNothing(m: Machine, s: State)
    ensures forall i :: 0 <= i < |ArrivalWord(m, s)| ==> !ArrivalWord(m, s)[i].Saw?
  {
  }

  lemma {:induction false} NoneTaken(w: seq<Entry>, k: Kind, n: int)
    requires forall i :: 0 <= i < |w| ==> !w[i].Saw?
    ensures Count(w, Taken(k, n)) == 0
  {
    if w != [] { NoneTaken(w[..|w| - 1], k, n); }
  }

  lemma {:induction false} WordTakes(m: Machine, k: Kind, n: int)
    requires Decide(m).Go?
    ensures Count(Decide(m).word, Taken(k, n)) <= if Flag(m.sig, k) == Some(n) then 1 else 0
  {
    var w := Decide(m).word;
    if |w| == 1 {
      assert w[..0] == [];
    } else if |w| == 2 {
      assert w[..1][..0] == [] && w[..1][0] == w[0];
      assert Count(w, Taken(k, n)) == Count(w[..1], Taken(k, n));
    }
  }

  lemma {:induction false} ReceiverStep(rcv: Machine, e: Event, snd: Machine, net: multiset<Msg>, k: Kind, R: int, S: int)
    requires Ledger(rcv, snd, net, k, R, S) && Local(e, S) && R != S
    ensures Ledger(Step(rcv, e), snd, net + Emitted(rcv, e, R), k, R, S)
  {
    if e == Cycle {
      CycleLog(rcv);
      CycleTakes(rcv, k, S);
      ReceiverGrows(rcv, Step(rcv, e), CycleWord(rcv), snd, net, k, R, S);
    }
  }

  lemma {:induction false} ReceiverGrows(rcv: Machine, rcv': Machine, w: seq<Entry>, snd: Machine,
                                         net: multiset<Msg>, k: Kind, R: int, S: int)
    requires Ledger(rcv, snd, net, k, R, S) && R != S
    requires rcv'.log == rcv.log + w && rcv'.sig == QUIET
    requires Count(w, Taken(k, S)) <= if Flag(rcv.sig, k) == Some(S) then 1 else 0
    ensures Ledger(rcv', snd, net + Outbox(w, R), k, R, S)
  {
    CountAppend(rcv.log, w, Taken(k, S));
    OutboxCounts(w, R, k, R, S);
  }

  lemma {:induction false} SenderStep(rcv: Machine, snd: Machine, e: Event, net: multiset<Msg>, k: Kind, R: int, S: int)
    requires Ledger(rcv, snd, net, k, R, S)
    ensures Ledger(rcv, Step(snd, e), net + Emitted(snd, e, S), k, R, S)
  {
    if e == Cycle {
      CycleLog(snd);
      SenderGrows(rcv, snd, Step(snd, e), CycleWord(snd), net, k, R, S);
    }
  }

  lemma {:induction false} SenderGrows(rcv: Machine, snd: Machine, snd': Machine, w: seq<Entry>,
                                       net: multiset<Msg>, k: Kind, R: int, S: int)
    requires Ledger(rcv, snd, net, k, R, S) && snd'.log == snd.log + w
    ensures Ledger(rcv, snd', net + Outbox(w, S), k, R, S)
  {
    CountAppend(snd.log, w, Sent(k, R));
    OutboxCounts(w, S, k, R, S);
  }

  // Receiving a message raises its flag and nothing else.
  lemma {:induction false} ReceiveFlags(rcv: Machine, m: Msg, k: Kind)
    ensures var next := Step(rcv, Receive(m));
            next.log == rcv.log && Flag(next.sig, k) == if m.kind == k then Some(m.from) else Flag(rcv.sig, k)
  {
  }

  lemma {:induction false} DeliverStep(rcv: Machine, snd: Machine, net: multiset<Msg>, m: Msg, k: Kind, R: int, S: int)
    requires Ledger(rcv, snd, net, k, R, S) && Ledger(snd, rcv, net, k, S, R)
    requires m in net && m.to == R
    ensures Ledger(Step(rcv, Receive(m)), snd, net - multiset{m}, k, R, S)
    ensures Ledger(snd, Step(rcv, Receive(m)), net - multiset{m}, k, S, R)
  {
    ReceiveFlags(rcv, m, k);
  }

  lemma {:induction false} RunKeepsLedger(evs: seq<PairEvent>, A: int, B: int, k: Kind)
    requires A != B
    ensures var p := PairRun(evs, A, B);
            Ledger(p.a, p.b, p.net, k, A, B) && Ledger(p.b, p.a, p.net, k, B, A)
  {
    if evs != [] {
      RunKeepsLedger(evs[..|evs| - 1], A, B, k);
      StepKeepsLedger(PairRun(evs[..|evs| - 1], A, B), evs[|evs| - 1], A, B, k);
    } else {
      assert Count([In(Idle, 0)], Taken(k, A)) == 0;
      assert Count([In(Idle, 0)], Taken(k, B)) == 0;
    }
  }

  lemma {:induction false} StepKeepsLedger(p: Pair, ev: PairEvent, A: int, B: int, k: Kind)
    requires A != B
    requires Ledger(p.a, p.b, p.net, k, A, B) && Ledger(p.b, p.a, p.net, k, B, A)
    ensures var q := PairStep(p, ev, A, B);
            Ledger(q.a, q.b, q.net, k, A, B) && Ledger(q.b, q.a, q.net, k, B, A)
  {
    match ev
    case AtA(e) =>
      if Local(e, B) {
        ReceiverStep(p.a, e, p.b, p.net, k, A, B);
        SenderStep(p.b, p.a, e, p.net, k, B, A);
      }
    case AtB(e) =>
      if Local(e, A) {
        ReceiverStep(p.b, e, p.a, p.net, k, B, A);
        SenderStep(p.a, p.b, e, p.net, k, A, B);
      }
    case ToA(m) =>
      if m in p.net && m.to == A {
        DeliverStep(p.a, p.b, p.net, m, k, A, B);
      }
    case ToB(m) =>
      if m in p.net && m.to == B {
        DeliverStep(p.b, p.a, p.net, m, k, B, A);
      }
    case Lose(m) =>
  }

  // ---------------------------------------------------------------- each machine stays a machine

  lemma {:induction false} BothWellLogged(evs: seq<PairEvent>, A: int, B: int)
    ensures WellLogged(PairRun(evs, A, B).a) && WellLogged(PairRun(evs, A, B).b)
  {
    if evs != [] {
      var p, ev := PairRun(evs[..|evs| - 1], A, B), evs[|evs| - 1];
      BothWellLogged(evs[..|evs| - 1], A, B);
      match ev
      case AtA(e) => StepKeepsLog(p.a, e);
      case AtB(e) => StepKeepsLog(p.b, e);
      case ToA(m) => StepKeepsLog(p.a, Receive(m));
      case ToB(m) => StepKeepsLog(p.b, Receive(m));
      case Lose(m) =>
    }
  }

  // ---------------------------------------------------------------- counts along a path

  // 1 while a consumed key-verify has not yet led to the end of the inclusion.
  function VerifyCredit(e: Entry, n: int): nat {
    if || e == Saw(KeyVerify, n, InclWaitVerify)
       || e == Did(SendSchemeInherit, n, InclSendInherit)
       || e == In(InclSendInherit, n)
       || (e.Saw? && e.node == n && e.at == InclSendInherit && e.ev.SchemeReport?)
    then 1 else 0
  }

  lemma {:induction false} SuccessNeedsVerify(log: seq<Entry>, n: int)
    requires IsPath(log)
    ensures Count(log, Succeeded(n)) + VerifyCredit(log[|log| - 1], n) <= Count(log, Taken(VerifyKind, n))
  {
    var k := |log| - 1;
    if k > 0 {
      assert log[..k][|log[..k]| - 1] == log[k - 1];
      SuccessNeedsVerify(log[..k], n);
      assert Follows(log[k - 1], log[k]);
    }
  }

  // 1 from a session's first accepted scheme report until the session fails or ends.
  function ReportCredit(e: Entry, n: int): nat {
    if e.node != n then 0 else
    match e
    case In(s, _) => if s in {InclSendKey, InclWaitVerify, InclSendInherit} then 1 else 0
    case Did(c, _, at) => if at in {InclSchemeRequest, InclSendKey, InclWaitVerify, InclSendInherit}
                             && c != SendSchemeGet && !(c.RegisterScheme? && at != InclSchemeRequest) then 1 else 0
    case Saw(ev, _, at) => if at in {InclSendKey, InclWaitVerify} then 1
                           else if ev.SchemeReport? then if at == InclSendInherit then 2 else 1
                           else 0
  }

  // An inclusion that succeeded through the controller branch acted on two scheme reports.
  lemma {:induction false} ControllerNeedsTwoReports(log: seq<Entry>, n: int)
    requires IsPath(log)
    ensures 2 * Count(log, SucceededAsController(n)) + ReportCredit(log[|log| - 1], n) <= Count(log, Taken(ReportKind, n))
  {
    var k := |log| - 1;
    if k > 0 {
      assert log[..k][|log[..k]| - 1] == log[k - 1];
      ControllerNeedsTwoReports(log[..k], n);
      assert Follows(log[k - 1], log[k]);
    }
  }

  // A verify is sent exactly on entering NewKey.
  lemma {:induction false} VerifiesAreNewKeys(log: seq<Entry>, n: int)
    requires IsPath(log)
    ensures Count(log, Sent(VerifyKind, n))
         == Count(log, Entering(LearnNewKey, n)) + if log[|log| - 1] == Did(SendKeyVerify, n, LearnNewKey) then 1 else 0
  {
    var k := |log| - 1;
    if k > 0 {
      assert log[..k][|log[..k]| - 1] == log[k - 1];
      VerifiesAreNewKeys(log[..k], n);
      assert Follows(log[k - 1], log[k]);
    }
  }

  // A report is sent exactly on the way into Scheme_report or Inherited.
  function ReportPending(e: Entry, n: int): nat {
    if e.Did? && e.node == n && e.at in {LearnSchemeReport, LearnInherited} then 1 else 0
  }

  lemma {:induction false} ReportsAreEntries(log: seq<Entry>, n: int)
    requires IsPath(log)
    ensures Count(log, Sent(ReportKind, n))
         == Count(log, Entering(LearnSchemeReport, n)) + Count(log, Entering(LearnInherited, n))
            + ReportPending(log[|log| - 1], n)
  {
    var k := |log| - 1;
    if k > 0 {
      assert log[..k][|log[..k]| - 1] == log[k - 1];
      ReportsAreEntries(log[..k], n);
      assert Follows(log[k - 1], log[k]);
    }
  }

  // Each learn session answers at most one scheme get.
  lemma {:induction false} OneReportEntryPerStart(log: seq<Entry>, n: int)
    requires IsPath(log)
    ensures Count(log, Entering(LearnSchemeReport, n))
            + (if log[|log| - 1].In? && log[|log| - 1].state == LearnStart then 1 else 0)
            + (if log[|log| - 1].Saw? && log[|log| - 1].ev == SchemeGet then 1 else 0)
            + (if log[|log| - 1].Did? && log[|log| - 1].at == LearnSchemeReport then 1 else 0)
         <= Count(log, EnteringAny(LearnStart))
  {
    var k := |log| - 1;
    if k > 0 {
      assert log[..k][|log[..k]| - 1] == log[k - 1];
      OneReportEntryPerStart(log[..k], n);
      assert Follows(log[k - 1], log[k]);
    }
  }

  // ---------------------------------------------------------------- agreement

  /** For every run, at every moment: the includer has not finished more inclusions of the joiner
      than the joiner has accepted keys from the includer, the joiner has not accepted more keys
      than the includer sent it, and every inclusion finished through the controller branch is
      paid for by two scheme reports the joiner sent on entering Scheme_report or Inherited. */
  lemma {:induction false} AgreementInEveryRun(evs: seq<PairEvent>, A: int, B: int)
    requires A != B
    ensures var p := PairRun(evs, A, B);
            && Count(p.a.log, Succeeded(B)) <= Count(p.b.log, Entering(LearnNewKey, A))
            && Count(p.b.log, Taken(KeyKind, A)) <= Count(p.a.log, Sent(KeyKind, B))
            && 2 * Count(p.a.log, SucceededAsController(B))
               <= Count(p.b.log, Entering(LearnSchemeReport, A)) + Count(p.b.log, Entering(LearnInherited, A))
  {
    var p := PairRun(evs, A, B);
    BothWellLogged(evs, A, B);
    RunKeepsLedger(evs, A, B, VerifyKind);
    RunKeepsLedger(evs, A, B, KeyKind);
    RunKeepsLedger(evs, A, B, ReportKind);
    SuccessNeedsVerify(p.a.log, B);
    ControllerNeedsTwoReports(p.a.log, B);
    VerifiesAreNewKeys(p.b.log, A);
    ReportsAreEntries(p.b.log, A);
  }

  // At entry `i` the inclusion of node `n` ends, and not through Fail.
  predicate Succeeds(log: seq<Entry>, i: int, n: int) {
    0 < i < |log| && log[i] == In(InclEnd, n) && log[i - 1] != In(InclFail, n)
  }

  // An includer that reached its end state without failing did so after the joiner accepted its key.
  lemma {:induction false} SuccessMeansNewKey(evs: seq<PairEvent>, A: int, B: int, i: int) returns (j: int)
    requires A != B
    requires Succeeds(PairRun(evs, A, B).a.log, i, B)
    ensures 0 <= j < |PairRun(evs, A, B).b.log| && PairRun(evs, A, B).b.log[j] == In(LearnNewKey, A)
  {
    var p := PairRun(evs, A, B);
    BothWellLogged(evs, A, B);
    InclusionOutcome(p.a.log, i);
    assert p.a.log[i - 2..i][1] == p.a.log[i - 1];
    CountsWhatHolds(p.a.log, Succeeded(B), i - 1);
    AgreementInEveryRun(evs, A, B);
    j := CountWitness(p.b.log, Entering(LearnNewKey, A));
  }

  // If the joiner was in learn mode only once, success through the controller branch also means
  // that the joiner answered the inherit command.
  lemma {:induction false} ControllerSuccessMeansInherited(evs: seq<PairEvent>, A: int, B: int) returns (j: int)
    requires A != B
    requires Count(PairRun(evs, A, B).a.log, SucceededAsController(B)) > 0
    requires Count(PairRun(evs, A, B).b.log, EnteringAny(LearnStart)) <= 1
    ensures 0 <= j < |PairRun(evs, A, B).b.log| && PairRun(evs, A, B).b.log[j] == In(LearnInherited, A)
  {
    var p := PairRun(evs, A, B);
    BothWellLogged(evs, A, B);
    AgreementInEveryRun(evs, A, B);
    OneReportEntryPerStart(p.b.log, A);
    j := CountWitness(p.b.log, Entering(LearnInherited, A));
  }
}
