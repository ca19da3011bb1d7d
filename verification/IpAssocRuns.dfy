/** Whole runs of the IP-association bridge (src/Bridge_ip_assoc.c): remove commands, removals of nodes
    and callbacks in any order. A remove command is turned away while the counter of an earlier
    request stands; the removal of a node is never turned away and sets the counter anew. */
module IpAssocRuns {
  import opened Common
  import opened IpAssoc

  datatype Event =
    | Remove(pattern: Pattern, env: Env)
    | NodeGone(node: int, env: Env)
    | Answered(index: nat, ok: bool, env: Env)

  function Step(s: Tables, e: Event): Tables {
    match e
    case Remove(p, env) => RemoveCommand(s, p, env)
    case NodeGone(node, env) => RemoveByNode(s, node, env)
    case Answered(i, ok, env) => if i < |s.out| then Answer(s, i, ok, env) else s
  }

  function Run(s: Tables, es: seq<Event>): Tables
    decreases |es|
  {
    if es == [] then s else Run(Step(s, es[0]), es[1..])
  }

  // The event reports a failed transmission.
  predicate Fails(s: Tables, e: Event) {
    e.Answered? && e.index < |s.out| && s.out[e.index].Transmit? && !e.ok
  }

  // Whether a transmission has failed and no node was removed since.
  predicate Stuck(s: Tables, es: seq<Event>, before: bool)
    decreases |es|
  {
    if es == [] then before
    else Stuck(Step(s, es[0]), es[1..], !es[0].NodeGone? && (before || Fails(s, es[0])))
  }

  // Nodes are removed only while no callback is due.
  predicate Serial(s: Tables, es: seq<Event>)
    decreases |es|
  {
    es == [] || ((es[0].NodeGone? ==> s.out == []) && Serial(Step(s, es[0]), es[1..]))
  }

  // The command is turned away: an error answer, and nothing else happens.
  predicate Refused(s: Tables, p: Pattern, env: Env) {
    RemoveCommand(s, p, env) == s.(log := s.log + [Ack(false), Report])
  }

  // ---------------------------------------------------------------- refusal shows in the log

  // The log has grown, and not by an error answer.
  predicate Grows(log: seq<Act>, log': seq<Act>) {
    |log| < |log'| && log'[..|log|] == log && log'[|log|] != Ack(false)
  }

  lemma {:induction false} GrowsOn(log: seq<Act>, a: Act, log': seq<Act>)
    requires a != Ack(false) && Grows(log + [a], log')
    ensures Grows(log, log')
  {
    assert log'[..|log| + 1] == log + [a];
    assert log'[..|log|] == log'[..|log| + 1][..|log|];
    assert log'[|log|] == log'[..|log| + 1][|log|];
  }

  lemma {:induction false} RemoveMarkedGrows(s: Tables, env: Env)
    ensures Grows(s.log, RemoveMarked(s, env).log)
    decreases |s.table|, 1
  {
    if CountMarked(s.table) > 0 {
      var i := FirstMarked(s.table);
      if s.table[i].slot !in env.reachable {
        AfterRemovalGrows(s.(table := Without(s.table, i)), s.table[i], env);
      }
    }
  }

  lemma {:induction false} AfterRemovalGrows(s: Tables, a: Assoc, env: Env)
    ensures Grows(s.log, AfterRemoval(s, a, env).log)
    decreases |s.table|, 3
  {
    if !(a.permanent && a.slot in env.learnAccepted) {
      if a.permanent {
        var s1 := s.(log := s.log + [LeaveNetwork(a.virtualId)]);
        ContinueGrows(s1, env);
        GrowsOn(s.log, LeaveNetwork(a.virtualId), Continue(s1, env).log);
      } else {
        ContinueGrows(s, env);
      }
    }
  }

  lemma {:induction false} ContinueGrows(s: Tables, env: Env)
    ensures Grows(s.log, Continue(s, env).log)
    decreases |s.table|, 2
  {
    var s1 := s.(counter := if s.counter > 0 then s.counter - 1 else 0);
    if s1.counter > 0 { RemoveMarkedGrows(s1, env); }
  }

  lemma {:induction false} RefusedIffCounting(s: Tables, p: Pattern, env: Env)
    ensures Refused(s, p, env) <==> s.counter != 0
  {
    if s.counter == 0 {
      var s1 := s.(table := Mark(s.table, p), counter := CountMatches(s.table, p));
      if s1.counter > 0 { RemoveMarkedGrows(s1, env); }
      assert Grows(s.log, RemoveCommand(s, p, env).log);
      assert (s.log + [Ack(false), Report])[|s.log|] == Ack(false);
    }
  }

  // ---------------------------------------------------------------- serial runs

  // What holds between the events of a serial run.
  predicate Steady(s: Tables, stuck: bool) {
    Sound(s) && AssertionFailed !in s.log && (if s.out == [] then s.counter != 0 <==> stuck else !stuck)
  }

  lemma {:induction false} RequestIsSteady(s: Tables, p: Pattern, env: Env)
    requires Steady(s, s.counter != 0) && s.out == [] && CountMatches(s.table, p) > 0
    ensures Steady(RemoveMarked(s.(table := Mark(s.table, p), counter := CountMatches(s.table, p)), env), false)
  {
    MarkCounts(s.table, p);
    MarkKeepsSlots(s.table, p);
    RemoveMarkedIsSound(s.(table := Mark(s.table, p), counter := CountMatches(s.table, p)), env);
  }

  lemma {:induction false} AnswerIsSteady(s: Tables, ok: bool, env: Env)
    requires Steady(s, false) && s.out != []
    ensures Steady(Answer(s, 0, ok, env), s.out[0].Transmit? && !ok)
  {
    AnswerIs(s, ok, env);
    if s.out[0].Learn? { ContinueIsSound(s.(out := []), env); }
    else if ok { RemovedIsSound(s.(out := []), FirstMarked(s.table), env); }
  }

  lemma {:induction false} StepIsSteady(s: Tables, e: Event, stuck: bool)
    requires Steady(s, stuck) && (e.NodeGone? ==> s.out == [])
    ensures Steady(Step(s, e), !e.NodeGone? && (stuck || Fails(s, e)))
  {
    match e
    case Remove(p, env) =>
      if s.counter == 0 {
        if CountMatches(s.table, p) > 0 { RequestIsSteady(s, p, env); } else { NothingMatches(s.table, p); }
      }
    case NodeGone(node, env) =>
      var p := Pattern(node, 0, 0, None);
      if CountMatches(s.table, p) > 0 { RequestIsSteady(s, p, env); } else { NothingMatches(s.table, p); }
    case Answered(i, ok, env) => if i < |s.out| { AnswerIsSteady(s, ok, env); }
  }

  lemma {:induction false} RunIsSteady(s: Tables, es: seq<Event>, stuck: bool)
    requires Steady(s, stuck) && Serial(s, es)
    ensures Steady(Run(s, es), Stuck(s, es, stuck))
    decreases |es|
  {
    if es != [] {
      StepIsSteady(s, es[0], stuck);
      RunIsSteady(Step(s, es[0]), es[1..], !es[0].NodeGone? && (stuck || Fails(s, es[0])));
    }
  }

  predicate Idle(s: Tables) {
    Distinct(s.table) && s.out == [] && s.counter == 0 && AssertionFailed !in s.log
  }

  /** After any run from an idle bridge in which nodes are removed only between requests, a remove
      command is refused if and only if a request is under way, or a transmission has failed and no
      node was removed since. The assertion that a marked entry is left has never failed. */
  lemma {:induction false} RefusedIff(s: Tables, es: seq<Event>, p: Pattern, env: Env)
    requires Idle(s) && Serial(s, es)
    ensures Refused(Run(s, es), p, env) <==> Run(s, es).out != [] || Stuck(s, es, false)
    ensures AssertionFailed !in Run(s, es).log
  {
    RunIsSteady(s, es, false);
    RefusedIffCounting(Run(s, es), p, env);
  }

  // ---------------------------------------------------------------- how far a chain runs

  // The chain passes this entry by: it needs no command to the source node and no news of a virtual one.
  predicate Skippable(a: Assoc, env: Env) { a.slot !in env.reachable && !(a.permanent && a.slot in env.learnAccepted) }

  // How many marked entries in front the chain can pass by.
  function Skips(t: seq<Assoc>, env: Env): nat {
    if t == [] || (t[0].marked && !Skippable(t[0], env)) then 0
    else (if t[0].marked then 1 else 0) + Skips(t[1..], env)
  }

  predicate AllSkippable(t: seq<Assoc>, env: Env) {
    forall i :: 0 <= i < |t| && t[i].marked ==> Skippable(t[i], env)
  }

  lemma {:induction false} SkipsAll(t: seq<Assoc>, env: Env)
    ensures Skips(t, env) <= CountMarked(t)
    ensures Skips(t, env) == CountMarked(t) <==> AllSkippable(t, env)
  {
    if t != [] {
      SkipsAll(t[1..], env);
      assert AllSkippable(t, env) <==> (t[0].marked ==> Skippable(t[0], env)) && AllSkippable(t[1..], env) by {
        assert forall i :: 1 <= i < |t| ==> t[i] == t[1..][i - 1];
      }
    }
  }

  // One entry passed by, or none.
  lemma {:induction false} SkipsFirst(t: seq<Assoc>, env: Env)
    requires CountMarked(t) > 0
    ensures var i := FirstMarked(t);
            if Skippable(t[i], env) then Skips(Without(t, i), env) == Skips(t, env) - 1 else Skips(t, env) == 0
  {
    if t[0].marked {
      assert Without(t, 0) == t[1..];
    } else {
      var i := FirstMarked(t[1..]);
      SkipsFirst(t[1..], env);
      assert Without(t, i + 1)[0] == t[0] && Without(t, i + 1)[1..] == Without(t[1..], i);
    }
  }

  // A chain with `s.counter` entries to go and the outcome `s'`: it uses up the entries it can pass by;
  // if that is not enough it waits at the first other one, or finds none and fails.
  predicate ChainEnds(s: Tables, s': Tables, t: seq<Assoc>, c: nat, env: Env) {
    var n := Skips(t, env);
    && s'.counter == (if n >= c then 0 else c - n)
    && |s'.out| == |s.out| + (if n >= c || n == CountMarked(t) then 0 else 1)
    && (AssertionFailed in s'.log <==> AssertionFailed in s.log || (n < c && n == CountMarked(t)))
  }

  lemma {:induction false} ChainOutcome(s: Tables, env: Env)
    requires s.counter > 0
    ensures ChainEnds(s, RemoveMarked(s, env), s.table, s.counter, env)
    decreases |s.table|, 1
  {
    SkipsAll(s.table, env);
    if CountMarked(s.table) > 0 {
      var i := FirstMarked(s.table);
      SkipsFirst(s.table, env);
      if s.table[i].slot !in env.reachable { RemovedOutcome(s, i, env); }
    }
  }

  // What the counter says once the chain goes on.
  function Left(s: Tables): nat { if s.counter > 0 then s.counter - 1 else 0 }

  // The chain after an entry is gone: the news of its virtual node is waited for, or it goes on.
  predicate GoesOn(s: Tables, s': Tables, t: seq<Assoc>, a: Assoc, env: Env) {
    if a.permanent && a.slot in env.learnAccepted then
      s'.counter == s.counter && |s'.out| == |s.out| + 1 && (AssertionFailed in s'.log <==> AssertionFailed in s.log)
    else ChainEnds(s, s', t, Left(s), env)
  }

  lemma {:induction false} RemovedOutcome(s: Tables, i: nat, env: Env)
    requires i < |s.table|
    ensures GoesOn(s, Removed(s, i, env), Without(s.table, i), s.table[i], env)
    ensures s.table[i].marked && s.counter > 0 ==> CountMarked(Without(s.table, i)) == CountMarked(s.table) - 1
    decreases |s.table|, 0
  {
    WithoutCounts(s.table, i);
    AfterRemovalOutcome(s.(table := Without(s.table, i)), s.table[i], env);
  }

  lemma {:induction false} AfterRemovalOutcome(s: Tables, a: Assoc, env: Env)
    ensures GoesOn(s, AfterRemoval(s, a, env), s.table, a, env)
    decreases |s.table|, 3
  {
    if !(a.permanent && a.slot in env.learnAccepted) {
      ContinueOutcome(if a.permanent then s.(log := s.log + [LeaveNetwork(a.virtualId)]) else s, env);
    }
  }

  lemma {:induction false} ContinueOutcome(s: Tables, env: Env)
    ensures ChainEnds(s, Continue(s, env), s.table, Left(s), env)
    decreases |s.table|, 2
  {
    if s.counter > 1 { ChainOutcome(s.(counter := s.counter - 1), env); }
  }

  // ---------------------------------------------------------------- when the assertion fails

  // `c` entries are still to go, fewer are marked, and the chain stops at none of them.
  predicate RunsOut(t: seq<Assoc>, c: nat, env: Env) { CountMarked(t) < c && AllSkippable(t, env) }

  // The entry a callback was armed with, and the table without it.
  function Armed(s: Tables, a: Assoc): Assoc {
    var i := IndexOf(s.table, a.slot);
    if i < |s.table| then s.table[i] else a
  }

  function Rest(s: Tables, a: Assoc): seq<Assoc> {
    var i := IndexOf(s.table, a.slot);
    if i < |s.table| then Without(s.table, i) else s.table
  }

  // The callback makes the chain go on at once.
  predicate Resumes(s: Tables, e: Event) {
    && e.Answered? && e.index < |s.out|
    && match s.out[e.index]
       case Learn => true
       case Transmit(a) => e.ok && !(Armed(s, a).permanent && Armed(s, a).slot in e.env.learnAccepted)
  }

  // The table a resumed chain finds.
  function Found(s: Tables, e: Event): seq<Assoc>
    requires Resumes(s, e)
  {
    match s.out[e.index]
    case Learn => s.table
    case Transmit(a) => Rest(s, a)
  }

  // The callback resumes a chain that finds fewer marked entries than the counter says, all of them
  // such that it does not stop.
  predicate Breaks(s: Tables, e: Event) {
    Resumes(s, e) && RunsOut(Found(s, e), Left(s), e.env)
  }

  lemma {:induction false} RequestOutcome(s: Tables, p: Pattern, env: Env)
    requires CountMatches(s.table, p) > 0
    ensures var s1 := s.(table := Mark(s.table, p), counter := CountMatches(s.table, p));
            ChainEnds(s, RemoveMarked(s1, env), s1.table, s1.counter, env) && !RunsOut(s1.table, s1.counter, env)
  {
    MarkCounts(s.table, p);
    ChainOutcome(s.(table := Mark(s.table, p), counter := CountMatches(s.table, p)), env);
  }

  // What a resumed chain does; `s1` is the bridge without the callback.
  lemma {:induction false} ResumedOutcome(s: Tables, e: Event)
    requires Resumes(s, e)
    ensures var s1 := s.(out := s.out[..e.index] + s.out[e.index + 1..]);
            ChainEnds(s1, Step(s, e), Found(s, e), Left(s), e.env)
  {
    var s1 := s.(out := s.out[..e.index] + s.out[e.index + 1..]);
    match s.out[e.index]
    case Learn => ContinueOutcome(s1, e.env);
    case Transmit(a) =>
      var i := IndexOf(s.table, a.slot);
      if i < |s.table| { RemovedOutcome(s1, i, e.env); } else { AfterRemovalOutcome(s1, a, e.env); }
  }

  /** One event: the assertion that a marked entry is left fails if and only if a callback resumes a chain
      that finds fewer marked entries than the counter says and stops at none of them. */
  lemma {:induction false} StepFailsIff(s: Tables, e: Event)
    ensures AssertionFailed in Step(s, e).log <==> AssertionFailed in s.log || Breaks(s, e)
  {
    match e
    case Remove(p, env) =>
      if s.counter == 0 && CountMatches(s.table, p) > 0 { StartNeverFails(s, p, env); }
    case NodeGone(node, env) =>
      if CountMatches(s.table, Pattern(node, 0, 0, None)) > 0 { StartNeverFails(s, Pattern(node, 0, 0, None), env); }
    case Answered(i, ok, env) =>
      if Resumes(s, e) {
        ResumedOutcome(s, e);
        SkipsAll(Found(s, e), env);
      } else if i < |s.out| && ok {
        WaitsForNode(s, e);
      }
  }

  lemma {:induction false} StartNeverFails(s: Tables, p: Pattern, env: Env)
    requires CountMatches(s.table, p) > 0
    ensures var s1 := s.(table := Mark(s.table, p), counter := CountMatches(s.table, p));
            AssertionFailed in RemoveMarked(s1, env).log <==> AssertionFailed in s.log
  {
    RequestOutcome(s, p, env);
    SkipsAll(Mark(s.table, p), env);
  }

  // A transmission that succeeded and whose entry has a virtual node to wait for.
  lemma {:induction false} WaitsForNode(s: Tables, e: Event)
    requires e.Answered? && e.index < |s.out| && e.ok && !Resumes(s, e)
    ensures Step(s, e).counter == s.counter && |Step(s, e).out| == |s.out|
    ensures AssertionFailed in Step(s, e).log <==> AssertionFailed in s.log
  {
    var s1 := s.(out := s.out[..e.index] + s.out[e.index + 1..]);
    var a := s.out[e.index].entry;
    var i := IndexOf(s.table, a.slot);
    if i < |s.table| { RemovedOutcome(s1, i, e.env); } else { AfterRemovalOutcome(s1, a, e.env); }
  }

  predicate NeverBreaks(s: Tables, es: seq<Event>)
    decreases |es|
  {
    es == [] || (!Breaks(s, es[0]) && NeverBreaks(Step(s, es[0]), es[1..]))
  }

  /** All runs, overlapping removals included: the assertion never fails if and only if no event meets the
      guard. */
  lemma {:induction false} AssertionHoldsIff(s: Tables, es: seq<Event>)
    requires AssertionFailed !in s.log
    ensures AssertionFailed !in Run(s, es).log <==> NeverBreaks(s, es)
    decreases |es|
  {
    if es != [] {
      StepFailsIff(s, es[0]);
      if Breaks(s, es[0]) { FailureStays(Step(s, es[0]), es[1..]); } else { AssertionHoldsIff(Step(s, es[0]), es[1..]); }
    }
  }

  lemma {:induction false} FailureStays(s: Tables, es: seq<Event>)
    requires AssertionFailed in s.log
    ensures AssertionFailed in Run(s, es).log
    decreases |es|
  {
    if es != [] {
      StepFailsIff(s, es[0]);
      FailureStays(Step(s, es[0]), es[1..]);
    }
  }

  // ---------------------------------------------------------------- when a command is refused

  // What the guard of the remove command is there for: it turns commands away exactly while a request is
  // under way.
  predicate GuardRight(s: Tables) { s.counter != 0 <==> s.out != [] }

  // A chain with `c` entries to go from table `t`, while `others` callbacks are due, ends with the guard
  // wrong: all entries passed by though callbacks are due, or the entries run out and none is due.
  predicate EndsWrong(t: seq<Assoc>, c: nat, env: Env, others: nat) {
    if c <= Skips(t, env) then others > 0 else others == 0 && AllSkippable(t, env)
  }

  // The events after which the guard is wrong: a last transmission fails; the removal of a node overlaps
  // a request and is over at once; or a resumed chain ends wrong.
  predicate Unsettles(s: Tables, e: Event) {
    match e
    case Remove(_, _) => false
    case NodeGone(node, env) =>
      var p := Pattern(node, 0, 0, None);
      s.out != [] && CountMatches(s.table, p) <= Skips(Mark(s.table, p), env)
    case Answered(i, _, env) =>
      (Fails(s, e) && |s.out| == 1)
      || (Resumes(s, e) && EndsWrong(Found(s, e), Left(s), env, |s.out| - 1))
  }

  lemma {:induction false} StartSettles(s: Tables, p: Pattern, env: Env)
    requires CountMatches(s.table, p) > 0
    ensures var s1 := s.(table := Mark(s.table, p), counter := CountMatches(s.table, p));
            GuardRight(RemoveMarked(s1, env)) <==> s.out == [] || Skips(s1.table, env) < s1.counter
  {
    RequestOutcome(s, p, env);
    SkipsAll(Mark(s.table, p), env);
  }

  /** One event: a guard that was right stays right if and only if the event is none of those. */
  lemma {:induction false} StepGuardIff(s: Tables, e: Event)
    requires GuardRight(s)
    ensures GuardRight(Step(s, e)) <==> !Unsettles(s, e)
  {
    match e
    case Remove(p, env) =>
      if s.counter == 0 && CountMatches(s.table, p) > 0 { StartSettles(s, p, env); }
    case NodeGone(node, env) =>
      if CountMatches(s.table, Pattern(node, 0, 0, None)) > 0 { StartSettles(s, Pattern(node, 0, 0, None), env); }
    case Answered(i, ok, env) =>
      if Resumes(s, e) {
        ResumedOutcome(s, e);
        SkipsAll(Found(s, e), env);
      } else if i < |s.out| && ok {
        WaitsForNode(s, e);
      }
  }

  predicate RefusalRight(s: Tables, p: Pattern, env: Env) { Refused(s, p, env) <==> s.out != [] }

  // After every event of the run a remove command is refused if and only if a callback is due.
  predicate RightThroughout(s: Tables, es: seq<Event>, p: Pattern, env: Env)
    decreases |es|
  {
    RefusalRight(s, p, env) && (es == [] || RightThroughout(Step(s, es[0]), es[1..], p, env))
  }

  predicate NeverUnsettled(s: Tables, es: seq<Event>)
    decreases |es|
  {
    es == [] || (!Unsettles(s, es[0]) && NeverUnsettled(Step(s, es[0]), es[1..]))
  }

  /** All runs, overlapping removals and failed transmissions included: remove commands are refused exactly
      while a request is under way, throughout the run, if and only if no event of it unsettles the
      guard. */
  lemma {:induction false} RefusedWhileDueIff(s: Tables, es: seq<Event>, p: Pattern, env: Env)
    requires GuardRight(s)
    ensures RightThroughout(s, es, p, env) <==> NeverUnsettled(s, es)
    decreases |es|
  {
    RefusedIffCounting(s, p, env);
    if es != [] {
      StepGuardIff(s, es[0]);
      if Unsettles(s, es[0]) { RefusedIffCounting(Step(s, es[0]), p, env); }
      else { RefusedWhileDueIff(Step(s, es[0]), es[1..], p, env); }
    }
  }

  // ---------------------------------------------------------------- removals that overlap

  /** The removal of a node without associations lets the next remove command in, also while a request
      is under way or after one has failed with its marks still standing. */
  lemma {:induction false} NodeRemovalUnlocks(s: Tables, node: int, env: Env, p: Pattern, env': Env)
    requires CountMatches(s.table, Pattern(node, 0, 0, None)) == 0
    ensures var s' := RemoveByNode(s, node, env);
            s'.table == s.table && s'.out == s.out && !Refused(s', p, env')
  {
    NothingMatches(s.table, Pattern(node, 0, 0, None));
    RefusedIffCounting(RemoveByNode(s, node, env), p, env');
  }

  // Two associations of node 7 in groups 1 and 2, each with a permanent virtual node.
  const GROUP_ONE := Assoc(0, true, 21, 7, 0, 1, 11, false)
  const GROUP_TWO := Assoc(1, true, 22, 7, 0, 2, 12, false)
  const PRESENT := Env({0, 1}, {0, 1})
  const GONE := Env({}, {0, 1})

  /** The assertion fails in a run in which a node is removed while a request for it is under way: the
      command to take node 7 out of group 2 is on its way, the node leaves the network, and both
      chains wait for a virtual node to go when the counter still says two. */
  lemma {:induction false} OverlapFailsAssertion()
    ensures var t := [GROUP_ONE, GROUP_TWO];
            var es := [Remove(Pattern(7, 0, 2, None), PRESENT), NodeGone(7, GONE),
                       Answered(0, true, GONE), Answered(0, true, GONE)];
            AssertionFailed in Run(Tables(t, t, 0, [], []), es).log
  {
    var t := [GROUP_ONE, GROUP_TWO];
    var s0 := Tables(t, t, 0, [], []);
    var e0, e1, e2 := Remove(Pattern(7, 0, 2, None), PRESENT), NodeGone(7, GONE), Answered(0, true, GONE);
    CommandUnderWay();
    NodeRemovedMeanwhile();
    BothWait();
    var es := [e0, e1, e2, e2];
    assert es[1..] == [e1, e2, e2] && [e1, e2, e2][1..] == [e2, e2];
    assert Run(s0, es) == Run(Step(s0, e0), [e1, e2, e2]) == Run(Step(Step(s0, e0), e1), [e2, e2]);
  }

  lemma {:induction false} BothWait()
    ensures var a' := GROUP_TWO.(marked := true);
            var s := Tables([a'], [a'], 2, [Transmit(a'), Learn], [SendRemove(1), LeaveNetwork(21)]);
            AssertionFailed in Run(s, [Answered(0, true, GONE), Answered(0, true, GONE)]).log
  {
    var a' := GROUP_TWO.(marked := true);
    var s := Tables([a'], [a'], 2, [Transmit(a'), Learn], [SendRemove(1), LeaveNetwork(21)]);
    var e := Answered(0, true, GONE);
    var s3 := Step(s, e);
    assert s.out[..0] + s.out[1..] == [Learn] && IndexOf(s.table, 1) == 0 && Without([a'], 0) == [];
    PermanentRemoval(s.(out := [Learn]), 0, GONE);
    assert s3 == Removed(s.(out := [Learn]), 0, GONE);
    assert s3.table == [] && s3.counter == 2 && s3.out == [Learn] + [Learn] == [Learn, Learn];
    assert s3.out[..0] + s3.out[1..] == [Learn];
    var s4 := Step(s3, e);
    assert s4 == RemoveMarked(s3.(out := [Learn], counter := 1), GONE);
    assert s4.log == s3.log + [AssertionFailed];
    assert [e, e][1..] == [e] && [e][1..] == [];
    assert Run(s, [e, e]) == Run(s3, [e]) == Run(s4, []) == s4;
  }

  lemma {:induction false} CommandUnderWay()
    ensures var t := [GROUP_ONE, GROUP_TWO];
            var a' := GROUP_TWO.(marked := true);
            Step(Tables(t, t, 0, [], []), Remove(Pattern(7, 0, 2, None), PRESENT))
              == Tables([GROUP_ONE, a'], t, 1, [Transmit(a')], [SendRemove(1)])
  {
    var p := Pattern(7, 0, 2, None);
    TableOfTwo(GROUP_ONE, GROUP_TWO, p);
    TableOfTwo(GROUP_ONE, GROUP_TWO.(marked := true), p);
  }

  lemma {:induction false} NodeRemovedMeanwhile()
    ensures var t := [GROUP_ONE, GROUP_TWO];
            var a' := GROUP_TWO.(marked := true);
            Step(Tables([GROUP_ONE, a'], t, 1, [Transmit(a')], [SendRemove(1)]), NodeGone(7, GONE))
              == Tables([a'], [a'], 2, [Transmit(a'), Learn], [SendRemove(1), LeaveNetwork(21)])
  {
    var z, p := GROUP_ONE, Pattern(7, 0, 0, None);
    var z', a' := z.(marked := true), GROUP_TWO.(marked := true);
    TableOfTwo(z, a', p);
    TableOfTwo(z', a', p);
    PermanentRemoval(Tables([z', a'], [z, GROUP_TWO], 2, [Transmit(a')], [SendRemove(1)]), 0, GONE);
    assert [Transmit(a')] + [Learn] == [Transmit(a'), Learn] && [SendRemove(1)] + [LeaveNetwork(21)] == [SendRemove(1), LeaveNetwork(21)];
  }
}
