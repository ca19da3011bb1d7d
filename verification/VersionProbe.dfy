/** The version interview of a node (src/RD_probe_cc_version.c): a state machine that posts events to
    itself, asks the node for the version of every class the gateway controls, then for its
    capabilities, and reports the outcome to a callback. */
module VersionProbe {
  import opened Common

  const CLASS_VERSION := 0x86
  const SENTINEL := 0xffff
  const VERSION_V3 := 3

  // controlled_cc_v: Version, Z-Wave Plus Info, Manufacturer Specific, Wake Up, Multi Channel,
  // Association, Multi Channel Association, and the end mark.
  const CONTROLLED: seq<int> := [CLASS_VERSION, 0x5E, 0x72, 0x84, 0x60, 0x85, 0x8E, SENTINEL]
  const LAST := 7

  datatype State = Idle | SendCcGet | LastReport | CheckIfV3 | SendCapGet | SendZwsGet | ProbeDone

  datatype Ev =
    | Initial | Start | CcProbed | CcNotSupport | CcReportRecv | CcCallbackFail | NotLast | CcDone
    | IsV3 | NotV3 | CapReportRecv | CapCallbackFail | CapProbed
    | ZwsReportRecv | ZwsCallbackFail | ZwsProbed | ZwsNotSupport

  datatype Flags = NeverStarted | Started | Failed | Completed

  // The reply that the machine waits for.
  datatype Waiting = Nothing | ForVersion | ForCap | ForZws

  // What the outside sees: requests sent, a request the sender refused, the callback.
  datatype Did = Asked(cls: int) | AskedCap | AskedZws | Refused | Called(status: int)

  datatype Pair = Pair(cls: int, version: int)

  datatype Probe = Probe(
    state: State, idx: nat, requested: int, waiting: Waiting, log: seq<Did>,
    cache: seq<Pair>, deleted: bool, supported: set<int>, flags: Flags, caps: nat, zws: bool)

  // ---------------------------------------------------------------- the version cache

  function CacheGet(cache: seq<Pair>, cls: int): int {
    if cache == [] then 0 else if cache[0].cls == cls then cache[0].version else CacheGet(cache[1..], cls)
  }

  function CacheSet(cache: seq<Pair>, cls: int, version: int): seq<Pair> {
    if cache == [] then []
    else if cache[0].cls == cls then [Pair(cls, version)] + cache[1..]
    else [cache[0]] + CacheSet(cache[1..], cls, version)
  }

  predicate Has(cache: seq<Pair>, cls: int) {
    exists i :: 0 <= i < |cache| && cache[i].cls == cls
  }

  // A set is seen by the next get of that class if the cache has an entry for it, and by no other.
  lemma {:induction false} SetThenGet(cache: seq<Pair>, cls: int, version: int, other: int)
    ensures Has(cache, cls) ==> CacheGet(CacheSet(cache, cls, version), cls) == version
    ensures !Has(cache, cls) ==> CacheSet(cache, cls, version) == cache
    ensures other != cls ==> CacheGet(CacheSet(cache, cls, version), other) == CacheGet(cache, other)
    ensures |CacheSet(cache, cls, version)| == |cache|
    ensures Has(CacheSet(cache, cls, version), other) <==> Has(cache, other)
  {
    if cache != [] {
      var rest := cache[1..];
      var out := CacheSet(cache, cls, version);
      SetThenGet(rest, cls, version, other);
      HasHead(cache, cls);
      HasHead(cache, other);
      HasHead(out, other);
      if cache[0].cls == cls { assert out[1..] == rest; } else { assert out[1..] == CacheSet(rest, cls, version); }
    }
  }

  lemma {:induction false} HasHead(cache: seq<Pair>, cls: int)
    requires cache != []
    ensures Has(cache, cls) <==> cache[0].cls == cls || Has(cache[1..], cls)
  {
    if Has(cache, cls) && cache[0].cls != cls {
      var i :| 0 <= i < |cache| && cache[i].cls == cls;
      assert cache[1..][i - 1].cls == cls;
    }
    if Has(cache[1..], cls) {
      var i :| 0 <= i < |cache[1..]| && cache[1..][i].cls == cls;
      assert cache[i + 1].cls == cls;
    }
  }

  // A set writes the first entry of the class and nothing else.
  lemma {:induction false} SetWritesFirst(cache: seq<Pair>, i: nat, cls: int, version: int)
    requires i <= |cache| && forall k :: 0 <= k < i ==> cache[k].cls != cls
    ensures i < |cache| && cache[i].cls == cls ==> CacheSet(cache, cls, version) == cache[i := Pair(cls, version)]
    ensures i == |cache| ==> CacheSet(cache, cls, version) == cache
  {
    if i > 0 {
      assert forall k :: 0 <= k < i - 1 ==> cache[1..][k] == cache[k + 1];
      SetWritesFirst(cache[1..], i - 1, cls, version);
    }
  }

  // rd_node_cc_version_get and _set: a deleted node has no versions.
  function Version(p: Probe, cls: int): int {
    if p.deleted then 0 else CacheGet(p.cache, cls)
  }

  function WithVersion(p: Probe, cls: int, version: int): Probe {
    if p.deleted then p else p.(cache := CacheSet(p.cache, cls, version))
  }

  // ---------------------------------------------------------------- the machine

  predicate InRange(p: Probe) {
    && (p.state == SendCcGet ==> p.idx < LAST)
    && (p.state == LastReport ==> p.idx <= LAST)
  }

  // How far a posted event can still carry the machine.
  function Rank(p: Probe): nat
    requires InRange(p)
  {
    match p.state
    case Idle => 2 * LAST + 11
    case SendCcGet => 2 * (LAST - p.idx) + 10
    case LastReport => 2 * (LAST - p.idx) + 11
    case CheckIfV3 => 3
    case SendCapGet => 2
    case SendZwsGet => 1
    case ProbeDone => 0
  }

  function Ask(p: Probe, w: Waiting, did: Did, accept: bool): (Probe, Option<Ev>) {
    if accept then (p.(waiting := w, log := p.log + [did]), None)
    else (p.(flags := Failed, log := p.log + [Refused]), None)
  }

  // Waiting for a version, the machine stands at the class that it asked for.
  predicate Well(p: Probe) { p.waiting == ForVersion ==> p.state == SendCcGet && p.idx < LAST }

  // The step stays in range, and an event that it posts finds the machine further on.
  predicate Advances(p: Probe, r: (Probe, Option<Ev>))
    requires InRange(p)
  {
    && InRange(r.0)
    && (r.1.Some? ==> Rank(r.0) < Rank(p) && r.0.waiting == p.waiting)
    && (p.waiting == Nothing ==> Well(r.0))
  }

  function MicroSendCc(p: Probe, ev: Ev, accept: bool): (r: (Probe, Option<Ev>))
    requires p.state == SendCcGet && p.idx < LAST
    ensures Advances(p, r)
  {
    if !(ev == Start || ev == NotLast) then (p, None)
    else if CONTROLLED[p.idx] !in p.supported then (p.(idx := p.idx + 1, state := LastReport), Some(CcNotSupport))
    else if Version(p, CONTROLLED[p.idx]) == 0 then
      Ask(p.(requested := CONTROLLED[p.idx]), ForVersion, Asked(CONTROLLED[p.idx]), accept)
    else (p.(idx := p.idx + 1, state := LastReport), Some(CcProbed))
  }

  function MicroLast(p: Probe, ev: Ev): (r: (Probe, Option<Ev>))
    requires p.state == LastReport && p.idx <= LAST
    ensures Advances(p, r)
  {
    if !(ev == CcReportRecv || ev == CcProbed || ev == CcNotSupport || ev == CcCallbackFail) then (p, None)
    else if CONTROLLED[p.idx] != SENTINEL then (p.(state := SendCcGet), Some(NotLast))
    else (p.(state := CheckIfV3), Some(CcDone))
  }

  // The bits 0x01, 0x02 and 0x04 (versions, command classes, Z-Wave software) are all set.
  predicate HasZws(caps: nat) {
    caps % 2 == 1 && caps / 2 % 2 == 1 && caps / 4 % 2 == 1
  }

  function MicroZws(p: Probe, ev: Ev, accept: bool): (r: (Probe, Option<Ev>))
    requires p.state == SendZwsGet
    ensures Advances(p, r)
  {
    if !(ev == CapReportRecv || ev == CapProbed) then (p, None)
    else if !HasZws(p.caps) then (p.(state := ProbeDone), Some(ZwsNotSupport))
    else if !p.zws then Ask(p, ForZws, AskedZws, accept)
    else (p.(state := ProbeDone), Some(ZwsProbed))
  }

  function MicroDone(p: Probe, ev: Ev): (r: (Probe, Option<Ev>))
    requires p.state == ProbeDone
    ensures Advances(p, r)
  {
    if !(ev == ZwsNotSupport || ev == ZwsReportRecv || ev == NotV3 || ev == ZwsCallbackFail
         || ev == CapCallbackFail || ev == ZwsProbed) then (p, None)
    else if p.flags == Failed then (p.(log := p.log + [Called(1)]), None)
    else (p.(flags := Completed, log := p.log + [Called(0)]), None)
  }

  // One activation of pcv_fsm_post_event: the new state and the event it posts to itself.
  function Micro(p: Probe, ev: Ev, accept: bool): (r: (Probe, Option<Ev>))
    requires InRange(p)
    ensures Advances(p, r)
  {
    match p.state
    case Idle => if ev == Initial then (p.(idx := 0, state := SendCcGet), Some(Start)) else (p, None)
    case SendCcGet => MicroSendCc(p, ev, accept)
    case LastReport => MicroLast(p, ev)
    case CheckIfV3 =>
      if ev != CcDone then (p, None)
      else if Version(p, CLASS_VERSION) == VERSION_V3 then (p.(state := SendCapGet), Some(IsV3))
      else (p.(state := ProbeDone), Some(NotV3))
    case SendCapGet =>
      if ev != IsV3 then (p, None)
      else if p.caps == 0 then Ask(p, ForCap, AskedCap, accept)
      else (p.(state := SendZwsGet), Some(CapProbed))
    case SendZwsGet => MicroZws(p, ev, accept)
    case ProbeDone => MicroDone(p, ev)
  }

  // pcv_fsm_post_event: at most one request is sent before it returns; `accept` is its fate.
  function Post(p: Probe, ev: Ev, accept: bool): (q: Probe)
    requires InRange(p) && p.waiting == Nothing
    ensures Well(q)
    decreases Rank(p)
  {
    var (q, next) := Micro(p, ev, accept);
    if next.None? then q else Post(q, next.value, accept)
  }

  // An event that the machine posts to itself carries on from where it was posted.
  lemma {:induction false} PostCarriesOn(p: Probe, ev: Ev, accept: bool, q: Probe, next: Ev)
    requires InRange(p) && p.waiting == Nothing && Micro(p, ev, accept) == (q, Some(next))
    ensures InRange(q) && q.waiting == Nothing && Rank(q) < Rank(p) && Post(p, ev, accept) == Post(q, next, accept)
  {
  }

  // rd_ep_probe_cc_version, with no request of an earlier interview outstanding.
  function Begin(p: Probe, isGateway: bool, accept: bool): (q: Probe)
    requires p.waiting == Nothing
    ensures Well(q)
  {
    if isGateway then p.(log := p.log + [Called(0)])
    else Post(p.(flags := Started, state := Idle), Initial, accept)
  }

  // A reply, or the news that none came (`ok` false); `accept` is for the request that follows it.
  datatype Turn = Turn(ok: bool, cls: int, version: int, caps: nat, accept: bool)

  predicate GoodVersion(p: Probe, t: Turn) { t.ok && t.cls == p.requested && t.version >= 1 }

  // The version stored, or the failure marked; either way the next class is due.
  function VersionNoted(p: Probe, t: Turn): Probe {
    var q := p.(waiting := Nothing, idx := p.idx + 1, state := LastReport);
    if GoodVersion(p, t) then WithVersion(q, p.requested, t.version) else q.(flags := Failed)
  }

  function OnVersion(p: Probe, t: Turn): (q: Probe)
    requires p.idx < LAST
    ensures Well(q)
  {
    Post(VersionNoted(p, t), if GoodVersion(p, t) then CcReportRecv else CcCallbackFail, t.accept)
  }

  function OnCap(p: Probe, t: Turn): (q: Probe)
    ensures Well(q)
  {
    if t.ok then Post(p.(waiting := Nothing, caps := t.caps, state := SendZwsGet), CapReportRecv, t.accept)
    else Post(p.(waiting := Nothing, flags := Failed, state := ProbeDone), CapCallbackFail, t.accept)
  }

  function OnZws(p: Probe, t: Turn): (q: Probe)
    ensures Well(q)
  {
    if t.ok then Post(p.(waiting := Nothing, zws := true, state := ProbeDone), ZwsReportRecv, t.accept)
    else Post(p.(waiting := Nothing, state := ProbeDone), ZwsCallbackFail, t.accept)
  }

  function Answer(p: Probe, t: Turn): (q: Probe)
    requires Well(p)
    ensures Well(q)
  {
    match p.waiting
    case Nothing => p
    case ForVersion => OnVersion(p, t)
    case ForCap => OnCap(p, t)
    case ForZws => OnZws(p, t)
  }

  // The interview answered turn by turn, as long as it waits.
  function Drive(p: Probe, ts: seq<Turn>): Probe
    requires Well(p)
    decreases |ts|
  {
    if ts == [] then p else Drive(Answer(p, ts[0]), ts[1..])
  }

  // ---------------------------------------------------------------- what an interview must ask

  // The endpoint supports the class and the cache does not know its version.
  predicate Need(p0: Probe, k: nat)
    requires k < LAST
  {
    CONTROLLED[k] in p0.supported && Version(p0, CONTROLLED[k]) == 0
  }

  // The version requests for the first `k` controlled classes: each needed one, once, in order.
  function Wanted(p0: Probe, k: nat): seq<Did>
    requires k <= LAST
  {
    if k == 0 then [] else Wanted(p0, k - 1) + if Need(p0, k - 1) then [Asked(CONTROLLED[k - 1])] else []
  }

  predicate IsV3Node(p: Probe) { Version(p, CLASS_VERSION) == VERSION_V3 }

  function CapPart(p0: Probe, p: Probe): seq<Did> {
    if IsV3Node(p) && p0.caps == 0 then [AskedCap] else []
  }

  function ZwsPart(p0: Probe, p: Probe): seq<Did> {
    if IsV3Node(p) && HasZws(p.caps) && !p0.zws then [AskedZws] else []
  }

  // ---------------------------------------------------------------- invariants

  predicate Frame(p0: Probe, p: Probe) {
    && p.supported == p0.supported && p.deleted == p0.deleted
    && forall j :: 0 <= j < LAST ==> (Has(p.cache, CONTROLLED[j]) <==> Has(p0.cache, CONTROLLED[j]))
  }

  predicate Untouched(p0: Probe, p: Probe, k: nat) {
    forall j :: k <= j < LAST ==> Version(p, CONTROLLED[j]) == Version(p0, CONTROLLED[j])
  }

  // The cache can hold a version for the class: the node is not deleted and has an entry for it.
  predicate Cached(p0: Probe, j: nat)
    requires j < LAST
  {
    !p0.deleted && Has(p0.cache, CONTROLLED[j])
  }

  predicate AllCached(p0: Probe) {
    forall j :: 0 <= j < LAST && CONTROLLED[j] in p0.supported ==> Cached(p0, j)
  }

  predicate AllKnown(p0: Probe, p: Probe) {
    forall j :: 0 <= j < LAST && CONTROLLED[j] in p0.supported ==> Version(p, CONTROLLED[j]) != 0
  }

  // Without a failure so far, the classes before `k` are known wherever the cache can hold them.
  predicate Settled(p0: Probe, p: Probe, k: nat)
    requires k <= LAST
  {
    p.flags != Failed ==>
      forall j :: 0 <= j < k && CONTROLLED[j] in p0.supported && Cached(p0, j) ==> Version(p, CONTROLLED[j]) != 0
  }

  predicate CapsKept(p0: Probe, p: Probe) { p.caps == p0.caps && p.zws == p0.zws }

  // The state while classes are being asked, before class `k`.
  predicate Asking(p0: Probe, p: Probe, k: nat)
    requires k <= LAST
  {
    p.log == Wanted(p0, k) && Untouched(p0, p, k) && Settled(p0, p, k) && CapsKept(p0, p)
  }

  // The machine is in a state that takes the event in flight.
  predicate Flight(p0: Probe, p: Probe, ev: Ev) {
    && Frame(p0, p) && p.waiting == Nothing && (p.flags == Started || p.flags == Failed)
    && match p.state
       case Idle => ev == Initial && p.log == [] && p.cache == p0.cache && CapsKept(p0, p)
       case SendCcGet => (ev == Start || ev == NotLast) && p.idx < LAST && Asking(p0, p, p.idx)
       case LastReport =>
         && (ev == CcReportRecv || ev == CcProbed || ev == CcNotSupport || ev == CcCallbackFail)
         && p.idx <= LAST && Asking(p0, p, p.idx)
       case CheckIfV3 => ev == CcDone && Asking(p0, p, LAST)
       case SendCapGet => ev == IsV3 && IsV3Node(p) && Asking(p0, p, LAST)
       case SendZwsGet =>
         && (ev == CapReportRecv || ev == CapProbed) && IsV3Node(p) && p.zws == p0.zws
         && p.log == Wanted(p0, LAST) + CapPart(p0, p) && Settled(p0, p, LAST)
       case ProbeDone =>
         && (ev == ZwsNotSupport || ev == ZwsReportRecv || ev == NotV3 || ev == ZwsCallbackFail
             || ev == CapCallbackFail || ev == ZwsProbed)
         && p.log == Wanted(p0, LAST) + CapPart(p0, p) + ZwsPart(p0, p) && Settled(p0, p, LAST)
  }

  // The callback has been called, once and last.
  predicate Finished(p0: Probe, p: Probe) {
    && p.waiting == Nothing && (p.flags == Failed || p.flags == Completed) && Settled(p0, p, LAST)
    && p.log == Wanted(p0, LAST) + CapPart(p0, p) + ZwsPart(p0, p) + [Called(if p.flags == Failed then 1 else 0)]
  }

  predicate Quiet(log: seq<Did>) { forall i :: 0 <= i < |log| ==> !log[i].Called? && log[i] != Refused }

  // A request was refused: nothing will happen any more, and the callback has not been called.
  predicate Hung(p: Probe) {
    && p.waiting == Nothing && p.flags == Failed
    && p.log != [] && p.log[|p.log| - 1] == Refused && Quiet(p.log[..|p.log| - 1])
  }

  predicate Rest(p0: Probe, p: Probe) {
    && Frame(p0, p)
    && match p.waiting
       case Nothing => Finished(p0, p) || Hung(p)
       case ForVersion =>
         && (p.flags == Started || p.flags == Failed) && p.state == SendCcGet && p.idx < LAST
         && p.requested == CONTROLLED[p.idx] && Need(p0, p.idx) && p.log == Wanted(p0, p.idx + 1)
         && Untouched(p0, p, p.idx) && Settled(p0, p, p.idx) && CapsKept(p0, p)
       case ForCap =>
         && (p.flags == Started || p.flags == Failed) && IsV3Node(p) && p0.caps == 0 && CapsKept(p0, p)
         && p.log == Wanted(p0, LAST) + [AskedCap] && Settled(p0, p, LAST)
       case ForZws =>
         && (p.flags == Started || p.flags == Failed) && IsV3Node(p) && HasZws(p.caps) && !p0.zws
         && p.log == Wanted(p0, LAST) + CapPart(p0, p) + [AskedZws] && Settled(p0, p, LAST)
  }

  lemma {:induction false} WantedQuiet(p0: Probe, k: nat)
    requires k <= LAST
    ensures Quiet(Wanted(p0, k))
  {
    if k > 0 { WantedQuiet(p0, k - 1); }
  }

  // What one activation leaves: an event in flight, or a machine at rest that hangs only on refusal.
  predicate Leaves(p0: Probe, p: Probe, r: (Probe, Option<Ev>), accept: bool) {
    && (r.1.Some? ==> Flight(p0, r.0, r.1.value))
    && (r.1.None? ==> Rest(p0, r.0) && (accept && r.0.waiting == Nothing ==> Finished(p0, r.0)))
    && (accept ==> (r.0.flags == Failed <==> p.flags == Failed))
  }

  lemma {:induction false} AskLeaves(p0: Probe, p: Probe, w: Waiting, did: Did, accept: bool)
    requires w != Nothing && p.waiting == Nothing && Frame(p0, p) && Quiet(p.log)
    requires Rest(p0, p.(waiting := w, log := p.log + [did]))
    ensures Leaves(p0, p, Ask(p, w, did, accept), accept)
  {
    var q := Ask(p, w, did, false).0;
    assert q.log[..|q.log| - 1] == p.log;
  }

  // Skipping a class that needs no request keeps the record of requests complete.
  lemma {:induction false} SkipLeaves(p0: Probe, p: Probe, q: Probe)
    requires p.idx < LAST && Asking(p0, p, p.idx)
    requires CONTROLLED[p.idx] !in p0.supported || Version(p, CONTROLLED[p.idx]) != 0
    requires q == p.(idx := p.idx + 1, state := LastReport)
    ensures Asking(p0, q, q.idx)
  {
    assert Version(p, CONTROLLED[p.idx]) == Version(p0, CONTROLLED[p.idx]);
    assert Wanted(p0, p.idx + 1) == Wanted(p0, p.idx);
  }

  lemma {:induction false} SendLeaves(p0: Probe, p: Probe, ev: Ev, accept: bool)
    requires Flight(p0, p, ev) && p.state == SendCcGet
    ensures Leaves(p0, p, MicroSendCc(p, ev, accept), accept)
  {
    assert Version(p, CONTROLLED[p.idx]) == Version(p0, CONTROLLED[p.idx]);
    if CONTROLLED[p.idx] in p.supported && Version(p, CONTROLLED[p.idx]) == 0 {
      WantedQuiet(p0, p.idx);
      AskLeaves(p0, p.(requested := CONTROLLED[p.idx]), ForVersion, Asked(CONTROLLED[p.idx]), accept);
    } else {
      SkipLeaves(p0, p, p.(idx := p.idx + 1, state := LastReport));
    }
  }

  lemma {:induction false} LastLeaves(p0: Probe, p: Probe, ev: Ev, accept: bool)
    requires Flight(p0, p, ev) && p.state == LastReport
    ensures Leaves(p0, p, MicroLast(p, ev), accept)
  {
    assert CONTROLLED[p.idx] == SENTINEL <==> p.idx == LAST;
  }

  lemma {:induction false} DoneLeaves(p0: Probe, p: Probe, ev: Ev, accept: bool)
    requires Flight(p0, p, ev) && p.state == ProbeDone
    ensures Leaves(p0, p, MicroDone(p, ev), accept)
  {
  }

  lemma {:induction false} CapLeaves(p0: Probe, p: Probe, ev: Ev, accept: bool)
    requires Flight(p0, p, ev) && p.state == SendCapGet
    ensures Leaves(p0, p, Micro(p, ev, accept), accept)
  {
    if p.caps == 0 {
      WantedQuiet(p0, LAST);
      AskLeaves(p0, p, ForCap, AskedCap, accept);
    } else {
      assert Wanted(p0, LAST) + CapPart(p0, p) == Wanted(p0, LAST);
    }
  }

  lemma {:induction false} ZwsLeaves(p0: Probe, p: Probe, ev: Ev, accept: bool)
    requires Flight(p0, p, ev) && p.state == SendZwsGet
    ensures Leaves(p0, p, MicroZws(p, ev, accept), accept)
  {
    var l := Wanted(p0, LAST) + CapPart(p0, p);
    if HasZws(p.caps) && !p.zws {
      WantedQuiet(p0, LAST);
      AskLeaves(p0, p, ForZws, AskedZws, accept);
    } else {
      assert l + ZwsPart(p0, p) == l;
    }
  }

  lemma {:induction false} V3Leaves(p0: Probe, p: Probe, ev: Ev, accept: bool)
    requires Flight(p0, p, ev) && p.state == CheckIfV3
    ensures Leaves(p0, p, Micro(p, ev, accept), accept)
  {
    if !IsV3Node(p) {
      var l := Wanted(p0, LAST);
      assert l + CapPart(p0, p) + ZwsPart(p0, p) == l;
    }
  }

  lemma {:induction false} MicroLeaves(p0: Probe, p: Probe, ev: Ev, accept: bool)
    requires Flight(p0, p, ev)
    ensures InRange(p) && Leaves(p0, p, Micro(p, ev, accept), accept)
  {
    match p.state
    case SendCcGet => SendLeaves(p0, p, ev, accept);
    case CheckIfV3 => V3Leaves(p0, p, ev, accept);
    case SendCapGet => CapLeaves(p0, p, ev, accept);
    case SendZwsGet => ZwsLeaves(p0, p, ev, accept);
    case Idle =>
    case LastReport => LastLeaves(p0, p, ev, accept);
    case ProbeDone => DoneLeaves(p0, p, ev, accept);
  }

  // A posted event settles: the machine comes to rest, and hangs only if the request was refused.
  lemma {:induction false} PostSettles(p0: Probe, p: Probe, ev: Ev, accept: bool)
    requires Flight(p0, p, ev)
    ensures InRange(p)
    ensures Leaves(p0, p, (Post(p, ev, accept), None), accept)
    decreases if InRange(p) then Rank(p) else 0
  {
    MicroLeaves(p0, p, ev, accept);
    var (q, next) := Micro(p, ev, accept);
    if next.Some? { PostSettles(p0, q, next.value, accept); }
  }

  // ---------------------------------------------------------------- replies

  // A reply that the interview counts as a failure. The software report never is.
  predicate Bad(p: Probe, t: Turn) {
    (p.waiting == ForVersion && !GoodVersion(p, t)) || (p.waiting == ForCap && !t.ok)
  }

  // How many replies the interview can still wait for.
  function Pending(p: Probe): nat {
    match p.waiting
    case Nothing => 0
    case ForVersion => if p.idx < LAST then 2 + LAST - p.idx else 0
    case ForCap => 2
    case ForZws => 1
  }

  // What an answer leaves: the machine at rest, failed if it was or if the reply was bad.
  predicate Answered(p0: Probe, p: Probe, q: Probe, t: Turn) {
    && Rest(p0, q)
    && (t.accept && q.waiting == Nothing ==> Finished(p0, q))
    && (t.accept ==> (q.flags == Failed <==> p.flags == Failed || Bad(p, t)))
  }

  lemma {:induction false} GoodVersionLeaves(p0: Probe, p: Probe, t: Turn)
    requires Rest(p0, p) && p.waiting == ForVersion && GoodVersion(p, t)
    ensures Flight(p0, VersionNoted(p, t), CcReportRecv)
  {
    var q := VersionNoted(p, t);
    forall j | 0 <= j < LAST
      ensures Has(q.cache, CONTROLLED[j]) <==> Has(p0.cache, CONTROLLED[j])
      ensures j != p.idx ==> Version(q, CONTROLLED[j]) == Version(p, CONTROLLED[j])
    {
      SetThenGet(p.cache, p.requested, t.version, CONTROLLED[j]);
    }
    SetThenGet(p.cache, p.requested, t.version, p.requested);
  }

  lemma {:induction false} VersionAnswered(p0: Probe, p: Probe, t: Turn)
    requires Rest(p0, p) && p.waiting == ForVersion
    ensures Answered(p0, p, OnVersion(p, t), t)
  {
    if GoodVersion(p, t) { GoodVersionLeaves(p0, p, t); }
    PostSettles(p0, VersionNoted(p, t), if GoodVersion(p, t) then CcReportRecv else CcCallbackFail, t.accept);
  }

  lemma {:induction false} CapAnswered(p0: Probe, p: Probe, t: Turn)
    requires Rest(p0, p) && p.waiting == ForCap
    ensures Answered(p0, p, OnCap(p, t), t)
  {
    if t.ok {
      PostSettles(p0, p.(waiting := Nothing, caps := t.caps, state := SendZwsGet), CapReportRecv, t.accept);
    } else {
      var q := p.(waiting := Nothing, flags := Failed, state := ProbeDone);
      assert q.log + ZwsPart(p0, q) == q.log;
      PostSettles(p0, q, CapCallbackFail, t.accept);
    }
  }

  lemma {:induction false} ZwsAnswered(p0: Probe, p: Probe, t: Turn)
    requires Rest(p0, p) && p.waiting == ForZws
    ensures Answered(p0, p, OnZws(p, t), t)
  {
    if t.ok {
      PostSettles(p0, p.(waiting := Nothing, zws := true, state := ProbeDone), ZwsReportRecv, t.accept);
    } else {
      PostSettles(p0, p.(waiting := Nothing, state := ProbeDone), ZwsCallbackFail, t.accept);
    }
  }

  lemma {:induction false} AnswerSettles(p0: Probe, p: Probe, t: Turn)
    requires Rest(p0, p) && p.waiting != Nothing
    ensures Well(p) && Answered(p0, p, Answer(p, t), t)
  {
    match p.waiting
    case ForVersion => VersionAnswered(p0, p, t);
    case ForCap => CapAnswered(p0, p, t);
    case ForZws => ZwsAnswered(p0, p, t);
  }

  // ---------------------------------------------------------------- termination

  // The replies that may still be waited for once the event in flight has settled.
  function Ahead(p: Probe): nat
    requires InRange(p)
  {
    match p.state
    case Idle => 2 + LAST
    case SendCcGet => 2 + LAST - p.idx
    case LastReport => 2 + LAST - p.idx
    case CheckIfV3 => 2
    case SendCapGet => 2
    case SendZwsGet => 1
    case ProbeDone => 0
  }

  lemma {:induction false} AskingAhead(p: Probe, ev: Ev, accept: bool)
    requires InRange(p) && p.waiting == Nothing && (p.state == SendCcGet || p.state == LastReport)
    ensures var (q, next) := Micro(p, ev, accept);
      (next.None? ==> Pending(q) <= Ahead(p)) && (next.Some? ==> Ahead(q) <= Ahead(p))
  {
  }

  lemma {:induction false} MicroAhead(p: Probe, ev: Ev, accept: bool)
    requires InRange(p) && p.waiting == Nothing
    ensures var (q, next) := Micro(p, ev, accept);
      (next.None? ==> Pending(q) <= Ahead(p)) && (next.Some? ==> Ahead(q) <= Ahead(p))
  {
    if p.state == SendCcGet || p.state == LastReport { AskingAhead(p, ev, accept); }
  }

  lemma {:induction false} PostAhead(p: Probe, ev: Ev, accept: bool)
    requires InRange(p) && p.waiting == Nothing
    ensures Pending(Post(p, ev, accept)) <= Ahead(p)
    decreases Rank(p)
  {
    MicroAhead(p, ev, accept);
    var (q, next) := Micro(p, ev, accept);
    if next.Some? { PostAhead(q, next.value, accept); }
  }

  // Every reply brings the end nearer.
  lemma {:induction false} AnswerDescends(p: Probe, t: Turn)
    requires Well(p) && p.waiting != Nothing
    ensures Pending(Answer(p, t)) < Pending(p)
  {
    match p.waiting
    case ForVersion =>
      PostAhead(VersionNoted(p, t), if GoodVersion(p, t) then CcReportRecv else CcCallbackFail, t.accept);
    case ForCap =>
      if t.ok { PostAhead(p.(waiting := Nothing, caps := t.caps, state := SendZwsGet), CapReportRecv, t.accept); }
      else { PostAhead(p.(waiting := Nothing, flags := Failed, state := ProbeDone), CapCallbackFail, t.accept); }
    case ForZws =>
      if t.ok { PostAhead(p.(waiting := Nothing, zws := true, state := ProbeDone), ZwsReportRecv, t.accept); }
      else { PostAhead(p.(waiting := Nothing, state := ProbeDone), ZwsCallbackFail, t.accept); }
  }

  lemma {:induction false} DriveEnds(p: Probe, ts: seq<Turn>)
    requires Well(p) && |ts| >= Pending(p)
    ensures Drive(p, ts).waiting == Nothing
    decreases |ts|
  {
    if ts != [] {
      if p.waiting != Nothing { AnswerDescends(p, ts[0]); }
      DriveEnds(Answer(p, ts[0]), ts[1..]);
    }
  }

  // ---------------------------------------------------------------- whole interviews

  // Some reply that the interview waited for was bad.
  predicate AnyBad(p: Probe, ts: seq<Turn>)
    requires Well(p)
    decreases |ts|
  {
    ts != [] && (Bad(p, ts[0]) || AnyBad(Answer(p, ts[0]), ts[1..]))
  }

  lemma {:induction false} DriveRests(p0: Probe, p: Probe, ts: seq<Turn>)
    requires Rest(p0, p) && Well(p)
    ensures Rest(p0, Drive(p, ts))
    decreases |ts|
  {
    if ts != [] {
      if p.waiting != Nothing { AnswerSettles(p0, p, ts[0]); }
      DriveRests(p0, Answer(p, ts[0]), ts[1..]);
    }
  }

  // With every request accepted: the interview never hangs, and fails exactly on a bad reply.
  lemma {:induction false} AcceptedDrive(p0: Probe, p: Probe, ts: seq<Turn>)
    requires Rest(p0, p) && Well(p) && (p.waiting == Nothing ==> Finished(p0, p))
    requires forall i :: 0 <= i < |ts| ==> ts[i].accept
    ensures var q := Drive(p, ts);
      && Rest(p0, q) && (q.waiting == Nothing ==> Finished(p0, q))
      && (q.flags == Failed <==> p.flags == Failed || AnyBad(p, ts))
    decreases |ts|
  {
    if ts != [] {
      if p.waiting != Nothing { AnswerSettles(p0, p, ts[0]); }
      AcceptedDrive(p0, Answer(p, ts[0]), ts[1..]);
    }
  }

  predicate Fresh(p0: Probe) { p0.log == [] && p0.waiting == Nothing }

  lemma {:induction false} BeginSettles(p0: Probe, accept: bool)
    requires Fresh(p0)
    ensures var q := Begin(p0, false, accept);
      && Rest(p0, q) && Pending(q) <= 2 + LAST
      && (accept ==> q.flags != Failed && (q.waiting == Nothing ==> Finished(p0, q)))
  {
    var p := p0.(flags := Started, state := Idle);
    PostSettles(p0, p, Initial, accept);
    PostAhead(p, Initial, accept);
  }

  /** If every request is accepted and every request is answered or given up, the interview ends
      after at most nine replies. It has asked for each supported class of unknown version once, in
      table order, then for capabilities and software exactly where the versions call for it, and
      called the callback once, last, with status 0 if and only if no version or capability reply
      was bad. After status 0 every supported controlled class has a nonzero version if and only if
      the cache can hold one for each: the node is not deleted and has the entries. */
  lemma {:induction false} InterviewCompletes(p0: Probe, ts: seq<Turn>)
    requires Fresh(p0) && |ts| >= 2 + LAST
    requires forall i :: 0 <= i < |ts| ==> ts[i].accept
    ensures var b := Begin(p0, false, true); var q := Drive(b, ts); var status := if AnyBad(b, ts) then 1 else 0;
      && q.waiting == Nothing
      && q.log == Wanted(p0, LAST) + CapPart(p0, q) + ZwsPart(p0, q) + [Called(status)]
      && (status == 0 ==> (AllKnown(p0, q) <==> AllCached(p0)))
  {
    var b := Begin(p0, false, true);
    BeginSettles(p0, true);
    AcceptedDrive(p0, b, ts);
    DriveEnds(b, ts);
    var q := Drive(b, ts);
    forall j | 0 <= j < LAST && !Cached(p0, j) ensures Version(q, CONTROLLED[j]) == 0 {
      assert Has(q.cache, CONTROLLED[j]) <==> Has(p0.cache, CONTROLLED[j]);
      if !Has(q.cache, CONTROLLED[j]) { MissingIsZero(q.cache, CONTROLLED[j]); }
    }
  }

  lemma {:induction false} MissingIsZero(cache: seq<Pair>, cls: int)
    requires !Has(cache, cls)
    ensures CacheGet(cache, cls) == 0
  {
    if cache != [] {
      HasHead(cache, cls);
      MissingIsZero(cache[1..], cls);
    }
  }

  function Calls(log: seq<Did>): nat {
    if log == [] then 0 else (if log[0].Called? then 1 else 0) + Calls(log[1..])
  }

  lemma {:induction false} QuietNoCalls(log: seq<Did>)
    requires forall i :: 0 <= i < |log| ==> !log[i].Called?
    ensures Calls(log) == 0
  {
    if log != [] { QuietNoCalls(log[1..]); }
  }

  lemma {:induction false} CallsAppend(log: seq<Did>, d: Did)
    ensures Calls(log + [d]) == Calls(log) + if d.Called? then 1 else 0
  {
    if log == [] {
      assert log + [d] == [d];
    } else {
      CallsAppend(log[1..], d);
      assert (log + [d])[1..] == log[1..] + [d];
    }
  }

  /** Whatever is refused and however the node answers, an interview that has come to its end has
      called its callback once or not at all: not at all if and only if a request was refused. */
  lemma {:induction false} CalledUnlessRefused(p0: Probe, accept: bool, ts: seq<Turn>)
    requires Fresh(p0) && |ts| >= 2 + LAST
    ensures var q := Drive(Begin(p0, false, accept), ts);
      && Calls(q.log) == (if Refused in q.log then 0 else 1)
      && (Refused in q.log ==> Hung(q))
  {
    var b := Begin(p0, false, accept);
    BeginSettles(p0, accept);
    DriveRests(p0, b, ts);
    DriveEnds(b, ts);
    var q := Drive(b, ts);
    if Finished(p0, q) { FinishedQuiet(p0, q); }
    CallsInLast(q.log);
  }

  lemma {:induction false} FinishedQuiet(p0: Probe, q: Probe)
    requires Finished(p0, q)
    ensures q.log != [] && q.log[|q.log| - 1].Called? && Quiet(q.log[..|q.log| - 1])
  {
    WantedQuiet(p0, LAST);
    assert q.log[..|q.log| - 1] == Wanted(p0, LAST) + CapPart(p0, q) + ZwsPart(p0, q);
  }

  lemma {:induction false} CallsInLast(log: seq<Did>)
    requires log != [] && Quiet(log[..|log| - 1])
    ensures Calls(log) == if log[|log| - 1].Called? then 1 else 0
    ensures Refused in log <==> log[|log| - 1] == Refused
  {
    var l := log[..|log| - 1];
    assert log == l + [log[|log| - 1]];
    QuietNoCalls(l);
    CallsAppend(l, log[|log| - 1]);
  }

  // The gateway does not interview itself: one call with status 0 and nothing asked.
  lemma {:induction false} GatewayIsNotAsked(p0: Probe, accept: bool, ts: seq<Turn>)
    requires Fresh(p0)
    ensures Drive(Begin(p0, true, accept), ts).log == [Called(0)]
    ensures Drive(Begin(p0, true, accept), ts).cache == p0.cache
  {
    IdleDrive(Begin(p0, true, accept), ts);
  }

  lemma {:induction false} IdleDrive(p: Probe, ts: seq<Turn>)
    requires p.waiting == Nothing
    ensures Drive(p, ts) == p
    decreases |ts|
  {
    if ts != [] { IdleDrive(p, ts[1..]); }
  }
}
