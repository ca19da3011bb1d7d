/** The node-adding part of the network-management machine (src/CC_NetworkManagement.c): classic,
    S2, Smart Start, proxy and replace-failed inclusion, the lock on the interview of new nodes that
    it takes, and the removal of a Smart Start node whose bootstrapping failed. */
module NmAdd {

  datatype State =
    | Idle | WaitingForAdd | NodeFound | WaitForProtocol | ReplaceReq | ProxyWaitNif
    | PrepareSuc | WaitSuc | SecureAdd | NeighborUpdate | ProbeAfterAdd | WaitDhcp
    | SelfDestruct | SelfDestructRetry | TxSelfDestruct | TxSelfDestructRetry | Removal | RemovalRetry

  datatype Status = Failed | SecurityFailed | Done

  // NMS_FLAG_S2_ADD, NMS_FLAG_SMART_START_INCLUSION, NMS_FLAG_PROXY_INCLUSION
  datatype Flags = Flags(s2: bool, smart: bool, proxy: bool)

  // networkUpdateStatusFlags
  datatype Updates = Updates(dhcp: bool, probed: bool, virtualNodes: bool, disabled: bool)

  // What the outside sees.
  datatype Entry =
    | Session(smart: bool)      // an inclusion begins
    | S2Begin | S0Begin | YouDoIt
    | Result(bad: bool)         // the outcome of bootstrapping; `bad` is NODE_FLAG_KNOWN_BAD
    | DskGiven                  // the DSK of the node is known: from the list, the node or the client
    | StoreDsk
    | Attempt                   // ZW_RemoveFailedNode is asked to remove the node
    | Removed | NotRemoved      // and its answer
    | Report(status: Status)    // the status frame to the client
    | Closed                    // ResetState
    | UpdateReply               // a reply set off by the network-update flags

  // The entries so far, the latest outermost.
  datatype History = Nothing | Then(before: History, latest: Entry)

  // `pending` counts replies whose delivery has not been confirmed: each confirmation resets the
  // machine.
  datatype Nm = Nm(
    state: State, flags: Flags, replace: bool, status: Status, dskValid: bool, delay: bool,
    lock: bool, updates: Updates, pending: nat, log: History)

  // What the gateway knows about the node and its own keys when bootstrapping starts.
  datatype Node = Node(
    known: bool, cachedBad: bool, cachedS2: bool, handOver: bool,
    gatewayS2: bool, nodeS2: bool, gatewayS0: bool, nodeS0: bool)

  datatype Event =
    | Add(s2: bool)
    | SmartStart(listed: bool)          // `listed`: the home id is in the provisioning list
    | SmartStartReject
    | Replace(s2: bool, started: bool)
    | ReplaceStop
    | ReplaceFailed
    | ReplaceDone(node: Node)
    | Proxy(replacing: bool)
    | NodeInfo(valid: bool, node: Node)
    | AddStop
    | Found
    | Adding(valid: bool)               // `valid`: node info present, id neither zero nor virtual
    | AddFailed
    | NotPrimary
    | ProtocolDone
    | FlirsSkipped
    | StatusDone(node: Node)
    | SecurityDone(bad: bool, s2: bool)
    | KeyChallenge(matched: bool)       // `matched`: the DSK is in the list, or may be dynamic
    | DskSet(fits: bool)
    | HandOverDone(s2: bool)
    | NeighborsDone
    | ProbeDone(mine: bool, hasIp: bool)
    | DhcpDone(mine: bool)
    | TxDone(started: bool)             // `started`: the controller takes up the removal
    | RemoveOk
    | RemoveFail
    | Timeout
    | Update(dhcp: bool, probed: bool, allHaveIp: bool, bridgeUp: bool)
    | Delivered                         // a pending reply is confirmed

  const NO_FLAGS := Flags(false, false, false)

  // ---------------------------------------------------------------- pieces

  function Log(p: Nm, e: Entry): Nm { p.(log := Then(p.log, e)) }

  function Reset(p: Nm): Nm {
    Log(p.(state := Idle, flags := NO_FLAGS, updates := Updates(false, false, false, true)), Closed)
  }

  // The label send_reply: a Smart Start reply resets at once, another when it is confirmed.
  function Reply(p: Nm, late: bool): Nm {
    var q := Log(p, Report(p.status));
    if p.flags.smart || !late then Reset(q) else q.(pending := q.pending + 1)
  }

  function Open(p: Nm, state: State, flags: Flags, replace: bool): Nm {
    Log(p.(state := state, flags := flags, replace := replace, status := Failed), Session(flags.smart))
  }

  // NM_EV_SECURITY_DONE and NM_NODE_ADD_STOP while the node is being added securely.
  function Secured(p: Nm, bad: bool, s2: bool): Nm {
    var q := Log(p.(status := if bad then SecurityFailed else Done), Result(bad));
    if p.flags.smart && bad then q.(state := SelfDestruct)
    else
      var r := if p.dskValid && (p.flags.smart || (s2 && !bad)) then Log(q, StoreDsk) else q;
      if p.delay then r.(state := NeighborUpdate, delay := false)
      else r.(state := ProbeAfterAdd, lock := false)
  }

  // Bootstrapping starts with the interview locked.
  function Bootstrap(p: Nm, n: Node): Nm {
    if n.handOver then p.(state := PrepareSuc)
    else if p.flags.s2 && n.gatewayS2 && (n.nodeS2 || p.flags.smart) then Log(p, S2Begin)
    else if n.gatewayS0 && n.nodeS0 then
      if p.flags.proxy then Log(p, YouDoIt) else if !p.flags.smart then Log(p, S0Begin) else p
    else Secured(p, false, false)
  }

  function OnStatusDone(p: Nm, n: Node): Nm {
    var q := p.(state := SecureAdd);
    if n.known && !p.flags.proxy then Secured(q.(dskValid := false), n.cachedBad, n.cachedS2)
    else Bootstrap(q.(lock := true), n)
  }

  function OnReplaceDone(p: Nm, n: Node): Nm {
    var q := p.(state := SecureAdd, lock := true);
    if n.handOver then q.(state := PrepareSuc)
    else if p.flags.s2 && n.nodeS2 then Log(q, S2Begin)
    else if n.nodeS0 && p.flags.proxy then Log(q, YouDoIt)
    else if n.nodeS0 && !p.flags.smart then Log(q, S0Begin)
    else Secured(q, false, false)
  }

  function GiveUp(p: Nm, late: bool): Nm {
    Reply(p.(status := Failed, lock := false), late)
  }

  // NM_EV_REMOVE_FAILED_OK and NM_EV_REMOVE_FAILED_FAIL
  function OnRemoved(p: Nm): Nm {
    Reset(Log(Log(p, Removed).(status := Failed), Report(Failed))).(lock := false)
  }

  function OnNotRemoved(p: Nm): Nm {
    var q := Log(p, NotRemoved);
    if p.state == Removal then q.(state := SelfDestructRetry)
    else Reset(Log(q.(status := SecurityFailed, lock := false), Report(SecurityFailed)))
  }

  // ---------------------------------------------------------------- the machine, state by state

  function OnIdle(p: Nm, e: Event, late: bool): Nm {
    match e
    case Add(s2) => Open(p, WaitingForAdd, if s2 then Flags(true, false, false) else p.flags, false).(dskValid := false)
    case SmartStart(listed) =>
      if listed then Open(p, WaitingForAdd, Flags(true, true, false), false).(dskValid := false) else p
    case SmartStartReject => Reset(p)
    case Replace(s2, started) =>
      var q := Open(p, ReplaceReq, if s2 then Flags(true, false, false) else p.flags, true);
      if started then q else Reply(q, late)
    case ReplaceStop => Reply(Open(p, ReplaceReq, p.flags, true), late)
    case AddStop => Reply(p.(status := Failed), late)
    case Proxy(replacing) => p.(state := ProxyWaitNif, replace := replacing)
    case _ => p
  }

  // The reply comes before the flags are looked at again: a virtual id is a failure.
  function OnAdding(p: Nm, valid: bool, late: bool): Nm {
    if valid then p.(state := WaitForProtocol) else GiveUp(p, late)
  }

  function OnProtocol(p: Nm, e: Event, late: bool): Nm {
    match e
    case FlirsSkipped => p.(delay := true)
    case StatusDone(n) => OnStatusDone(p, n)
    case Timeout => GiveUp(p, late)
    case AddFailed => GiveUp(p, late)
    case NotPrimary => GiveUp(p, late)
    case _ => p
  }

  function OnProxyNif(p: Nm, e: Event, late: bool): Nm {
    match e
    case Timeout => p.(state := Idle)
    case NodeInfo(valid, n) =>
      if p.replace then OnReplaceDone(Open(p, ReplaceReq, Flags(true, false, true), true), n)
      else
        var q := OnAdding(Open(p, NodeFound, Flags(true, false, true), false), valid, late);
        if q.state == WaitForProtocol then OnStatusDone(q, n) else q
    case _ => p
  }

  function OnSecureAdd(p: Nm, e: Event): Nm {
    match e
    case SecurityDone(bad, s2) => Secured(p, bad, s2)
    case AddStop => Secured(p, true, false)
    case Timeout => Secured(p, true, false)
    case KeyChallenge(matched) =>
      if matched then Log(p.(dskValid := true), DskGiven) else if p.flags.smart then p.(dskValid := false) else p
    case DskSet(fits) => if fits then Log(p.(dskValid := true), DskGiven) else p
    case _ => p
  }

  function OnSelfDestruct(p: Nm, e: Event): Nm {
    match e
    case Timeout => p.(state := if p.state == SelfDestruct then TxSelfDestruct else TxSelfDestructRetry)
    case _ => p
  }

  function OnTx(p: Nm, e: Event): Nm {
    match e
    case TxDone(started) =>
      var q := Log(p.(state := if p.state == TxSelfDestruct then Removal else RemovalRetry), Attempt);
      if started then q else OnNotRemoved(q)
    case _ => p
  }

  function OnRemoval(p: Nm, e: Event): Nm {
    match e
    case RemoveOk => OnRemoved(p)
    case RemoveFail => OnNotRemoved(p)
    case Timeout => Reset(p.(lock := false))
    case _ => p
  }

  function OnReplaceReq(p: Nm, e: Event, late: bool): Nm {
    if e.ReplaceDone? then OnReplaceDone(p, e.node)
    else if e.Timeout? || e.ReplaceStop? || e.ReplaceFailed? then Reply(p, late) else p
  }

  function OnWaitingForAdd(p: Nm, e: Event, late: bool): Nm {
    if e.AddStop? || e.Timeout? then Reply(p.(status := Failed), late)
    else if e.Found? then p.(state := NodeFound) else p
  }

  function OnNodeFound(p: Nm, e: Event, late: bool): Nm {
    if e.Adding? then OnAdding(p, e.valid, late)
    else if e.AddFailed? || e.Timeout? then GiveUp(p, late) else p
  }

  // The inclusion is handed to the SUC: prepared, then waited for.
  function OnHandOver(p: Nm, e: Event): Nm {
    if p.state == PrepareSuc && e.Timeout? then p.(state := WaitSuc)
    else if p.state == WaitSuc && e.HandOverDone? then Secured(p.(state := SecureAdd), false, e.s2) else p
  }

  // The delayed neighbour search, the interview, the address.
  function OnAfter(p: Nm, e: Event, late: bool): Nm {
    match p.state
    case NeighborUpdate => if e.NeighborsDone? || e.Timeout? then p.(state := ProbeAfterAdd, lock := false) else p
    case ProbeAfterAdd =>
      if e.ProbeDone? && e.mine then if e.hasIp then Reply(p, late) else p.(state := WaitDhcp) else p
    case _ => if (e.DhcpDone? && e.mine) || e.Timeout? then Reply(p, late) else p
  }

  function OnState(p: Nm, e: Event, late: bool): Nm {
    match p.state
    case Idle => OnIdle(p, e, late)
    case ReplaceReq => OnReplaceReq(p, e, late)
    case WaitingForAdd => OnWaitingForAdd(p, e, late)
    case NodeFound => OnNodeFound(p, e, late)
    case WaitForProtocol => OnProtocol(p, e, late)
    case ProxyWaitNif => OnProxyNif(p, e, late)
    case PrepareSuc => OnHandOver(p, e)
    case WaitSuc => OnHandOver(p, e)
    case SecureAdd => OnSecureAdd(p, e)
    case NeighborUpdate => OnAfter(p, e, late)
    case ProbeAfterAdd => OnAfter(p, e, late)
    case WaitDhcp => OnAfter(p, e, late)
    case SelfDestruct => OnSelfDestruct(p, e)
    case SelfDestructRetry => OnSelfDestruct(p, e)
    case TxSelfDestruct => OnTx(p, e)
    case TxSelfDestructRetry => OnTx(p, e)
    case Removal => OnRemoval(p, e)
    case RemovalRetry => OnRemoval(p, e)
  }

  // NetworkManagement_NetworkUpdateStatusUpdate: a reply once exactly the three bits are set.
  function OnUpdate(p: Nm, dhcp: bool, probed: bool, allHaveIp: bool, bridgeUp: bool, late: bool): Nm {
    var u := Updates(p.updates.dhcp || dhcp || allHaveIp, p.updates.probed || probed,
                     p.updates.virtualNodes || bridgeUp, p.updates.disabled);
    var q := p.(updates := u);
    if u == Updates(true, true, true, false) then
      var r := Log(q, UpdateReply);
      if late then r.(pending := r.pending + 1) else Reset(r)
    else q
  }

  // `late`: a reply sent in this step is confirmed later, if ever: the client's DTLS session is not up
  // yet.
  function Step(p: Nm, e: Event, late: bool): Nm {
    match e
    case Update(d, pr, ip, up) => OnUpdate(p, d, pr, ip, up, late)
    case Delivered => if p.pending > 0 then Reset(p.(pending := p.pending - 1)) else p
    case _ => OnState(p, e, late)
  }

  datatype Input = Input(event: Event, late: bool)

  function Run(p: Nm, es: seq<Input>): Nm
    decreases |es|
  {
    if es == [] then p else Run(Step(p, es[0].event, es[0].late), es[1..])
  }

  // The machine after a reset: idle, interviews unlocked, no reply outstanding.
  predicate IsReset(p: Nm) {
    && p.state == Idle && p.flags == NO_FLAGS && !p.lock && p.pending == 0
    && p.updates == Updates(false, false, false, true) && p.log == Nothing
  }

  // ---------------------------------------------------------------- the interview lock

  // The states between taking the lock and giving it back.
  predicate Holding(s: State) {
    s.PrepareSuc? || s.WaitSuc? || s.SecureAdd? || s.NeighborUpdate? || Destruct(s)
  }

  // The states that remove a Smart Start node whose bootstrapping failed.
  predicate Destruct(s: State) {
    || s.SelfDestruct? || s.SelfDestructRetry? || s.TxSelfDestruct? || s.TxSelfDestructRetry?
    || s.Removal? || s.RemovalRetry?
  }

  // The states after a good result, or a bad one without Smart Start.
  predicate After(s: State) { s.NeighborUpdate? || s.ProbeAfterAdd? || s.WaitDhcp? }

  predicate LockOk(p: Nm) { p.lock ==> Holding(p.state) }

  // While a node is being bootstrapped or handed over, its interview is locked.
  predicate Guarded(p: Nm) { p.state.PrepareSuc? || p.state.WaitSuc? || p.state.SecureAdd? ==> p.lock }

  // The confirmation of an earlier reply resets the machine while it holds the lock.
  predicate Overtaken(p: Nm, e: Event) { e.Delivered? && p.pending > 0 && p.lock }

  // What every reaction leaves alone: the lock's discipline, the disabled bit, and the number of
  // outstanding replies unless it sends one.
  predicate Keeps(p: Nm, q: Nm, late: bool) {
    && (LockOk(p) ==> LockOk(q))
    && (Guarded(p) ==> Guarded(q))
    && (p.updates.disabled ==> q.updates.disabled)
    && (!late ==> q.pending == p.pending)
  }

  lemma {:induction false} SecuredKeeps(p: Nm, bad: bool, s2: bool)
    requires p.state == SecureAdd
    ensures Keeps(p, Secured(p, bad, s2), false)
  {
  }

  lemma {:induction false} BootstrapKeeps(p: Nm, n: Node)
    requires p.state == SecureAdd
    ensures Keeps(p, Bootstrap(p, n), false)
  {
    SecuredKeeps(p, false, false);
  }

  lemma {:induction false} StatusDoneKeeps(p: Nm, n: Node, late: bool)
    requires p.state == WaitForProtocol
    ensures Keeps(p, OnStatusDone(p, n), late)
  {
    SecuredKeeps(p.(state := SecureAdd, dskValid := false), n.cachedBad, n.cachedS2);
    BootstrapKeeps(p.(state := SecureAdd, lock := true), n);
  }

  lemma {:induction false} ReplaceDoneKeeps(p: Nm, n: Node, late: bool)
    ensures Keeps(p, OnReplaceDone(p, n), late)
  {
    SecuredKeeps(p.(state := SecureAdd, lock := true), false, false);
  }

  lemma {:induction false} IdleKeeps(p: Nm, e: Event, late: bool)
    requires p.state == Idle
    ensures Keeps(p, OnIdle(p, e, late), late)
  {
  }

  lemma {:induction false} ProtocolKeeps(p: Nm, e: Event, late: bool)
    requires p.state == WaitForProtocol
    ensures Keeps(p, OnProtocol(p, e, late), late)
  {
    if e.StatusDone? { StatusDoneKeeps(p, e.node, late); }
  }

  lemma {:induction false} ProxyKeeps(p: Nm, e: Event, late: bool)
    requires p.state == ProxyWaitNif
    ensures Keeps(p, OnProxyNif(p, e, late), late)
  {
    if e.NodeInfo? {
      if p.replace {
        ReplaceDoneKeeps(Open(p, ReplaceReq, Flags(true, false, true), true), e.node, late);
      } else {
        var q := OnAdding(Open(p, NodeFound, Flags(true, false, true), false), e.valid, late);
        if q.state == WaitForProtocol { StatusDoneKeeps(q, e.node, late); }
      }
    }
  }

  lemma {:induction false} ReplaceReqKeeps(p: Nm, e: Event, late: bool)
    requires p.state == ReplaceReq
    ensures Keeps(p, OnReplaceReq(p, e, late), late)
  {
    if e.ReplaceDone? { ReplaceDoneKeeps(p, e.node, late); }
  }

  lemma {:induction false} WaitingForAddKeeps(p: Nm, e: Event, late: bool)
    requires p.state == WaitingForAdd
    ensures Keeps(p, OnWaitingForAdd(p, e, late), late)
  {
  }

  lemma {:induction false} NodeFoundKeeps(p: Nm, e: Event, late: bool)
    requires p.state == NodeFound
    ensures Keeps(p, OnNodeFound(p, e, late), late)
  {
  }

  lemma {:induction false} HandOverKeeps(p: Nm, e: Event, late: bool)
    requires p.state == PrepareSuc || p.state == WaitSuc
    ensures Keeps(p, OnHandOver(p, e), late)
  {
    if e.HandOverDone? { SecuredKeeps(p.(state := SecureAdd), false, e.s2); }
  }

  lemma {:induction false} SecureAddKeeps(p: Nm, e: Event, late: bool)
    requires p.state == SecureAdd
    ensures Keeps(p, OnSecureAdd(p, e), late)
  {
    if e.SecurityDone? { SecuredKeeps(p, e.bad, e.s2); } else { SecuredKeeps(p, true, false); }
  }

  lemma {:induction false} AfterKeeps(p: Nm, e: Event, late: bool)
    requires After(p.state)
    ensures Keeps(p, OnAfter(p, e, late), late)
  {
  }

  lemma {:induction false} SelfDestructKeeps(p: Nm, e: Event, late: bool)
    requires p.state == SelfDestruct || p.state == SelfDestructRetry
    ensures Keeps(p, OnSelfDestruct(p, e), late)
  {
  }

  lemma {:induction false} TxKeeps(p: Nm, e: Event, late: bool)
    requires p.state == TxSelfDestruct || p.state == TxSelfDestructRetry
    ensures Keeps(p, OnTx(p, e), late)
  {
  }

  lemma {:induction false} RemovalKeeps(p: Nm, e: Event, late: bool)
    requires p.state == Removal || p.state == RemovalRetry
    ensures Keeps(p, OnRemoval(p, e), late)
  {
  }

  lemma {:induction false} DestructKeeps(p: Nm, e: Event, late: bool)
    requires Destruct(p.state)
    ensures Keeps(p, OnState(p, e, late), late)
  {
    if p.state == SelfDestruct || p.state == SelfDestructRetry { SelfDestructKeeps(p, e, late); }
    else if p.state == TxSelfDestruct || p.state == TxSelfDestructRetry { TxKeeps(p, e, late); }
    else { RemovalKeeps(p, e, late); }
  }

  lemma {:induction false} LookingKeeps(p: Nm, e: Event, late: bool)
    requires p.state == ReplaceReq || p.state == WaitingForAdd || p.state == NodeFound
    ensures Keeps(p, OnState(p, e, late), late)
  {
    if p.state == ReplaceReq { ReplaceReqKeeps(p, e, late); }
    else if p.state == WaitingForAdd { WaitingForAddKeeps(p, e, late); }
    else { NodeFoundKeeps(p, e, late); }
  }

  lemma {:induction false} StateKeeps(p: Nm, e: Event, late: bool)
    ensures Keeps(p, OnState(p, e, late), late)
  {
    if Destruct(p.state) { DestructKeeps(p, e, late); }
    else if After(p.state) { AfterKeeps(p, e, late); }
    else if p.state == Idle { IdleKeeps(p, e, late); }
    else if p.state == WaitForProtocol { ProtocolKeeps(p, e, late); }
    else if p.state == ProxyWaitNif { ProxyKeeps(p, e, late); }
    else if p.state == PrepareSuc || p.state == WaitSuc { HandOverKeeps(p, e, late); }
    else if p.state == SecureAdd { SecureAddKeeps(p, e, late); }
    else { LookingKeeps(p, e, late); }
  }

  /** The exact condition for one step: the lock is held only where the machine will give it back,
      unless the confirmation of an earlier reply overtakes an inclusion that holds it. */
  lemma {:induction false} StepLockIff(p: Nm, e: Event, late: bool)
    requires LockOk(p) && p.updates.disabled
    ensures LockOk(Step(p, e, late)) <==> !Overtaken(p, e)
    ensures Step(p, e, late).updates.disabled
  {
    if !e.Update? && !e.Delivered? { StateKeeps(p, e, late); }
  }

  lemma {:induction false} StepIsGuarded(p: Nm, e: Event, late: bool)
    requires Guarded(p)
    ensures Guarded(Step(p, e, late))
  {
    if !e.Update? && !e.Delivered? { StateKeeps(p, e, late); }
  }

  /** In every run, late confirmations or not, bootstrapping and hand-over go on only with the
      interview locked. */
  lemma {:induction false} BootstrapIsGuarded(p: Nm, es: seq<Input>)
    requires Guarded(p)
    ensures Guarded(Run(p, es))
    decreases |es|
  {
    if es != [] {
      StepIsGuarded(p, es[0].event, es[0].late);
      BootstrapIsGuarded(Step(p, es[0].event, es[0].late), es[1..]);
    }
  }

  predicate LockOkThroughout(p: Nm, es: seq<Input>)
    decreases |es|
  {
    LockOk(p) && (es == [] || LockOkThroughout(Step(p, es[0].event, es[0].late), es[1..]))
  }

  predicate NeverOvertaken(p: Nm, es: seq<Input>)
    decreases |es|
  {
    es == [] || (!Overtaken(p, es[0].event) && NeverOvertaken(Step(p, es[0].event, es[0].late), es[1..]))
  }

  /** Over whole runs: in every state, in particular whenever the machine is idle, the lock is
      released if and only if no confirmation ever overtook an inclusion that held it. */
  lemma {:induction false} LockReleasedIff(p: Nm, es: seq<Input>)
    requires LockOk(p) && p.updates.disabled
    ensures LockOkThroughout(p, es) <==> NeverOvertaken(p, es)
    decreases |es|
  {
    if es != [] {
      var q := Step(p, es[0].event, es[0].late);
      StepLockIff(p, es[0].event, es[0].late);
      if !Overtaken(p, es[0].event) { LockReleasedIff(q, es[1..]); } else { NotThroughout(q, es[1..]); }
    }
  }

  lemma {:induction false} NotThroughout(p: Nm, es: seq<Input>)
    requires !LockOk(p)
    ensures !LockOkThroughout(p, es)
  {
  }

  /** Replies over plain UDP are confirmed at once: then idle always means unlocked. */
  lemma {:induction false} PromptRepliesReleaseLock(p: Nm, es: seq<Input>)
    requires LockOk(p) && p.updates.disabled && p.pending == 0 && forall i :: 0 <= i < |es| ==> !es[i].late
    ensures LockOk(Run(p, es)) && Run(p, es).pending == 0
    decreases |es|
  {
    if es != [] {
      StepLockIff(p, es[0].event, false);
      if !es[0].event.Update? && !es[0].event.Delivered? { StateKeeps(p, es[0].event, false); }
      PromptRepliesReleaseLock(Step(p, es[0].event, false), es[1..]);
    }
  }

  /** A late confirmation can leave the lock behind: a stop that finds the machine idle is answered and
      leaves it idle, a new inclusion begins and takes the lock, and the confirmation of the answer
      returns the machine to idle. */
  lemma {:induction false} LateConfirmationLeavesLock(p: Nm, n: Node)
    requires IsReset(p) && !n.known && n.handOver
    ensures var q := Run(p, [Input(AddStop, true), Input(Add(false), false), Input(Found, false),
                             Input(Adding(true), false), Input(StatusDone(n), false), Input(Delivered, false)]);
      q.state == Idle && q.lock
  {
    var p1 := Step(p, AddStop, true);
    assert p1.state == Idle && p1.pending == 1 && p1.flags == NO_FLAGS;
    OvertakenInclusion(p1, n);
    RunSix(p, Input(AddStop, true), Input(Add(false), false), Input(Found, false),
           Input(Adding(true), false), Input(StatusDone(n), false), Input(Delivered, false));
  }

  // An inclusion that begins while a reply is still to be confirmed.
  lemma {:induction false} OvertakenInclusion(p: Nm, n: Node)
    requires p.state == Idle && p.pending == 1 && p.flags == NO_FLAGS && !n.known && n.handOver
    ensures var p4 := Step(Step(Step(p, Add(false), false), Found, false), Adding(true), false);
            var q := Step(Step(p4, StatusDone(n), false), Delivered, false);
      q.state == Idle && q.lock
  {
    var p4 := Step(Step(Step(p, Add(false), false), Found, false), Adding(true), false);
    assert p4.state == WaitForProtocol && p4.pending == 1;
    var p5 := Step(p4, StatusDone(n), false);
    assert p5.lock && p5.pending == 1;
  }

  lemma {:induction false} RunCons(p: Nm, i: Input, es: seq<Input>)
    ensures Run(p, [i] + es) == Run(Step(p, i.event, i.late), es)
  {
    assert ([i] + es)[1..] == es;
  }

  lemma {:induction false} RunSix(p: Nm, a: Input, b: Input, c: Input, d: Input, e: Input, f: Input)
    ensures Run(p, [a, b, c, d, e, f]) ==
      Step(Step(Step(Step(Step(Step(p, a.event, a.late), b.event, b.late), c.event, c.late), d.event, d.late),
                e.event, e.late), f.event, f.late)
  {
    var p1 := Step(p, a.event, a.late);
    var p2 := Step(p1, b.event, b.late);
    var p3 := Step(p2, c.event, c.late);
    var p4 := Step(p3, d.event, d.late);
    var p5 := Step(p4, e.event, e.late);
    assert [a, b, c, d, e, f] == [a] + [b, c, d, e, f] && [b, c, d, e, f] == [b] + [c, d, e, f];
    assert [c, d, e, f] == [c] + [d, e, f] && [d, e, f] == [d] + [e, f] && [e, f] == [e] + [f] && [f] == [f] + [];
    RunCons(p, a, [b, c, d, e, f]);
    RunCons(p1, b, [c, d, e, f]);
    RunCons(p2, c, [d, e, f]);
    RunCons(p3, d, [e, f]);
    RunCons(p4, e, [f]);
    RunCons(p5, f, []);
  }
}
