/** The code of src/Mailbox.c as it runs: a record of globals, an entry pointer that walks the
    list, and a transition procedure that calls itself. Each method is tied to the function in
    `Mailbox` that writes the chain of transitions out. */
module MailboxMachine {
  import opened Common
  import opened Mailbox

  // The depth left in a chain of transitions.
  function Weight(st: MbState, ev: MbEvent): nat {
    match st
    case Idle => if ev == WakeUp then 8 else 1
    case ProbeWakeUpInterval => if ev == Transition then 7 else 6
    case Sending => 5
    case SendNoMoreInfo => if ev == Transition then 4 else 2
    case SendNoMoreInfoDelayed => 4
  }

  class Machine {
    var state: MbState
    var node: int
    var sendNoMore: bool
    var broadcast: bool
    var txOk: bool
    var lastEntry: Option<nat>
    var list: seq<Frame>
    var log: seq<Act>

    function Snapshot(): Box
      reads this
    {
      Box(state, node, sendNoMore, broadcast, txOk, lastEntry, list, log)
    }

    predicate Valid()
      reads this
    {
      Distinct(list)
    }

    constructor ()
      ensures Valid() && Snapshot() == Box(Idle, 0, false, false, false, None, [], [])
    {
      state, node, sendNoMore, broadcast, txOk := Idle, 0, false, false, false;
      lastEntry, list, log := None, [], [];
    }

    method StateTransition(ev: MbEvent, env: Env)
      requires Valid()
      modifies this
      ensures Snapshot() == Handle(old(Snapshot()), ev, env)
      decreases Weight(state, ev), 1
    {
      match state
      case Idle =>
        if ev == WakeUp {
          if env.nodeKnown {
            if env.wokeEarly {
              state := ProbeWakeUpInterval;
              StateTransition(Transition, env);
            } else {
              state := Sending;
              StateTransition(Transition, env);
            }
          } else {
            state := SendNoMoreInfo;
            SendNoMoreInformation(env);
          }
        } else if ev == Transition {
          log := log + [QueueUpdated];
        }
      case ProbeWakeUpInterval =>
        if ev == Transition {
          log := log + [ProbeInterval(node)];
          if !env.probeAccepted {
            StateTransition(SendDone, env);
          }
        } else if ev == SendDone {
          state := Sending;
          StateTransition(Transition, env);
        }
      case Sending =>
        MoveEntry(ev);
        SendFromList(env);
      case SendNoMoreInfoDelayed =>
        if ev == Timeout {
          if env.nodeBusy {
            log := log + [StartDelay];
          } else {
            state := SendNoMoreInfo;
            SendNoMoreInformation(env);
          }
        } else if ev == FrameSentToNode {
          log := log + [StartDelay];
        }
      case SendNoMoreInfo =>
        if ev == Transition {
          SendNoMoreInformation(env);
        } else if ev == SendDone {
          state := Idle;
          StateTransition(Transition, env);
        }
    }

    // The first half of MB_STATE_SENDING: step over the entry that is done, or start at the head.
    method MoveEntry(ev: MbEvent)
      requires Valid()
      modifies `lastEntry, `list
      ensures Valid() && Snapshot() == Advance(old(Snapshot()), ev)
    {
      if ev == SendDone {
        var mb := lastEntry;
        lastEntry := Next(list, lastEntry);
        RemoveKeepsDistinct(list, mb);
        if txOk { list := Remove(list, mb); }
      } else if ev == Transition {
        lastEntry := Head(list);
      }
    }

    // The second half of MB_STATE_SENDING: find the node's next frame and send it.
    method SendFromList(env: Env)
      requires Valid() && state == Sending
      modifies this
      ensures Snapshot() == SendNext(old(Snapshot()), env)
      decreases 5, 0
    {
      var found := FindNext();
      if found.Some? { SendFrame(found.value, env); } else { EndPass(env); }
    }

    method SendFrame(f: Frame, env: Env)
      requires Valid() && state == Sending
      modifies this
      ensures Snapshot() == TryFrame(old(Snapshot()), f, env)
      decreases 4, 2
    {
      if f.moreInfo { sendNoMore := false; }
      log := log + [Try(f)];
      if !env.frameAccepted {
        state := SendNoMoreInfo;
        StateTransition(Transition, env);
      }
    }

    method EndPass(env: Env)
      requires Valid() && state == Sending
      modifies this
      ensures Snapshot() == NothingLeft(old(Snapshot()), env)
      decreases 4, 2
    {
      if sendNoMore {
        state := SendNoMoreInfo;
        StateTransition(Transition, env);
      } else {
        state := SendNoMoreInfoDelayed;
        log := log + [StartDelay];
        log := log + [QueueUpdated];
      }
    }

    // The entry pointer walks to the next frame for the node, or off the end of the list.
    method FindNext() returns (found: Option<Frame>)
      requires Valid()
      modifies this`lastEntry
      ensures var t := SkipTo(From(list, old(lastEntry)), node);
              && lastEntry == Head(t)
              && found == if t == [] then None else Some(t[0])
    {
      var rest := From(list, lastEntry);
      ghost var goal := SkipTo(rest, node);
      while rest != [] && rest[0].dnode != node
        invariant rest == From(list, lastEntry) && SkipTo(rest, node) == goal
        decreases |rest|
      {
        NextShortens(list, lastEntry);
        lastEntry := Next(list, lastEntry);
        rest := rest[1..];
      }
      lastEntry := Head(rest);
      found := if rest == [] then None else Some(rest[0]);
    }

    method SendNoMoreInformation(env: Env)
      requires Valid() && state == SendNoMoreInfo
      modifies this
      ensures Snapshot() == SendNoMore(old(Snapshot()), env)
      decreases 3, 0
    {
      if !broadcast {
        log := log + [NoMoreInformation(node)];
        if !env.noMoreAccepted {
          txOk := false;
          StateTransition(SendDone, env);
        }
      } else {
        broadcast := false;
        txOk := true;
        StateTransition(SendDone, env);
      }
    }

    // mb_wakeup_event in service mode, with network management idle and no probe in progress.
    method WakeUpEvent(n: int, isBroadcast: bool, env: Env)
      requires Valid()
      modifies this
      ensures Snapshot() == Wake(old(Snapshot()), n, isBroadcast, env)
    {
      if state == Idle {
        node, sendNoMore, broadcast := n, true, isBroadcast;
        assert Snapshot() == old(Snapshot()).(node := n, sendNoMore := true, broadcast := isBroadcast);
        StateTransition(WakeUp, env);
      }
    }

    method SendDoneEvent(ok: bool, env: Env)
      requires Valid()
      modifies this
      ensures Snapshot() == Finish(old(Snapshot()), ok, env)
    {
      txOk := ok;
      StateTransition(SendDone, env);
    }

    // memb_alloc takes the lowest free slot; the entry goes to the end of the list.
    method PostFrame(dnode: int, moreInfo: bool, payload: seq<int>) returns (slot: Option<nat>)
      requires Valid()
      modifies this`list
      ensures Valid()
      ensures slot.Some? ==> Free(old(list), slot.value) && forall i: nat :: Free(old(list), i) ==> slot.value <= i
      ensures slot.None? ==> list == old(list) && forall i: nat :: !Free(old(list), i)
      ensures slot.Some? ==> Snapshot() == Post(old(Snapshot()), Frame(slot.value, dnode, moreInfo, payload))
    {
      var i: nat := 0;
      while i < MAX_MAILBOX_ENTRIES && i in Slots(list)
        invariant list == old(list)
        invariant forall j: nat :: j < i ==> !Free(list, j)
      {
        i := i + 1;
      }
      if i >= MAX_MAILBOX_ENTRIES { return None; }
      AppendKeepsDistinct(list, Frame(i, dnode, moreInfo, payload));
      list := list + [Frame(i, dnode, moreInfo, payload)];
      return Some(i);
    }
  }

  lemma {:induction false} AppendKeepsDistinct(list: seq<Frame>, f: Frame)
    requires Distinct(list) && f.slot !in Slots(list)
    ensures Distinct(list + [f])
  {
    forall i | 0 <= i < |list| ensures list[i].slot != f.slot { assert list[i].slot in Slots(list); }
  }

  lemma {:induction false} NextShortens(list: seq<Frame>, p: Option<nat>)
    requires Distinct(list) && From(list, p) != []
    ensures From(list, Next(list, p)) == From(list, p)[1..]
  {
    var k := FromIsSuffix(list, p);
    FromSplit(list, k);
    if k + 1 < |list| { FromSplit(list, k + 1); }
  }

  lemma {:induction false} FromIsSuffix(list: seq<Frame>, p: Option<nat>) returns (k: nat)
    requires From(list, p) != []
    ensures k < |list| && p == Some(list[k].slot)
  {
    if list[0].slot == p.value { k := 0; } else { k := FromIsSuffix(list[1..], p); k := k + 1; }
  }

  lemma {:induction false} RemoveKeepsDistinct(list: seq<Frame>, p: Option<nat>)
    requires Distinct(list)
    ensures Distinct(Remove(list, p))
  {
    if From(list, p) == [] {
      RemoveAbsent(list, p);
    } else {
      var k := FromIsSuffix(list, p);
      FromSplit(list, k);
    }
  }

  lemma {:induction false} RemoveAbsent(list: seq<Frame>, p: Option<nat>)
    requires From(list, p) == []
    ensures Remove(list, p) == list
  {
    if list != [] && p.Some? { RemoveAbsent(list[1..], p); }
  }
}
