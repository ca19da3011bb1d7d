/** The command queue as the code keeps it: a list, a pool and the node being served, updated in place. */
module NmCommandQueue {
  import opened Common
  import opened NmQueue

  class CommandQueue {
    var list: seq<Element>
    var inUse: set<nat>
    var current: nat
    var arrivals: nat
    var log: seq<Entry>

    ghost function Snapshot(): Queue
      reads this
    {
      Queue(list, inUse, current, arrivals, log)
    }

    // List and pool agree, the books balance, and commands were started in order.
    ghost predicate Valid()
      reads this
    {
      Inv(Snapshot())
    }

    constructor ()
      ensures Valid() && Snapshot() == EMPTY
    {
      list, inUse, current, arrivals, log := [], {}, 0, 0, [];
      new;
      EmptyInv();
    }

    method AllocateSlot() returns (slot: Option<nat>)
      modifies `inUse
      ensures slot == LowestFree(old(inUse), MAX_QUEUED, 0)
      ensures inUse == if slot.Some? then old(inUse) + {slot.value} else old(inUse)
    {
      var i := 0;
      while i < MAX_QUEUED
        invariant i <= MAX_QUEUED && inUse == old(inUse)
        invariant LowestFree(inUse, MAX_QUEUED, 0) == LowestFree(inUse, MAX_QUEUED, i)
      {
        if i !in inUse {
          inUse := inUse + {i};
          return Some(i);
        }
        i := i + 1;
      }
      return None;
    }

    // A target of 0 means that the command has none; it is never queued.
    method QueueCommand(node: nat) returns (ok: bool)
      requires Valid()
      modifies this
      ensures node != 0 ==> Valid()
      ensures (Snapshot(), ok) == Accept(old(Snapshot()), node)
    {
      if node != 0 { AcceptKeeps(Snapshot(), node); }
      var slot := AllocateSlot();
      if slot.None? { return false; }
      log := log + [Deferred(arrivals, node)];
      list := list + [Element(slot.value, arrivals, node)];
      arrivals := arrivals + 1;
      return true;
    }

    method FindElement(node: nat) returns (i: nat)
      ensures i == Find(list, node)
    {
      i := 0;
      while i < |list|
        invariant i <= |list|
        invariant forall j :: 0 <= j < i ==> list[j].node != node
      {
        if list[i].node == node { return; }
        i := i + 1;
      }
    }

    method RemoveElement(i: nat, ack: bool)
      requires i < |list|
      modifies this
      ensures Snapshot() == Remove(old(Snapshot()), i, ack)
    {
      var e := list[i];
      log := log + [Answered(e.id, ack)];
      list := list[..i] + list[i + 1..];
      inUse := inUse - {e.slot};
    }

    method WakeUpEvent(node: nat, busy: bool) returns (started: bool)
      requires Valid()
      modifies this
      ensures Valid()
      ensures (Snapshot(), started) == WakeUp(old(Snapshot()), node, busy)
    {
      WakeUpKeeps(Snapshot(), node, busy);
      var i := FindElement(node);
      if i < |list| && (current == 0 || current == node) {
        if !busy {
          log := log + [Started(list[i].id, node)];
          current := node;
          RemoveElement(i, true);
          return true;
        }
      }
      return false;
    }

    method NmDoneEvent(busy: bool)
      requires Valid()
      modifies this
      ensures Valid()
      ensures Snapshot() == NmDone(old(Snapshot()), busy)
    {
      NmDoneKeeps(Snapshot(), busy);
      if current != 0 {
        var node := current;
        var more := WakeUpEvent(node, busy);
        if !more {
          current := 0;
          log := log + [GaveBack(node)];
        }
      }
    }

    // The loop ends with the first command of the node gone for good: none is left.
    method PurgeNodeCommands(node: nat)
      requires Valid()
      modifies this
      ensures Valid() && list == Others(old(list), node) && current == old(current)
      ensures Snapshot() == PurgeNode(old(Snapshot()), node)
    {
      PurgeNodeKeeps(Snapshot(), node);
      var i := FindElement(node);
      while i < |list|
        invariant i == Find(list, node)
        invariant PurgeNode(Snapshot(), node) == PurgeNode(old(Snapshot()), node)
        decreases |list|
      {
        RemoveElement(i, false);
        i := FindElement(node);
      }
    }

    method PurgeAllCommands()
      requires Valid()
      modifies this
      ensures Valid() && list == []
      ensures Snapshot() == PurgeAll(old(Snapshot()))
    {
      PurgeAllKeeps(Snapshot());
      while list != []
        invariant PurgeAll(Snapshot()) == PurgeAll(old(Snapshot()))
        decreases |list|
      {
        RemoveElement(0, false);
      }
    }

    // The timer of a queued command: its client is told to wait on.
    method WaitingTimer(i: nat)
      requires Valid() && i < |list|
      modifies `log
      ensures Valid()
      ensures Snapshot() == Step(old(Snapshot()), WaitingTimeout(i))
    {
      WaitingKeeps(Snapshot(), list[i].id);
      log := log + [StillWaiting(list[i].id)];
    }
  }
}
