/** The association table as the code keeps it: fields updated in place, and the searches as loops. */
module TempAssocTable {
  import opened Common
  import opened TempAssoc

  class Table {
    var table: seq<Assoc>
    var inUse: set<nat>
    var classicIds: seq<int>
    var nextClassic: nat
    var nextLr: nat
    var lock: Lock
    var capacity: nat
    var clock: nat

    ghost function Snapshot(): Temp
      reads this
    {
      Temp(table, inUse, classicIds, nextClassic, nextLr, lock, capacity, clock)
    }

    // Entries differ in slot, id and client and stand in binding order; the pool holds exactly theirs.
    ghost predicate Valid()
      reads this
    {
      Inv(Snapshot())
    }

    constructor (ids: seq<int>, single: bool)
      ensures Loadable(ids) ==> Valid()
      ensures Snapshot() == Init(ids, single)
    {
      table, inUse, classicIds, nextClassic, nextLr, lock := [], {}, ids, 0, 0, Unlocked;
      capacity, clock := if single then 1 else MAX_CLASSIC, 0;
    }

    // Both searches return what the first match in list order is.
    method LookupByZipClient(c: Client, lr: bool) returns (found: Option<Assoc>)
      ensures found == Lookup(table, c, lr)
    {
      var i := 0;
      while i < |table|
        invariant i <= |table|
        invariant Lookup(table, c, lr) == Lookup(table[i..], c, lr)
      {
        if BelongsTo(table[i], c, lr) { return Some(table[i]); }
        assert table[i..][1..] == table[i + 1..];
        i := i + 1;
      }
      return None;
    }

    method LookupByVirtualNodeId(id: int) returns (found: Option<Assoc>)
      ensures found == LookupByVirtualId(table, id)
    {
      var i := 0;
      while i < |table|
        invariant i <= |table|
        invariant LookupByVirtualId(table, id) == LookupByVirtualId(table[i..], id)
      {
        if table[i].virtualId == id { return Some(table[i]); }
        assert table[i..][1..] == table[i + 1..];
        i := i + 1;
      }
      return None;
    }

    // memb_alloc
    method AllocateSlot() returns (slot: Option<nat>)
      modifies `inUse
      ensures slot == LowestFree(old(inUse), POOL_SIZE, 0)
      ensures inUse == if slot.Some? then old(inUse) + {slot.value} else old(inUse)
    {
      var i := 0;
      while i < POOL_SIZE
        invariant i <= POOL_SIZE && inUse == old(inUse)
        invariant LowestFree(inUse, POOL_SIZE, 0) == LowestFree(inUse, POOL_SIZE, i)
      {
        if i !in inUse {
          inUse := inUse + {i};
          return Some(i);
        }
        i := i + 1;
      }
      return None;
    }

    // Appends the entry, unless an equal one is there: then its slot goes back to the pool.
    method AddToTable(b: Assoc)
      modifies `table, `inUse
      ensures (exists i :: 0 <= i < |old(table)| && SameFromStaticId(old(table)[i], b)) ==>
        table == old(table) && inUse == old(inUse) - {b.slot}
      ensures !(exists i :: 0 <= i < |old(table)| && SameFromStaticId(old(table)[i], b)) ==>
        table == old(table) + [b] && inUse == old(inUse)
    {
      var i := 0;
      while i < |table|
        invariant i <= |table| && table == old(table) && inUse == old(inUse)
        invariant forall k :: 0 <= k < i ==> !SameFromStaticId(table[k], b)
      {
        if SameFromStaticId(table[i], b) {
          inUse := inUse - {b.slot};
          return;
        }
        i := i + 1;
      }
      table := table + [b];
    }

    method SetupAndSave(a: Assoc, c: Client, lr: bool) returns (r: Created)
      modifies `table, `inUse, `clock
      ensures (Snapshot(), r) == Setup(old(Snapshot()), a, c, lr)
    {
      var b := a.(client := c, longRange := lr, virtualId := a.staticId, boundAt := clock);
      if b.virtualId == 0 {
        inUse := inUse - {b.slot};
        return Null;
      }
      var n := |table|;
      AddToTable(b);
      if |table| > n { clock := clock + 1; }
      return Bound(b);
    }

    method TakeFresh(target: Target) returns (a: Option<Assoc>)
      requires Available(Snapshot(), target)
      modifies `inUse, `nextClassic, `nextLr
      ensures a.None? <==> LowestFree(old(inUse), POOL_SIZE, 0).None?
      ensures a.None? ==> Snapshot() == old(Snapshot())
      ensures a.Some? ==> Snapshot() == Allocated(old(Snapshot()), a.value.slot, target)
      ensures a.Some? ==> a.value.slot == LowestFree(old(inUse), POOL_SIZE, 0).value
      ensures a.Some? ==> a.value.staticId == FreshId(old(Snapshot()), target).0
    {
      var slot := AllocateSlot();
      if slot.None? { return None; }
      var id := 0;
      if nextLr < MAX_LR && target == LongRangeNode {
        id := LR_IDS[nextLr];
        nextLr := nextLr + 1;
      } else if nextClassic < |classicIds| && target == ClassicNode {
        id := classicIds[nextClassic];
        nextClassic := nextClassic + 1;
      }
      return Some(Assoc(slot.value, 0, id, Client(0, 0, 0, false), false, 0));
    }

    // The first entry of the class that is not locked leaves the table.
    method TakeOldest(lr: bool) returns (a: Option<Assoc>)
      modifies `table
      ensures var i := FirstRecyclable(old(table), lock, lr);
        if i < |old(table)| then a == Some(old(table)[i]) && table == Without(old(table), i)
        else a.None? && table == old(table)
    {
      var i := 0;
      while i < |table|
        invariant i <= |table| && table == old(table)
        invariant forall k :: 0 <= k < i ==> !Recyclable(table[k], lock, lr)
      {
        if Recyclable(table[i], lock, lr) {
          a := Some(table[i]);
          table := table[..i] + table[i + 1..];
          return;
        }
        i := i + 1;
      }
      return None;
    }

    method CreateAssociation(c: Client, target: Target, unsolicited: bool) returns (r: Created)
      requires Valid()
      modifies this
      ensures Valid()
      ensures (Snapshot(), r) == Create(old(Snapshot()), c, target, unsolicited)
    {
      CreateKeepsInv(Snapshot(), c, target, unsolicited);
      r := FindOrCreate(c, target, unsolicited);
    }

    method FindOrCreate(c: Client, target: Target, unsolicited: bool) returns (r: Created)
      modifies this
      ensures (Snapshot(), r) == Create(old(Snapshot()), c, target, unsolicited)
    {
      var lr := target == LongRangeNode;
      if unsolicited { return Unsolicited; }
      var found := LookupByZipClient(c, lr);
      if found.Some? { return Bound(found.value); }
      if table == [] { lock := Unlocked; }
      var a: Option<Assoc>;
      if Available(Temp(table, inUse, classicIds, nextClassic, nextLr, lock, capacity, clock), target) {
        a := TakeFresh(target);
      } else {
        a := TakeOldest(lr);
      }
      if a.None? { return Null; }
      r := SetupAndSave(a.value, c, lr);
    }

    // The association is one of the table, or the unsolicited destination's, which is not in it.
    method RegisterLock(index: Option<nat>)
      requires Valid()
      requires index.Some? ==> index.value < |table|
      modifies `lock
      ensures Valid()
      ensures Snapshot() == Step(old(Snapshot()), if index.Some? then LockTable(index.value) else LockUnsolicited)
    {
      StepKeepsInv(Snapshot(), if index.Some? then LockTable(index.value) else LockUnsolicited);
      lock := if index.Some? then LockedSlot(table[index.value].slot) else LockedUnsolicited;
    }

    method ReleaseLockOnTimeout()
      requires Valid()
      modifies `lock
      ensures Valid()
      ensures Snapshot() == Step(old(Snapshot()), LockTimeout)
    {
      StepKeepsInv(Snapshot(), LockTimeout);
      lock := Unlocked;
    }
  }
}
