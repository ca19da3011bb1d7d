/** Temporary associations (src/Bridge_temp_assoc.c): a fixed pool of associations between IP
    clients and virtual nodes, handed out until the class is exhausted and then recycled oldest
    first, except for one that a firmware update has locked. */
module TempAssoc {
  import opened Common

  const MAX_LR := 4
  const MAX_CLASSIC := 4
  const POOL_SIZE := MAX_LR + MAX_CLASSIC
  const CLASSIC_MAX_NODE := 232
  const LR_IDS: seq<int> := [4002, 4003, 4004, 4005]

  // Who is talking: address, port, endpoint and whether the frame came over DTLS.
  datatype Client = Client(ip: int, port: int, endpoint: int, dtls: bool)

  // The class of the frame's target node id.
  datatype Target = ClassicNode | LongRangeNode | NoNode

  // `slot` is the pool slot, the entry's address. `boundAt` numbers the moments an association
  // was bound to a client, to state which binding is the oldest.
  datatype Assoc = Assoc(slot: nat, virtualId: int, staticId: int, client: Client, longRange: bool, boundAt: nat)

  datatype Lock = Unlocked | LockedSlot(slot: nat) | LockedUnsolicited

  datatype Temp = Temp(
    table: seq<Assoc>, inUse: set<nat>, classicIds: seq<int>, nextClassic: nat, nextLr: nat,
    lock: Lock, capacity: nat, clock: nat)

  datatype Created = Null | Unsolicited | Bound(assoc: Assoc)

  // ---------------------------------------------------------------- the table

  predicate BelongsTo(a: Assoc, c: Client, lr: bool) { a.client == c && a.longRange == lr }

  // temp_assoc_lookup_by_zip_client, past the check for the unsolicited destination.
  function Lookup(t: seq<Assoc>, c: Client, lr: bool): Option<Assoc> {
    if t == [] then None else if BelongsTo(t[0], c, lr) then Some(t[0]) else Lookup(t[1..], c, lr)
  }

  predicate Recyclable(a: Assoc, lock: Lock, lr: bool) { lock != LockedSlot(a.slot) && a.longRange == lr }

  // The position of the first association that may be recycled, or the length of the table.
  function FirstRecyclable(t: seq<Assoc>, lock: Lock, lr: bool): (i: nat)
    ensures i <= |t|
    ensures i < |t| ==> Recyclable(t[i], lock, lr)
    ensures forall j :: 0 <= j < i ==> !Recyclable(t[j], lock, lr)
  {
    if t == [] || Recyclable(t[0], lock, lr) then 0 else 1 + FirstRecyclable(t[1..], lock, lr)
  }

  // The comparison made before an entry is added: everything from the static id on.
  predicate SameFromStaticId(a: Assoc, b: Assoc) {
    a.staticId == b.staticId && a.client == b.client && a.longRange == b.longRange
  }

  // ---------------------------------------------------------------- creating

  // check_available_temp_assoc
  predicate Available(s: Temp, target: Target) {
    || (target == LongRangeNode && s.nextLr < MAX_LR)
    || (target == ClassicNode && s.nextClassic < s.capacity)
  }

  // The static id and the new indexes for a fresh association; 0 if no id is loaded for it.
  function FreshId(s: Temp, target: Target): (int, nat, nat)
    requires Available(s, target)
  {
    if target == LongRangeNode then (LR_IDS[s.nextLr], s.nextClassic, s.nextLr + 1)
    else if s.nextClassic < |s.classicIds| then (s.classicIds[s.nextClassic], s.nextClassic + 1, s.nextLr)
    else (0, s.nextClassic, s.nextLr)
  }

  // temp_assoc_setup_and_save: bind the entry to the client and add it to the end of the table.
  // An entry without an id, or equal to one in the table, goes back to the pool.
  function Setup(s: Temp, a: Assoc, c: Client, lr: bool): (Temp, Created) {
    var b := a.(client := c, longRange := lr, virtualId := a.staticId, boundAt := s.clock);
    if b.virtualId == 0 then (s.(inUse := s.inUse - {b.slot}), Null)
    else if exists i :: 0 <= i < |s.table| && SameFromStaticId(s.table[i], b) then
      (s.(inUse := s.inUse - {b.slot}), Bound(b))
    else (s.(table := s.table + [b], clock := s.clock + 1), Bound(b))
  }

  // temp_assoc_create for a frame from client `c` to a node of class `target`. `unsolicited` says
  // that the client is the configured unsolicited destination.
  function Create(s: Temp, c: Client, target: Target, unsolicited: bool): (Temp, Created) {
    var lr := target == LongRangeNode;
    var found := Lookup(s.table, c, lr);
    if unsolicited then (s, Unsolicited)
    else if found.Some? then (s, Bound(found.value))
    else
      var s0 := Cleared(s);
      if Available(s0, target) then CreateFresh(s0, c, target) else Recycled(s0, c, lr)
  }

  function Cleared(s: Temp): Temp {
    if s.table == [] then s.(lock := Unlocked) else s
  }

  function Recycled(s: Temp, c: Client, lr: bool): (Temp, Created) {
    var i := FirstRecyclable(s.table, s.lock, lr);
    if i < |s.table| then Setup(s.(table := Without(s.table, i)), s.table[i], c, lr) else (s, Null)
  }

  // A new entry from the pool; None is the null address the code would write through.
  function CreateFresh(s: Temp, c: Client, target: Target): (Temp, Created)
    requires Available(s, target)
  {
    var slot := LowestFree(s.inUse, POOL_SIZE, 0);
    if slot.None? then (s, Null)
    else
      var (id, nc, nl) := FreshId(s, target);
      var s1 := s.(inUse := s.inUse + {slot.value}, nextClassic := nc, nextLr := nl);
      Setup(s1, Assoc(slot.value, 0, id, c, target == LongRangeNode, 0), c, target == LongRangeNode)
  }

  // ---------------------------------------------------------------- events

  datatype Event =
    | OnFrame(client: Client, target: Target, unsolicited: bool)
    | LockTable(index: nat)        // a firmware frame travels over the association at this position
    | LockUnsolicited
    | LockTimeout
    | NodeAdded(id: int)           // a virtual node joined: one more classic id

  function Step(s: Temp, e: Event): Temp {
    match e
    case OnFrame(c, target, u) => Create(s, c, target, u).0
    case LockTable(i) => if i < |s.table| then s.(lock := LockedSlot(s.table[i].slot)) else s
    case LockUnsolicited => s.(lock := LockedUnsolicited)
    case LockTimeout => s.(lock := Unlocked)
    case NodeAdded(id) =>
      if |s.classicIds| < MAX_CLASSIC && id !in s.classicIds && 0 < id <= CLASSIC_MAX_NODE
      then s.(classicIds := s.classicIds + [id]) else s
  }

  function Run(s: Temp, es: seq<Event>): Temp
    decreases |es|
  {
    if es == [] then s else Run(Step(s, es[0]), es[1..])
  }

  // temp_assoc_init, with the ids loaded and `capacity` 1 if the single-classic setting is on.
  function Init(ids: seq<int>, single: bool): Temp {
    Temp([], {}, ids, 0, 0, Unlocked, if single then 1 else MAX_CLASSIC, 0)
  }

  predicate Loadable(ids: seq<int>) {
    && |ids| <= MAX_CLASSIC
    && (forall i :: 0 <= i < |ids| ==> 0 < ids[i] <= CLASSIC_MAX_NODE)
    && (forall i, j :: 0 <= i < j < |ids| ==> ids[i] != ids[j])
  }

  // ---------------------------------------------------------------- the invariant

  function CountClass(t: seq<Assoc>, lr: bool): nat {
    if t == [] then 0 else (if t[0].longRange == lr then 1 else 0) + CountClass(t[1..], lr)
  }

  predicate WithinBounds(s: Temp) {
    && Loadable(s.classicIds) && 1 <= s.capacity <= MAX_CLASSIC
    && s.nextLr <= MAX_LR && s.nextClassic <= s.capacity && s.nextClassic <= |s.classicIds|
    && forall x :: x in s.inUse ==> x < POOL_SIZE
  }

  // The id is one that has been handed out for this class.
  predicate Issued(s: Temp, id: int, lr: bool)
    requires WithinBounds(s)
  {
    if lr then exists j :: 0 <= j < s.nextLr && LR_IDS[j] == id
    else exists j :: 0 <= j < s.nextClassic && s.classicIds[j] == id
  }

  predicate EntryOk(s: Temp, a: Assoc)
    requires WithinBounds(s)
  {
    && a.virtualId == a.staticId && Issued(s, a.staticId, a.longRange)
    && a.slot in s.inUse && a.boundAt < s.clock
  }

  predicate EntriesOk(s: Temp)
    requires WithinBounds(s)
  {
    forall i :: 0 <= i < |s.table| ==> EntryOk(s, s.table[i])
  }

  predicate Different(a: Assoc, b: Assoc) {
    && a.slot != b.slot && a.staticId != b.staticId
    && !BelongsTo(a, b.client, b.longRange)
    && a.boundAt < b.boundAt
  }

  // Entries differ in slot, static id and client, and stand in the order they were bound.
  predicate Ordered(t: seq<Assoc>) {
    forall i, j :: 0 <= i < j < |t| ==> Different(t[i], t[j])
  }

  predicate HasSlot(t: seq<Assoc>, slot: nat) {
    exists i :: 0 <= i < |t| && t[i].slot == slot
  }

  predicate Inv(s: Temp) {
    && WithinBounds(s) && EntriesOk(s) && Ordered(s.table)
    && s.nextLr == CountClass(s.table, true)
    && s.nextClassic == CountClass(s.table, false)
    && |s.inUse| == |s.table|
    && (s.lock.LockedSlot? && s.table != [] ==> HasSlot(s.table, s.lock.slot))
  }

  // ---------------------------------------------------------------- counting

  lemma {:induction false} CountAppend(t: seq<Assoc>, b: Assoc, lr: bool)
    ensures CountClass(t + [b], lr) == CountClass(t, lr) + if b.longRange == lr then 1 else 0
  {
    if t == [] {
      assert t + [b] == [b];
    } else {
      CountAppend(t[1..], b, lr);
      assert (t + [b])[1..] == t[1..] + [b];
    }
  }

  lemma {:induction false} CountWithout(t: seq<Assoc>, i: nat, lr: bool)
    requires i < |t|
    ensures CountClass(t, lr) == CountClass(Without(t, i), lr) + if t[i].longRange == lr then 1 else 0
  {
    if i == 0 {
      assert Without(t, i) == t[1..];
    } else {
      CountWithout(t[1..], i - 1, lr);
      assert Without(t, i)[1..] == Without(t[1..], i - 1);
    }
  }

  lemma {:induction false} CountsAddUp(t: seq<Assoc>)
    ensures CountClass(t, true) + CountClass(t, false) == |t|
  {
    if t != [] { CountsAddUp(t[1..]); }
  }

  // Two entries of a class make a count of two.
  lemma {:induction false} CountTwo(t: seq<Assoc>, i: nat, j: nat, lr: bool)
    requires i < j < |t| && t[i].longRange == lr && t[j].longRange == lr
    ensures CountClass(t, lr) >= 2
  {
    CountWithout(t, j, lr);
    var u := Without(t, j);
    assert u[i] == t[i];
    CountWithout(u, i, lr);
  }

  // If at most one entry of a class is not recyclable, a count of two finds a recyclable one.
  lemma {:induction false} SomeRecyclable(t: seq<Assoc>, lock: Lock, lr: bool)
    requires Ordered(t)
    requires FirstRecyclable(t, lock, lr) == |t|
    ensures CountClass(t, lr) <= 1
    ensures CountClass(t, lr) == 1 ==> exists i :: 0 <= i < |t| && t[i].longRange == lr && lock == LockedSlot(t[i].slot)
  {
    if t != [] {
      var u := t[1..];
      assert FirstRecyclable(u, lock, lr) == |u|;
      assert forall j :: 0 <= j < |u| ==> u[j] == t[j + 1];
      SomeRecyclable(u, lock, lr);
      assert !Recyclable(t[0], lock, lr);
      assert forall j :: 0 <= j < |u| ==> Different(t[0], u[j]);
    }
  }

  // ---------------------------------------------------------------- every step keeps the invariant

  // What holds when an entry outside the table is about to be bound to client `c`.
  predicate Ready(s: Temp, a: Assoc, c: Client, lr: bool) {
    && WithinBounds(s) && EntriesOk(s) && Ordered(s.table)
    && a.slot in s.inUse && a.staticId != 0 && Issued(s, a.staticId, lr)
    && (forall i :: 0 <= i < |s.table| ==>
      s.table[i].slot != a.slot && s.table[i].staticId != a.staticId && !BelongsTo(s.table[i], c, lr))
    && s.nextLr == CountClass(s.table, true) + (if lr then 1 else 0)
    && s.nextClassic == CountClass(s.table, false) + (if lr then 0 else 1)
    && |s.inUse| == |s.table| + 1
    && (s.lock.LockedSlot? ==> HasSlot(s.table, s.lock.slot))
  }

  lemma {:induction false} SetupKeeps(s: Temp, a: Assoc, c: Client, lr: bool)
    requires Ready(s, a, c, lr)
    ensures Inv(Setup(s, a, c, lr).0)
    ensures Setup(s, a, c, lr) ==
      (var b := a.(client := c, longRange := lr, virtualId := a.staticId, boundAt := s.clock);
       (s.(table := s.table + [b], clock := s.clock + 1), Bound(b)))
  {
    var b := a.(client := c, longRange := lr, virtualId := a.staticId, boundAt := s.clock);
    var u := s.(table := s.table + [b], clock := s.clock + 1);
    assert Setup(s, a, c, lr) == (u, Bound(b));
    CountAppend(s.table, b, true);
    CountAppend(s.table, b, false);
    AppendKeepsEntries(s, b);
    if s.lock.LockedSlot? {
      var i :| 0 <= i < |s.table| && s.table[i].slot == s.lock.slot;
      assert u.table[i].slot == s.lock.slot;
    }
  }

  lemma {:induction false} AppendKeepsEntries(s: Temp, b: Assoc)
    requires WithinBounds(s) && EntriesOk(s) && Ordered(s.table)
    requires b.slot in s.inUse && b.virtualId == b.staticId && Issued(s, b.staticId, b.longRange) && b.boundAt == s.clock
    requires forall i :: 0 <= i < |s.table| ==>
      s.table[i].slot != b.slot && s.table[i].staticId != b.staticId && !BelongsTo(s.table[i], b.client, b.longRange)
    ensures var u := s.(table := s.table + [b], clock := s.clock + 1);
      WithinBounds(u) && EntriesOk(u) && Ordered(u.table)
  {
    var u := s.(table := s.table + [b], clock := s.clock + 1);
    forall i | 0 <= i < |u.table| ensures EntryOk(u, u.table[i]) {
      if i < |s.table| { assert EntryOk(s, s.table[i]); }
    }
    forall i, j | 0 <= i < j < |u.table| ensures Different(u.table[i], u.table[j]) {
      assert EntryOk(s, s.table[i]);
      if j < |s.table| { assert Different(s.table[i], s.table[j]); }
    }
  }

  // Nobody has an association yet, if the lookup found none.
  lemma {:induction false} LookupMiss(t: seq<Assoc>, c: Client, lr: bool, i: nat)
    requires Lookup(t, c, lr).None? && i < |t|
    ensures !BelongsTo(t[i], c, lr)
  {
    if i > 0 { LookupMiss(t[1..], c, lr, i - 1); }
  }

  lemma {:induction false} LookupHit(t: seq<Assoc>, c: Client, lr: bool)
    requires Lookup(t, c, lr).Some?
    ensures exists i :: 0 <= i < |t| && t[i] == Lookup(t, c, lr).value && BelongsTo(t[i], c, lr)
  {
    if !BelongsTo(t[0], c, lr) {
      LookupHit(t[1..], c, lr);
      var i :| 0 <= i < |t[1..]| && t[1..][i] == Lookup(t[1..], c, lr).value && BelongsTo(t[1..][i], c, lr);
      assert t[i + 1] == t[1..][i];
    }
  }

  lemma {:induction false} WithoutKeepsEntries(s: Temp, i: nat)
    requires Inv(s) && i < |s.table|
    ensures var u := s.(table := Without(s.table, i)); WithinBounds(u) && EntriesOk(u) && Ordered(u.table)
  {
    var u := s.(table := Without(s.table, i));
    forall k | 0 <= k < |u.table| ensures EntryOk(u, u.table[k]) {
      WithoutMember(s.table, i, k);
      assert EntryOk(s, u.table[k]);
    }
    forall j, k | 0 <= j < k < |u.table| ensures Different(u.table[j], u.table[k]) {
      WithoutMember(s.table, i, j);
      WithoutMember(s.table, i, k);
    }
  }

  lemma {:induction false} RecycleReady(s: Temp, i: nat, c: Client, lr: bool)
    requires Inv(s) && i < |s.table| && Recyclable(s.table[i], s.lock, lr) && Lookup(s.table, c, lr).None?
    ensures Ready(s.(table := Without(s.table, i)), s.table[i], c, lr)
  {
    var u := s.(table := Without(s.table, i));
    var a := s.table[i];
    WithoutKeepsEntries(s, i);
    CountWithout(s.table, i, true);
    CountWithout(s.table, i, false);
    assert EntryOk(s, a);
    IssuedNotZero(s, a.staticId, lr);
    forall k | 0 <= k < |u.table|
      ensures u.table[k].slot != a.slot && u.table[k].staticId != a.staticId && !BelongsTo(u.table[k], c, lr)
    {
      WithoutMember(s.table, i, k);
      var m := if k < i then k else k + 1;
      assert if m < i then Different(s.table[m], a) else Different(a, s.table[m]);
      LookupMiss(s.table, c, lr, m);
    }
    if s.lock.LockedSlot? { WithoutKeepsSlot(s.table, i, s.lock.slot); }
  }

  lemma {:induction false} WithoutKeepsSlot(t: seq<Assoc>, i: nat, slot: nat)
    requires i < |t| && HasSlot(t, slot) && t[i].slot != slot
    ensures HasSlot(Without(t, i), slot)
  {
    var m :| 0 <= m < |t| && t[m].slot == slot;
    assert Without(t, i)[if m < i then m else m - 1] == t[m];
  }

  lemma {:induction false} IssuedNotZero(s: Temp, id: int, lr: bool)
    requires WithinBounds(s) && Issued(s, id, lr)
    ensures id != 0 && (id > CLASSIC_MAX_NODE <==> lr)
  {
  }

  // The id handed out next is new to the table.
  lemma {:induction false} NextIdIsNew(s: Temp, k: nat, lr: bool)
    requires Inv(s) && k < |s.table|
    ensures lr && s.nextLr < MAX_LR ==> s.table[k].staticId != LR_IDS[s.nextLr]
    ensures !lr && s.nextClassic < |s.classicIds| ==> s.table[k].staticId != s.classicIds[s.nextClassic]
  {
    var a := s.table[k];
    assert EntryOk(s, a);
    IssuedNotZero(s, a.staticId, a.longRange);
    if a.longRange {
      var j :| 0 <= j < s.nextLr && LR_IDS[j] == a.staticId;
    } else {
      var j :| 0 <= j < s.nextClassic && s.classicIds[j] == a.staticId;
    }
  }

  // The state after an allocation, before the entry is bound.
  function Allocated(s: Temp, slot: nat, target: Target): Temp
    requires Available(s, target)
  {
    var (_, nc, nl) := FreshId(s, target);
    s.(inUse := s.inUse + {slot}, nextClassic := nc, nextLr := nl)
  }

  predicate IdLoaded(s: Temp, target: Target) {
    target == LongRangeNode || s.nextClassic < |s.classicIds|
  }

  lemma {:induction false} AllocatedKeepsEntries(s: Temp, slot: nat, target: Target)
    requires Inv(s) && Available(s, target) && IdLoaded(s, target) && slot < POOL_SIZE
    ensures var u := Allocated(s, slot, target);
      WithinBounds(u) && EntriesOk(u) && Issued(u, FreshId(s, target).0, target == LongRangeNode)
  {
    var u := Allocated(s, slot, target);
    forall k | 0 <= k < |u.table| ensures EntryOk(u, u.table[k]) {
      assert EntryOk(s, s.table[k]);
    }
    if target == LongRangeNode {
      assert LR_IDS[s.nextLr] == FreshId(s, target).0;
    } else {
      assert u.classicIds[s.nextClassic] == FreshId(s, target).0;
    }
  }

  lemma {:induction false} FreshReady(s: Temp, slot: nat, c: Client, target: Target)
    requires Inv(s) && Available(s, target) && IdLoaded(s, target)
    requires slot < POOL_SIZE && slot !in s.inUse
    requires Lookup(s.table, c, target == LongRangeNode).None?
    requires s.table == [] ==> s.lock == Unlocked
    ensures Ready(Allocated(s, slot, target),
                  Assoc(slot, 0, FreshId(s, target).0, c, target == LongRangeNode, 0), c, target == LongRangeNode)
  {
    var lr := target == LongRangeNode;
    var id := FreshId(s, target).0;
    AllocatedKeepsEntries(s, slot, target);
    forall k | 0 <= k < |s.table|
      ensures s.table[k].slot != slot && s.table[k].staticId != id && !BelongsTo(s.table[k], c, lr)
    {
      assert EntryOk(s, s.table[k]);
      LookupMiss(s.table, c, lr, k);
      NextIdIsNew(s, k, lr);
    }
    IssuedNotZero(Allocated(s, slot, target), id, lr);
  }

  // The client's entry is the last of the table.
  predicate BindsLast(u: Temp, r: Created, c: Client, lr: bool) {
    r.Bound? && u.table != [] && u.table[|u.table| - 1] == r.assoc && BelongsTo(r.assoc, c, lr)
  }

  // An allocation yields a bound entry exactly if an id is loaded for it. The pool never runs out: a
  // free slot exists whenever fewer than POOL_SIZE are in use.
  lemma {:induction false} FreshKeeps(s: Temp, c: Client, target: Target)
    requires Inv(s) && Available(s, target) && Lookup(s.table, c, target == LongRangeNode).None?
    requires s.table == [] ==> s.lock == Unlocked
    ensures var (u, r) := CreateFresh(s, c, target);
      && Inv(u)
      && (IdLoaded(s, target) ==> BindsLast(u, r, c, target == LongRangeNode) && u.table[..|s.table|] == s.table)
      && (!IdLoaded(s, target) ==> r == Null && u == s)
      && u.lock == s.lock && u.capacity == s.capacity && u.classicIds == s.classicIds
  {
    CountsAddUp(s.table);
    SlotExists(s.inUse, POOL_SIZE, 0);
    var slot := LowestFree(s.inUse, POOL_SIZE, 0).value;
    if IdLoaded(s, target) {
      FreshReady(s, slot, c, target);
      SetupKeeps(Allocated(s, slot, target), Assoc(slot, 0, FreshId(s, target).0, c, target == LongRangeNode, 0),
                 c, target == LongRangeNode);
    } else {
      assert s.inUse + {slot} - {slot} == s.inUse;
    }
  }

  // The recycled entry is the one bound longest ago of the class, the locked one aside.
  predicate Oldest(s: Temp, i: nat, lr: bool)
    requires i < |s.table|
  {
    forall k :: 0 <= k < |s.table| && Recyclable(s.table[k], s.lock, lr) ==> s.table[i].boundAt <= s.table[k].boundAt
  }

  // Recycling rebinds the slot and the id of the oldest entry and leaves the others in order.
  lemma {:induction false} RecycleKeeps(s: Temp, c: Client, lr: bool)
    requires Inv(s) && Lookup(s.table, c, lr).None?
    ensures var (u, r) := Recycled(s, c, lr); var i := FirstRecyclable(s.table, s.lock, lr);
      && Inv(u)
      && (i == |s.table| ==> r == Null && u == s)
      && (i < |s.table| ==>
        && BindsLast(u, r, c, lr) && Oldest(s, i, lr)
        && r.assoc.slot == s.table[i].slot && r.assoc.staticId == s.table[i].staticId
        && u.table[..|u.table| - 1] == Without(s.table, i))
      && u.lock == s.lock && u.capacity == s.capacity && u.classicIds == s.classicIds
  {
    var i := FirstRecyclable(s.table, s.lock, lr);
    if i < |s.table| {
      RecycleReady(s, i, c, lr);
      SetupKeeps(s.(table := Without(s.table, i)), s.table[i], c, lr);
      forall k | 0 <= k < |s.table| && Recyclable(s.table[k], s.lock, lr)
        ensures s.table[i].boundAt <= s.table[k].boundAt
      {
        assert k >= i;
        if k > i { assert Different(s.table[i], s.table[k]); }
      }
    }
  }

  lemma {:induction false} CreateKeepsInv(s: Temp, c: Client, target: Target, unsolicited: bool)
    requires Inv(s)
    ensures Inv(Create(s, c, target, unsolicited).0)
  {
    if !unsolicited && Lookup(s.table, c, target == LongRangeNode).None? {
      if Available(Cleared(s), target) { FreshKeeps(Cleared(s), c, target); }
      else { RecycleKeeps(Cleared(s), c, target == LongRangeNode); }
    }
  }

  lemma {:induction false} NodeAddedKeepsInv(s: Temp, id: int)
    requires Inv(s) && |s.classicIds| < MAX_CLASSIC && id !in s.classicIds && 0 < id <= CLASSIC_MAX_NODE
    ensures Inv(s.(classicIds := s.classicIds + [id]))
  {
    var u := s.(classicIds := s.classicIds + [id]);
    forall k | 0 <= k < |u.table| ensures EntryOk(u, u.table[k]) {
      var a := s.table[k];
      assert EntryOk(s, a);
      if !a.longRange {
        var j :| 0 <= j < s.nextClassic && s.classicIds[j] == a.staticId;
        assert u.classicIds[j] == a.staticId;
      }
    }
  }

  lemma {:induction false} StepKeepsInv(s: Temp, e: Event)
    requires Inv(s)
    ensures Inv(Step(s, e))
  {
    match e
    case OnFrame(c, target, u) => CreateKeepsInv(s, c, target, u);
    case NodeAdded(id) =>
      if |s.classicIds| < MAX_CLASSIC && id !in s.classicIds && 0 < id <= CLASSIC_MAX_NODE { NodeAddedKeepsInv(s, id); }
    case LockTable(i) =>
      if i < |s.table| { assert HasSlot(s.table, s.table[i].slot); }
    case LockUnsolicited =>
    case LockTimeout =>
  }

  /** In every state of every run: entries have pairwise different slots, static ids and clients,
      stand in the order they were bound, carry an id issued for their class, at most four (or one)
      classic and four long-range, the pool holds exactly the table's slots, and a lock names an
      entry of the table. */
  lemma {:induction false} RunKeepsInv(s: Temp, es: seq<Event>)
    requires Inv(s)
    ensures Inv(Run(s, es))
    decreases |es|
  {
    if es != [] {
      StepKeepsInv(s, es[0]);
      RunKeepsInv(Step(s, es[0]), es[1..]);
    }
  }

  lemma {:induction false} InitInv(ids: seq<int>, single: bool)
    requires Loadable(ids)
    ensures Inv(Init(ids, single))
  {
  }

  // ---------------------------------------------------------------- what the table promises

  // temp_assoc_lookup_by_virtual_nodeid
  function LookupByVirtualId(t: seq<Assoc>, id: int): Option<Assoc> {
    if t == [] then None else if t[0].virtualId == id then Some(t[0]) else LookupByVirtualId(t[1..], id)
  }

  lemma {:induction false} VirtualIdFinds(t: seq<Assoc>, k: nat)
    requires k < |t| && forall j :: 0 <= j < k ==> t[j].virtualId != t[k].virtualId
    ensures LookupByVirtualId(t, t[k].virtualId) == Some(t[k])
  {
    if k > 0 {
      assert t[1..][k - 1] == t[k];
      assert forall j :: 0 <= j < k - 1 ==> t[1..][j] == t[j + 1];
      VirtualIdFinds(t[1..], k - 1);
    }
  }

  lemma {:induction false} ClientFinds(t: seq<Assoc>, k: nat, c: Client, lr: bool)
    requires k < |t| && BelongsTo(t[k], c, lr) && forall j :: 0 <= j < k ==> !BelongsTo(t[j], c, lr)
    ensures Lookup(t, c, lr) == Some(t[k])
  {
    if k > 0 {
      assert t[1..][k - 1] == t[k];
      assert forall j :: 0 <= j < k - 1 ==> t[1..][j] == t[j + 1];
      ClientFinds(t[1..], k - 1, c, lr);
    }
  }

  // Both lookups are exact: every entry is found by its virtual id and by its client.
  lemma {:induction false} LookupsExact(s: Temp, k: nat)
    requires Inv(s) && k < |s.table|
    ensures LookupByVirtualId(s.table, s.table[k].virtualId) == Some(s.table[k])
    ensures Lookup(s.table, s.table[k].client, s.table[k].longRange) == Some(s.table[k])
  {
    forall j | 0 <= j < k
      ensures s.table[j].virtualId != s.table[k].virtualId
      ensures !BelongsTo(s.table[j], s.table[k].client, s.table[k].longRange)
    {
      assert Different(s.table[j], s.table[k]) && EntryOk(s, s.table[j]) && EntryOk(s, s.table[k]);
    }
    VirtualIdFinds(s.table, k);
    ClientFinds(s.table, k, s.table[k].client, s.table[k].longRange);
  }

  // A bound association is in the table and belongs to the client that asked.
  lemma {:induction false} BoundInTable(s: Temp, c: Client, target: Target, unsolicited: bool)
    requires Inv(s)
    ensures var (u, r) := Create(s, c, target, unsolicited);
      r.Bound? ==> exists k :: 0 <= k < |u.table| && u.table[k] == r.assoc && BelongsTo(r.assoc, c, target == LongRangeNode)
  {
    var lr := target == LongRangeNode;
    if !unsolicited {
      if Lookup(s.table, c, lr).Some? { LookupHit(s.table, c, lr); }
      else if Available(Cleared(s), target) { FreshKeeps(Cleared(s), c, target); }
      else { RecycleKeeps(Cleared(s), c, lr); }
    }
  }

  /** The round trip of a frame: the node answers the virtual id it was addressed from, and that id
      leads back to the client; asking again changes nothing and gives the same association. */
  lemma {:induction false} ReplyFindsClient(s: Temp, c: Client, target: Target, unsolicited: bool)
    requires Inv(s)
    ensures var (u, r) := Create(s, c, target, unsolicited);
      r.Bound? ==>
        && r.assoc.client == c
        && LookupByVirtualId(u.table, r.assoc.virtualId) == Some(r.assoc)
        && Create(u, c, target, unsolicited) == (u, r)
  {
    var (u, r) := Create(s, c, target, unsolicited);
    BoundInTable(s, c, target, unsolicited);
    CreateKeepsInv(s, c, target, unsolicited);
    if r.Bound? {
      var k :| 0 <= k < |u.table| && u.table[k] == r.assoc && BelongsTo(r.assoc, c, target == LongRangeNode);
      LookupsExact(u, k);
    }
  }

  // The only classic association is locked.
  predicate ClassicLocked(s: Temp) {
    exists i :: 0 <= i < |s.table| && !s.table[i].longRange && s.lock == LockedSlot(s.table[i].slot)
  }

  // When a new client gets nothing. Long-range targets never do.
  predicate Refused(s: Temp, target: Target) {
    match target
    case LongRangeNode => false
    case ClassicNode =>
      if s.nextClassic < s.capacity then s.nextClassic == |s.classicIds|
      else s.capacity == 1 && ClassicLocked(s)
    case NoNode => s.nextClassic == 0 || (s.nextClassic == 1 && ClassicLocked(s))
  }

  // No entry can be recycled exactly if the class has none, or only a locked one.
  lemma {:induction false} NothingToRecycle(s: Temp, lr: bool)
    requires Inv(s)
    ensures FirstRecyclable(s.table, s.lock, lr) == |s.table| <==>
      CountClass(s.table, lr) == 0
      || (CountClass(s.table, lr) == 1 && exists i :: 0 <= i < |s.table| && s.table[i].longRange == lr && s.lock == LockedSlot(s.table[i].slot))
  {
    var f := FirstRecyclable(s.table, s.lock, lr);
    if f == |s.table| {
      SomeRecyclable(s.table, s.lock, lr);
    } else {
      CountWithout(s.table, f, lr);
      forall i | 0 <= i < |s.table| && s.table[i].longRange == lr && s.lock == LockedSlot(s.table[i].slot)
        ensures CountClass(s.table, lr) >= 2
      {
        if i < f { CountTwo(s.table, i, f, lr); } else { CountTwo(s.table, f, i, lr); }
      }
    }
  }

  /** A client that has no association yet is refused exactly in these cases; any other request
      yields one. With four ids and four classic slots nobody who talks to a node is refused. */
  lemma {:induction false} RefusedIff(s: Temp, c: Client, target: Target)
    requires Inv(s) && Lookup(s.table, c, target == LongRangeNode).None?
    ensures Create(s, c, target, false).1 == Null <==> Refused(s, target)
    ensures Create(s, c, target, false).1 != Null ==> Create(s, c, target, false).1.Bound?
    ensures |s.classicIds| == MAX_CLASSIC && s.capacity == MAX_CLASSIC && target != NoNode ==> !Refused(s, target)
  {
    var s0 := Cleared(s);
    var lr := target == LongRangeNode;
    if Available(s0, target) {
      FreshKeeps(s0, c, target);
    } else {
      RecycleKeeps(s0, c, lr);
      NothingToRecycle(s0, lr);
    }
  }

  lemma {:induction false} RunKeepsSettings(s: Temp, es: seq<Event>)
    requires Inv(s) && |s.classicIds| == MAX_CLASSIC
    ensures Run(s, es).capacity == s.capacity && Run(s, es).classicIds == s.classicIds
    decreases |es|
  {
    if es != [] {
      StepKeepsInv(s, es[0]);
      StepKeepsSettings(s, es[0]);
      RunKeepsSettings(Step(s, es[0]), es[1..]);
    }
  }

  lemma {:induction false} StepKeepsSettings(s: Temp, e: Event)
    requires Inv(s) && |s.classicIds| == MAX_CLASSIC
    ensures Step(s, e).capacity == s.capacity && Step(s, e).classicIds == s.classicIds
  {
    if e.OnFrame? && !e.unsolicited && Lookup(s.table, e.client, e.target == LongRangeNode).None? {
      if Available(Cleared(s), e.target) { FreshKeeps(Cleared(s), e.client, e.target); }
      else { RecycleKeeps(Cleared(s), e.client, e.target == LongRangeNode); }
    }
  }

  /** With all four ids loaded and no single-classic setting, every client that sends to a node gets
      an association, after any run whatever. */
  lemma {:induction false} EveryClientServed(ids: seq<int>, es: seq<Event>, c: Client, target: Target)
    requires Loadable(ids) && |ids| == MAX_CLASSIC && target != NoNode
    ensures Create(Run(Init(ids, false), es), c, target, false).1.Bound?
  {
    var i := Init(ids, false);
    InitInv(ids, false);
    RunKeepsInv(i, es);
    RunKeepsSettings(i, es);
    var s := Run(i, es);
    if Lookup(s.table, c, target == LongRangeNode).None? { RefusedIff(s, c, target); }
  }

  /** Too few ids loaded: a request for a classic node is refused although an older association
      could be recycled. */
  lemma {:induction false} RefusedInsteadOfRecycled(c: Client, d: Client)
    requires c != d
    ensures var s := Create(Init([2], false), c, ClassicNode, false).0;
      && Create(s, d, ClassicNode, false).1 == Null
      && Inv(s) && |s.table| == 1 && Recyclable(s.table[0], s.lock, false)
  {
    var i := Init([2], false);
    InitInv([2], false);
    assert Lookup(i.table, c, false).None?;
    FreshKeeps(i, c, ClassicNode);
    var s := Create(i, c, ClassicNode, false).0;
    assert s.table[..0] == [];
    CountsAddUp(s.table);
    assert Lookup(s.table, d, false).None?;
    FreshKeeps(s, d, ClassicNode);
  }

  // ---------------------------------------------------------------- the firmware lock

  predicate TouchesLock(e: Event) { e.LockTable? || e.LockUnsolicited? || e.LockTimeout? }

  lemma {:induction false} FreshKeepsLocked(s: Temp, c: Client, target: Target, k: nat)
    requires Inv(s) && k < |s.table| && Available(s, target) && Lookup(s.table, c, target == LongRangeNode).None?
    ensures s.table[k] in CreateFresh(s, c, target).0.table && CreateFresh(s, c, target).0.lock == s.lock
  {
    FreshKeeps(s, c, target);
    var u := CreateFresh(s, c, target).0;
    if IdLoaded(s, target) { assert u.table[..|s.table|][k] == s.table[k]; }
  }

  // An entry other than the one taken out, and one put behind, is still there.
  lemma {:induction false} OthersStay(t: seq<Assoc>, i: nat, k: nat, u: seq<Assoc>)
    requires i < |t| && k < |t| && k != i && u != [] && u[..|u| - 1] == Without(t, i)
    ensures t[k] in u
  {
    var m := if k < i then k else k - 1;
    WithoutMember(t, i, m);
    assert u[m] == u[..|u| - 1][m];
  }

  lemma {:induction false} RecycleKeepsLocked(s: Temp, c: Client, lr: bool, k: nat)
    requires Inv(s) && k < |s.table| && s.lock == LockedSlot(s.table[k].slot) && Lookup(s.table, c, lr).None?
    ensures s.table[k] in Recycled(s, c, lr).0.table && Recycled(s, c, lr).0.lock == s.lock
  {
    RecycleKeeps(s, c, lr);
    var i := FirstRecyclable(s.table, s.lock, lr);
    if i < |s.table| { OthersStay(s.table, i, k, Recycled(s, c, lr).0.table); }
  }

  lemma {:induction false} StepKeepsLocked(s: Temp, e: Event, a: Assoc)
    requires Inv(s) && a in s.table && s.lock == LockedSlot(a.slot) && !TouchesLock(e)
    ensures a in Step(s, e).table && Step(s, e).lock == s.lock
  {
    if e.OnFrame? && !e.unsolicited && Lookup(s.table, e.client, e.target == LongRangeNode).None? {
      var k :| 0 <= k < |s.table| && s.table[k] == a;
      if Available(s, e.target) { FreshKeepsLocked(s, e.client, e.target, k); }
      else { RecycleKeepsLocked(s, e.client, e.target == LongRangeNode, k); }
    }
  }

  /** A locked association keeps its client and its virtual node until the lock is released or
      moved, whatever other clients do. */
  lemma {:induction false} LockedIsNotRecycled(s: Temp, es: seq<Event>, a: Assoc)
    requires Inv(s) && a in s.table && s.lock == LockedSlot(a.slot)
    requires forall i :: 0 <= i < |es| ==> !TouchesLock(es[i])
    ensures a in Run(s, es).table && Run(s, es).lock == s.lock
    decreases |es|
  {
    if es != [] {
      StepKeepsLocked(s, es[0], a);
      StepKeepsInv(s, es[0]);
      LockedIsNotRecycled(Step(s, es[0]), es[1..], a);
    }
  }
}
