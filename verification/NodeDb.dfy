/** The node database (src/RD_internal.c): a table of nodes by id, the cursor over all endpoints, and
    the device keys (DSKs) by which a node can be found. */
module NodeDb {
  import opened Common

  const MAX_NODES := 4000

  // An empty DSK is none. Endpoints are known by their ids.
  datatype Node = Node(dsk: seq<Byte>, endpoints: seq<nat>)

  // Slot `i` is node id `i + 1`.
  type Db = seq<Option<Node>>

  // ---------------------------------------------------------------- the endpoint cursor

  // An endpoint: the slot of its node and its place in the node's list.
  datatype Cursor = Cursor(slot: nat, place: nat)

  // The first stored node from slot `i` on, or the size of the table.
  function StoredFrom(db: Db, i: nat): (j: nat)
    requires i <= |db|
    ensures i <= j <= |db| && (j < |db| ==> db[j].Some?)
    ensures forall k :: i <= k < j ==> db[k].None?
    decreases |db| - i
  {
    if i == |db| || db[i].Some? then i else StoredFrom(db, i + 1)
  }

  // The head of that node's list: null if the list is empty.
  function HeadFrom(db: Db, i: nat): Option<Cursor>
    requires i <= |db|
  {
    var j := StoredFrom(db, i);
    if j < |db| && db[j].value.endpoints != [] then Some(Cursor(j, 0)) else None
  }

  predicate Valid(db: Db, c: Cursor) {
    c.slot < |db| && db[c.slot].Some? && c.place < |db[c.slot].value.endpoints|
  }

  // rd_ep_first(0) and rd_ep_next(0, c)
  function First(db: Db): Option<Cursor> { HeadFrom(db, 0) }

  function Next(db: Db, c: Cursor): (r: Option<Cursor>)
    requires Valid(db, c)
    ensures r.Some? ==> Valid(db, r.value)
    ensures r.Some? ==> r.value.slot > c.slot || (r.value.slot == c.slot && r.value.place == c.place + 1)
  {
    if c.place + 1 < |db[c.slot].value.endpoints| then Some(c.(place := c.place + 1)) else HeadFrom(db, c.slot + 1)
  }

  // What a loop over the cursor visits, from `c` on.
  function Visits(db: Db, c: Option<Cursor>): seq<Cursor>
    requires c.Some? ==> Valid(db, c.value)
    decreases if c.None? then 0 else 1, if c.None? then 0 else |db| - c.value.slot,
              if c.None? then 0 else |db[c.value.slot].value.endpoints| - c.value.place
  {
    if c.None? then [] else [c.value] + Visits(db, Next(db, c.value))
  }

  // One round of the loop.
  lemma {:induction false} VisitsStep(db: Db, seen: seq<Cursor>, c: Cursor)
    requires Valid(db, c)
    ensures seen + Visits(db, Some(c)) == seen + [c] + Visits(db, Next(db, c))
  {
    var rest := Visits(db, Next(db, c));
    assert seen + ([c] + rest) == seen + [c] + rest;
  }

  // All endpoints of one node from a place on, and of all nodes from a slot on, in order.
  function OfNode(slot: nat, place: nat, count: nat): seq<Cursor>
    decreases count - place
  {
    if place >= count then [] else [Cursor(slot, place)] + OfNode(slot, place + 1, count)
  }

  function OfAll(db: Db, i: nat): seq<Cursor>
    requires i <= |db|
    decreases |db| - i
  {
    if i == |db| then [] else (if db[i].None? then [] else OfNode(i, 0, |db[i].value.endpoints|)) + OfAll(db, i + 1)
  }

  // The endpoints up to the first stored node that has none.
  function UpToBare(db: Db, i: nat): seq<Cursor>
    requires i <= |db|
    decreases |db| - i
  {
    if i == |db| then []
    else if db[i].None? then UpToBare(db, i + 1)
    else if db[i].value.endpoints == [] then []
    else OfNode(i, 0, |db[i].value.endpoints|) + UpToBare(db, i + 1)
  }

  lemma {:induction false} SkipUnstored(db: Db, i: nat)
    requires i <= |db|
    ensures UpToBare(db, i) == UpToBare(db, StoredFrom(db, i))
    decreases |db| - i
  {
    if i < |db| && db[i].None? { SkipUnstored(db, i + 1); }
  }

  lemma {:induction false} VisitsNode(db: Db, c: Cursor)
    requires Valid(db, c)
    ensures Visits(db, Some(c)) == OfNode(c.slot, c.place, |db[c.slot].value.endpoints|) + UpToBare(db, c.slot + 1)
    decreases |db| - c.slot, 0, |db[c.slot].value.endpoints| - c.place
  {
    var n := |db[c.slot].value.endpoints|;
    if c.place + 1 < n {
      var d := c.(place := c.place + 1);
      VisitsNode(db, d);
      Prepend(c, OfNode(c.slot, c.place + 1, n), UpToBare(db, c.slot + 1));
    } else {
      VisitsFrom(db, c.slot + 1);
      assert OfNode(c.slot, c.place + 1, n) == [];
      assert OfNode(c.slot, c.place, n) == [c] + [] == [c];
    }
  }

  lemma {:induction false} Prepend(c: Cursor, s: seq<Cursor>, t: seq<Cursor>)
    ensures [c] + (s + t) == ([c] + s) + t
  {
  }

  lemma {:induction false} VisitsFrom(db: Db, i: nat)
    requires i <= |db|
    ensures Visits(db, HeadFrom(db, i)) == UpToBare(db, i)
    decreases |db| - i, 1
  {
    var j := StoredFrom(db, i);
    SkipUnstored(db, i);
    if j < |db| && db[j].value.endpoints != [] { VisitsNode(db, Cursor(j, 0)); }
  }

  /** The cursor visits the endpoints of every node, each once, in node order and then in list order,
      up to the first stored node without endpoints, where it ends. */
  lemma {:induction false} CursorVisits(db: Db)
    ensures Visits(db, First(db)) == UpToBare(db, 0)
  {
    VisitsFrom(db, 0);
  }

  predicate NoneFrom(db: Db, i: nat) { forall j :: i <= j < |db| && db[j].Some? ==> db[j].value.endpoints == [] }

  predicate Bare(n: Option<Node>) { n.Some? && n.value.endpoints == [] }

  // No endpoint lies behind a stored node without endpoints, from slot `i` on.
  predicate NoneBehindBare(db: Db, i: nat) {
    forall j :: i <= j < |db| && Bare(db[j]) ==> NoneFrom(db, j + 1)
  }

  lemma {:induction false} NoneFromStep(db: Db, i: nat)
    requires i < |db|
    ensures NoneFrom(db, i) <==> (db[i].Some? ==> db[i].value.endpoints == []) && NoneFrom(db, i + 1)
  {
  }

  lemma {:induction false} OfAllEmptyIff(db: Db, i: nat)
    requires i <= |db|
    ensures OfAll(db, i) == [] <==> NoneFrom(db, i)
    decreases |db| - i
  {
    if i < |db| {
      OfAllEmptyIff(db, i + 1);
      NoneFromStep(db, i);
      var here := if db[i].None? then [] else OfNode(i, 0, |db[i].value.endpoints|);
      assert OfAll(db, i) == here + OfAll(db, i + 1);
      assert here == [] <==> (db[i].Some? ==> db[i].value.endpoints == []);
      EmptySum(here, OfAll(db, i + 1));
    }
  }

  lemma {:induction false} EmptySum(s: seq<Cursor>, t: seq<Cursor>)
    ensures s + t == [] <==> s == [] && t == []
  {
    if s + t == [] { assert |s + t| == 0; }
  }

  // The condition, one slot at a time.
  lemma {:induction false} BareStep(db: Db, i: nat)
    requires i < |db|
    ensures Bare(db[i]) ==> (NoneBehindBare(db, i) <==> NoneFrom(db, i + 1))
    ensures !Bare(db[i]) ==> (NoneBehindBare(db, i) <==> NoneBehindBare(db, i + 1))
  {
    if Bare(db[i]) && NoneFrom(db, i + 1) {
      forall j | i <= j < |db| && Bare(db[j]) ensures NoneFrom(db, j + 1) {}
    }
  }

  // Both walks, one slot at a time.
  lemma {:induction false} WalkStep(db: Db, i: nat)
    requires i < |db|
    ensures Bare(db[i]) ==> UpToBare(db, i) == [] && OfAll(db, i) == OfAll(db, i + 1)
    ensures !Bare(db[i]) ==>
      (UpToBare(db, i) == OfAll(db, i) <==> UpToBare(db, i + 1) == OfAll(db, i + 1))
  {
    if db[i].None? || Bare(db[i]) {
      assert [] + OfAll(db, i + 1) == OfAll(db, i + 1);
    } else {
      SameTail(OfNode(i, 0, |db[i].value.endpoints|), UpToBare(db, i + 1), OfAll(db, i + 1));
    }
  }

  lemma {:induction false} SameIff(db: Db, i: nat)
    requires i <= |db|
    ensures UpToBare(db, i) == OfAll(db, i) <==> NoneBehindBare(db, i)
    decreases |db| - i
  {
    if i < |db| {
      WalkStep(db, i);
      BareStep(db, i);
      if Bare(db[i]) { OfAllEmptyIff(db, i + 1); } else { SameIff(db, i + 1); }
    }
  }

  lemma {:induction false} SameTail(n: seq<Cursor>, s: seq<Cursor>, t: seq<Cursor>)
    ensures n + s == n + t <==> s == t
  {
    if n + s == n + t {
      assert s == (n + s)[|n|..];
      assert t == (n + t)[|n|..];
    }
  }

  /** It visits every endpoint of every node if and only if none lies behind a stored node without
      endpoints; in particular if every stored node has one. */
  lemma {:induction false} CursorVisitsAllIff(db: Db)
    ensures Visits(db, First(db)) == OfAll(db, 0) <==> NoneBehindBare(db, 0)
  {
    CursorVisits(db);
    SameIff(db, 0);
  }

  // ---------------------------------------------------------------- device keys

  // rd_lookup_by_dsk: the first node whose DSK begins with these bytes.
  predicate Begins(n: Option<Node>, dsk: seq<Byte>) { n.Some? && dsk <= n.value.dsk }

  function LookupFrom(db: Db, dsk: seq<Byte>, i: nat): (j: nat)
    requires i <= |db|
    ensures i <= j <= |db| && (j < |db| ==> Begins(db[j], dsk))
    ensures forall k :: i <= k < j ==> !Begins(db[k], dsk)
    decreases |db| - i
  {
    if i == |db| || Begins(db[i], dsk) then i else LookupFrom(db, dsk, i + 1)
  }

  function Lookup(db: Db, dsk: seq<Byte>): nat {
    if dsk == [] then |db| else LookupFrom(db, dsk, 0)
  }

  function WithDsk(db: Db, i: nat, dsk: seq<Byte>): Db
    requires i < |db| && db[i].Some?
  {
    db[i := Some(db[i].value.(dsk := dsk))]
  }

  // rd_node_add_dsk; `room` says whether memory for the key was found.
  function AddDsk(db: Db, i: nat, dsk: seq<Byte>, room: bool): Db {
    if dsk == [] || i >= |db| || db[i].None? then db
    else
      var earlier := Lookup(db, dsk);
      var cleared := if earlier < |db| then WithDsk(db, earlier, []) else db;
      WithDsk(cleared, i, if room then dsk else [])
  }

  function Alloc(db: Db, i: nat): Db { if i < |db| then db[i := Some(Node([], []))] else db }

  function Free(db: Db, i: nat): Db { if i < |db| then db[i := None] else db }

  predicate Holds(db: Db, i: nat, dsk: seq<Byte>) { i < |db| && db[i].Some? && db[i].value.dsk == dsk }

  // No two nodes hold the same DSK.
  predicate Unique(db: Db) {
    forall i, j :: 0 <= i < j < |db| && db[i].Some? && db[j].Some? && db[i].value.dsk != [] ==>
      db[i].value.dsk != db[j].value.dsk
  }

  // Another node holds exactly this DSK, and the lookup stops before it at a longer one.
  predicate Shadowed(db: Db, i: nat, dsk: seq<Byte>) {
    exists h :: 0 <= h < |db| && h != i && Holds(db, h, dsk) && h != Lookup(db, dsk)
  }

  lemma {:induction false} AddDskAt(db: Db, i: nat, dsk: seq<Byte>, k: nat)
    requires dsk != [] && i < |db| && db[i].Some? && k < |db|
    ensures |AddDsk(db, i, dsk, true)| == |db|
    ensures AddDsk(db, i, dsk, true)[k].Some? <==> db[k].Some?
    ensures db[k].Some? ==>
      AddDsk(db, i, dsk, true)[k].value.dsk == (if k == i then dsk else if k == Lookup(db, dsk) then [] else db[k].value.dsk)
  {
  }

  /** Adding a DSK to a node keeps the keys unique if and only if no other holder of the same DSK is
      shadowed by a node with a longer DSK that begins with it. */
  lemma {:induction false} AddKeepsUniqueIff(db: Db, i: nat, dsk: seq<Byte>)
    requires Unique(db) && dsk != [] && i < |db| && db[i].Some?
    ensures Unique(AddDsk(db, i, dsk, true)) <==> !Shadowed(db, i, dsk)
  {
    var u := AddDsk(db, i, dsk, true);
    if Shadowed(db, i, dsk) {
      var h :| 0 <= h < |db| && h != i && Holds(db, h, dsk) && h != Lookup(db, dsk);
      AddDskAt(db, i, dsk, h);
      AddDskAt(db, i, dsk, i);
      assert Holds(u, h, dsk) && Holds(u, i, dsk);
    } else {
      forall a, b | 0 <= a < b < |u| && u[a].Some? && u[b].Some? && u[a].value.dsk != []
        ensures u[a].value.dsk != u[b].value.dsk
      {
        AddDskAt(db, i, dsk, a);
        AddDskAt(db, i, dsk, b);
        assert a == i && b != Lookup(db, dsk) ==> !Holds(db, b, dsk);
        assert b == i && a != Lookup(db, dsk) ==> !Holds(db, a, dsk);
      }
    }
  }

  // All keys have the same length, as keys of sixteen bytes do.
  predicate Uniform(db: Db, length: nat) {
    forall i :: 0 <= i < |db| && db[i].Some? && db[i].value.dsk != [] ==> |db[i].value.dsk| == length
  }

  lemma {:induction false} UniformNotShadowed(db: Db, i: nat, dsk: seq<Byte>)
    requires Unique(db) && Uniform(db, |dsk|) && dsk != []
    ensures !Shadowed(db, i, dsk)
  {
    var l := Lookup(db, dsk);
    if l < |db| { assert dsk <= db[l].value.dsk && |db[l].value.dsk| == |dsk| && Holds(db, l, dsk); }
    forall h | 0 <= h < |db| && Holds(db, h, dsk) ensures h == l { assert Begins(db[h], dsk); }
  }

  datatype Event = Allocate(slot: nat) | Release(slot: nat) | Key(slot: nat, dsk: seq<Byte>, room: bool)

  function Step(db: Db, e: Event): Db {
    match e
    case Allocate(i) => Alloc(db, i)
    case Release(i) => Free(db, i)
    case Key(i, dsk, room) => AddDsk(db, i, dsk, room)
  }

  function Run(db: Db, es: seq<Event>): Db
    decreases |es|
  {
    if es == [] then db else Run(Step(db, es[0]), es[1..])
  }

  lemma {:induction false} ClearKeeps(db: Db, i: nat, length: nat)
    requires Unique(db) && Uniform(db, length) && i < |db| && db[i].Some?
    ensures Unique(WithDsk(db, i, [])) && Uniform(WithDsk(db, i, []), length)
  {
  }

  lemma {:induction false} StepKeeps(db: Db, e: Event, length: nat)
    requires Unique(db) && Uniform(db, length) && (e.Key? ==> e.dsk == [] || |e.dsk| == length)
    ensures Unique(Step(db, e)) && Uniform(Step(db, e), length) && |Step(db, e)| == |db|
  {
    if e.Key? && e.dsk != [] && e.slot < |db| && db[e.slot].Some? {
      if e.room {
        UniformNotShadowed(db, e.slot, e.dsk);
        AddKeepsUniqueIff(db, e.slot, e.dsk);
        var u := AddDsk(db, e.slot, e.dsk, true);
        forall k | 0 <= k < |u| && u[k].Some? && u[k].value.dsk != [] ensures |u[k].value.dsk| == length {
          AddDskAt(db, e.slot, e.dsk, k);
        }
      } else {
        var earlier := Lookup(db, e.dsk);
        if earlier < |db| { ClearKeeps(db, earlier, length); }
        ClearKeeps(if earlier < |db| then WithDsk(db, earlier, []) else db, e.slot, length);
      }
    }
  }

  /** Over any sequence of allocations, releases and additions of keys of one length, no two nodes ever
      hold the same key. */
  lemma {:induction false} RunKeepsUnique(db: Db, es: seq<Event>, length: nat)
    requires Unique(db) && Uniform(db, length)
    requires forall i :: 0 <= i < |es| && es[i].Key? ==> es[i].dsk == [] || |es[i].dsk| == length
    ensures Unique(Run(db, es)) && Uniform(Run(db, es), length)
    decreases |es|
  {
    if es != [] {
      StepKeeps(db, es[0], length);
      RunKeepsUnique(Step(db, es[0]), es[1..], length);
    }
  }

  /** Right after a key was added to a node, the key leads to that node. */
  lemma {:induction false} AddThenLookup(db: Db, i: nat, dsk: seq<Byte>)
    requires Unique(db) && Uniform(db, |dsk|) && dsk != [] && i < |db| && db[i].Some?
    ensures Lookup(AddDsk(db, i, dsk, true), dsk) == i
  {
    var u := AddDsk(db, i, dsk, true);
    StepKeeps(db, Key(i, dsk, true), |dsk|);
    AddDskAt(db, i, dsk, i);
    var l := Lookup(u, dsk);
    assert Begins(u[i], dsk);
    assert dsk <= u[l].value.dsk && |u[l].value.dsk| == |dsk|;
    assert u[l].value.dsk == dsk;
  }

  /** Keys of different lengths break uniqueness: a longer key that begins with `d` at a lower id hides
      the holder of `d`. */
  lemma {:induction false} LongerKeyShadows(d: seq<Byte>, x: Byte)
    requires d != []
    ensures var db := [Some(Node(d + [x], [])), Some(Node(d, [])), Some(Node([], []))];
      Unique(db) && !Unique(AddDsk(db, 2, d, true))
  {
    var db := [Some(Node(d + [x], [])), Some(Node(d, [])), Some(Node([], []))];
    assert |d + [x]| == |d| + 1;
    assert Begins(db[0], d);
    assert Lookup(db, d) == 0;
    assert Holds(db, 1, d) && 1 != Lookup(db, d);
    AddKeepsUniqueIff(db, 2, d);
  }
}
