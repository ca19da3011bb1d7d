/** The node database as the code keeps it: a table of records updated in place, searched by loops. */
module NodeDatabase {
  import opened Common
  import opened NodeDb

  class Database {
    var nodes: array<Option<Node>>

    constructor ()
      ensures fresh(nodes) && nodes.Length == MAX_NODES && forall i :: 0 <= i < MAX_NODES ==> nodes[i].None?
    {
      nodes := new Option<Node>[MAX_NODES](_ => None);
    }

    method StoredAfter(start: nat) returns (j: nat)
      requires start <= nodes.Length
      ensures j == StoredFrom(nodes[..], start)
    {
      j := start;
      while j < nodes.Length
        invariant start <= j <= nodes.Length
        invariant StoredFrom(nodes[..], start) == StoredFrom(nodes[..], j)
      {
        if nodes[j].Some? { return; }
        j := j + 1;
      }
    }

    method EpFirst() returns (c: Option<Cursor>)
      ensures c == First(nodes[..])
    {
      var j := StoredAfter(0);
      if j < nodes.Length && nodes[j].value.endpoints != [] { return Some(Cursor(j, 0)); }
      return None;
    }

    method EpNext(c: Cursor) returns (n: Option<Cursor>)
      requires Valid(nodes[..], c)
      ensures n == Next(nodes[..], c)
    {
      if c.place + 1 < |nodes[c.slot].value.endpoints| { return Some(c.(place := c.place + 1)); }
      var j := StoredAfter(c.slot + 1);
      if j < nodes.Length && nodes[j].value.endpoints != [] { return Some(Cursor(j, 0)); }
      return None;
    }

    // The loop every user of the cursor writes.
    method EveryEndpoint() returns (seen: seq<Cursor>)
      ensures seen == UpToBare(nodes[..], 0)
      ensures NoneBehindBare(nodes[..], 0) ==> seen == OfAll(nodes[..], 0)
    {
      ghost var db := nodes[..];
      var c := EpFirst();
      seen := [];
      while c.Some?
        invariant nodes[..] == db
        invariant c.Some? ==> Valid(db, c.value)
        invariant Visits(db, First(db)) == seen + Visits(db, c)
        decreases if c.None? then 0 else 1, if c.None? then 0 else |db| - c.value.slot,
                  if c.None? then 0 else |db[c.value.slot].value.endpoints| - c.value.place
      {
        VisitsStep(db, seen, c.value);
        seen := seen + [c.value];
        c := EpNext(c.value);
      }
      assert seen + [] == seen;
      CursorVisits(db);
      CursorVisitsAllIff(db);
    }

    method LookupByDsk(dsk: seq<Byte>) returns (j: nat)
      ensures j == Lookup(nodes[..], dsk)
    {
      if dsk == [] { return nodes.Length; }
      j := 0;
      while j < nodes.Length
        invariant 0 <= j <= nodes.Length
        invariant LookupFrom(nodes[..], dsk, 0) == LookupFrom(nodes[..], dsk, j)
      {
        if nodes[j].Some? && |nodes[j].value.dsk| >= |dsk| {
          if nodes[j].value.dsk[..|dsk|] == dsk { return; }
        }
        j := j + 1;
      }
    }

    method NodeAddDsk(slot: nat, dsk: seq<Byte>, room: bool)
      modifies nodes
      ensures nodes[..] == AddDsk(old(nodes[..]), slot, dsk, room)
    {
      if dsk == [] || slot >= nodes.Length || nodes[slot].None? { return; }
      var earlier := LookupByDsk(dsk);
      if earlier < nodes.Length { nodes[earlier] := Some(nodes[earlier].value.(dsk := [])); }
      nodes[slot] := Some(nodes[slot].value.(dsk := if room then dsk else []));
    }
  }
}
