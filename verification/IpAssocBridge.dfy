/** The procedures of src/Bridge_ip_assoc.c on their globals: marking in place, searching the
    table from the top, and the mutually recursive removal chain. Each is tied to the function
    in `IpAssoc` that the lemmas are about. */
module IpAssocBridge {
  import opened Common
  import opened IpAssoc

  class Bridge {
    var table: seq<Assoc>
    var persisted: seq<Assoc>
    var counter: nat
    var out: seq<Due>
    var log: seq<Act>

    function Snapshot(): Tables
      reads this
    {
      Tables(table, persisted, counter, out, log)
    }

    constructor (t: seq<Assoc>)
      ensures Snapshot() == Tables(t, t, 0, [], [])
    {
      table, persisted, counter, out, log := t, t, 0, [], [];
    }

    method FindAndMarkForRemoval(p: Pattern)
      modifies this`table, this`counter
      ensures table == Mark(old(table), p) && counter == CountMatches(old(table), p)
    {
      counter := 0;
      var i := 0;
      while i < |table|
        invariant 0 <= i <= |table| == |old(table)|
        invariant table[i..] == old(table)[i..]
        invariant table[..i] + Mark(table[i..], p) == Mark(old(table), p)
        invariant counter + CountMatches(table[i..], p) == CountMatches(old(table), p)
      {
        ghost var before := table;
        ghost var rest := table[i..];
        assert rest[1..] == table[i + 1..];
        if Matches(table[i], p) {
          table := table[i := table[i].(marked := true)];
          counter := counter + 1;
        }
        assert table[i + 1..] == before[i + 1..];
        assert table[..i + 1] == before[..i] + [if Matches(before[i], p) then before[i].(marked := true) else before[i]];
        i := i + 1;
      }
      assert table[..i] == table && table[i..] == [];
    }

    method FindFirstMarked() returns (found: Option<nat>)
      ensures found.None? <==> CountMarked(table) == 0
      ensures found.Some? ==> found.value == FirstMarked(table)
    {
      var i := 0;
      while i < |table|
        invariant 0 <= i <= |table|
        invariant CountMarked(table[i..]) == CountMarked(table)
        invariant CountMarked(table) > 0 ==> i + FirstMarked(table[i..]) == FirstMarked(table)
      {
        assert table[i..][1..] == table[i + 1..];
        if table[i].marked {
          return Some(i);
        }
        i := i + 1;
      }
      return None;
    }

    // A bridge without marked entries stops at the code's assertion; `IpAssocRuns` says when.
    method RemoveAllMarked(env: Env)
      modifies this
      ensures Snapshot() == RemoveMarked(old(Snapshot()), env)
      decreases |table|, 1
    {
      var found := FindFirstMarked();
      if found.None? {
        log := log + [AssertionFailed];
        return;
      }
      var a := table[found.value];
      if a.slot !in env.reachable {
        RemoveAndPersist(found.value, env);
        return;
      }
      out := out + [Transmit(a)];
      log := log + [SendRemove(a.slot)];
    }

    method RemoveAndPersist(i: nat, env: Env)
      requires i < |table|
      modifies this
      ensures Snapshot() == Removed(old(Snapshot()), i, env)
      decreases |table|, 0
    {
      var a := table[i];
      table := Without(table, i);
      FinishRemoval(a, env);
      persisted := table;
    }

    method FinishRemoval(a: Assoc, env: Env)
      modifies this
      ensures Snapshot() == AfterRemoval(old(Snapshot()), a, env)
      decreases |table|, 3
    {
      if a.permanent {
        log := log + [LeaveNetwork(a.virtualId)];
        if a.slot in env.learnAccepted {
          out := out + [Learn];
        } else {
          ContinueWithNext(env);
        }
      } else {
        ContinueWithNext(env);
      }
    }

    method ContinueWithNext(env: Env)
      modifies this
      ensures Snapshot() == Continue(old(Snapshot()), env)
      decreases |table|, 2
    {
      if counter > 0 { counter := counter - 1; }
      if counter != 0 {
        RemoveAllMarked(env);
      } else {
        log := log + [Ack(true), Report, VirtualNodesRemoved];
      }
    }

    method HandleRemove(p: Pattern, env: Env)
      modifies this
      ensures Snapshot() == RemoveCommand(old(Snapshot()), p, env)
    {
      if counter != 0 {
        log := log + [Ack(false), Report];
        return;
      }
      MarkCounts(table, p);
      FindAndMarkForRemoval(p);
      if counter != 0 {
        RemoveAllMarked(env);
        return;
      }
      log := log + [Ack(true), Report];
    }

    method RemoveByNodeId(node: int, env: Env)
      modifies this
      ensures Snapshot() == RemoveByNode(old(Snapshot()), node, env)
    {
      MarkCounts(table, Pattern(node, 0, 0, None));
      FindAndMarkForRemoval(Pattern(node, 0, 0, None));
      if counter != 0 {
        RemoveAllMarked(env);
      } else {
        log := log + [VirtualNodesRemoved];
      }
    }

    // The search for the entry that a callback was armed with, as the list code does it.
    method FindEntry(slot: nat) returns (i: nat)
      ensures i == IndexOf(table, slot)
    {
      i := 0;
      while i < |table|
        invariant 0 <= i <= |table|
        invariant forall j :: 0 <= j < i ==> table[j].slot != slot
      {
        if table[i].slot == slot { return; }
        i := i + 1;
      }
    }

    // ip_assoc_remove_callback for the callback at position `i`; overlapping requests may have taken
    // its entry out already.
    method RemoveCallback(i: nat, ok: bool, env: Env)
      requires i < |out| && out[i].Transmit?
      modifies this
      ensures Snapshot() == Answer(old(Snapshot()), i, ok, env)
      ensures old(Sound(Snapshot())) ==> Sound(Snapshot())
    {
      ghost var s := Snapshot();
      if Sound(s) { CallbackIsSound(s, TransmitDone(ok), env); }
      var a := out[i].entry;
      out := out[..i] + out[i + 1..];
      if ok {
        var k := FindEntry(a.slot);
        if k < |table| {
          RemoveAndPersist(k, env);
        } else {
          FinishRemoval(a, env);
          persisted := table;
        }
      } else {
        log := log + [Ack(false), Report];
      }
    }

    method LearnCallback(i: nat, env: Env)
      requires i < |out| && out[i].Learn?
      modifies this
      ensures Snapshot() == Answer(old(Snapshot()), i, true, env)
      ensures old(Sound(Snapshot())) ==> Sound(Snapshot())
    {
      ghost var s := Snapshot();
      if Sound(s) { CallbackIsSound(s, LearnDone, env); }
      out := out[..i] + out[i + 1..];
      ContinueWithNext(env);
    }
  }
}
