/** What several components share: optional values, bytes, and the fixed pools and lists of the C code. */
module Common {

  datatype Option<+T> = None | Some(value: T)

  type Byte = x: int | 0 <= x < 256

  function Without<T>(list: seq<T>, i: nat): seq<T>
    requires i < |list|
  {
    list[..i] + list[i + 1..]
  }

  lemma {:induction false} WithoutMember<T>(list: seq<T>, i: nat, k: nat)
    requires i < |list| && k < |list| - 1
    ensures Without(list, i)[k] == list[if k < i then k else k + 1]
  {
  }

  lemma {:induction false} ConcatAssoc<T>(a: seq<T>, b: seq<T>, c: seq<T>)
    ensures a + b + c == a + (b + c)
  {
  }

  // memb_alloc: the lowest free slot from `i` on of a pool of `size` slots.
  function LowestFree(inUse: set<nat>, size: nat, i: nat): (r: Option<nat>)
    ensures r.Some? ==> i <= r.value < size && r.value !in inUse
    ensures r.None? ==> forall j :: i <= j < size ==> j in inUse
    decreases size - i
  {
    if i >= size then None else if i !in inUse then Some(i) else LowestFree(inUse, size, i + 1)
  }

  // A pool with fewer slots in use than it has has a free one.
  lemma {:induction false} SlotExists(used: set<nat>, size: nat, i: nat)
    requires i <= size && (forall x :: x in used ==> i <= x < size) && |used| < size - i
    ensures exists x :: i <= x < size && x !in used
    decreases size - i
  {
    if i in used {
      var less := used - {i};
      SlotExists(less, size, i + 1);
      var x :| i + 1 <= x < size && x !in less;
      assert x !in used;
    } else {
      assert i < size;
    }
  }
}
