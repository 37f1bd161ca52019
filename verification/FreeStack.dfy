/** LIFO pool of slot indices. */
module FreeStack {
  import opened Machine

  /** No index twice, every index below the capacity. */
  predicate DistinctBelow(s: seq<nat>, cap: nat) {
    && (forall i :: 0 <= i < |s| ==> s[i] < cap)
    && (forall i, j :: 0 <= i < j < |s| ==> s[i] != s[j])
  }

  lemma {:induction false} DistinctCount(s: seq<nat>, cap: nat)
    requires DistinctBelow(s, cap)
    ensures |Elements(s)| == |s|
  {
    if s == [] {
      assert Elements(s) == {};
    } else {
      var n := |s| - 1;
      DistinctCount(s[..n], cap);
      assert Elements(s) == Elements(s[..n]) + {s[n]};
    }
  }

  /** The indices below n. */
  function Below(n: nat): (r: set<nat>)
    ensures forall x: nat :: x in r <==> x < n
  {
    if n == 0 then {} else Below(n - 1) + {n - 1}
  }

  lemma {:induction false} BelowCount(n: nat)
    ensures |Below(n)| == n
  {
    if n > 0 {
      BelowCount(n - 1);
    }
  }

  lemma {:induction false} SubsetCount(a: set<nat>, b: set<nat>)
    requires a <= b
    ensures |a| <= |b|
  {
    assert b == a + (b - a);
  }

  /** An index that is not in the pool leaves room for itself. */
  lemma {:induction false} RoomForMissing(s: seq<nat>, cap: nat, x: nat)
    requires DistinctBelow(s, cap) && x < cap && x !in s
    ensures |s| < cap
  {
    DistinctCount(s, cap);
    BelowCount(cap);
    SubsetCount(Elements(s) + {x}, Below(cap));
  }

  class IndexFreeStack {
    const capacity: nat
    const indices: array<nat>
    var top: nat
    ghost var free: set<nat>

    ghost predicate Valid()
      reads this, indices
    {
      && indices.Length == capacity && top <= capacity
      && DistinctBelow(indices[..top], capacity)
      && free == Elements(indices[..top])
    }

    /** The free indices, next to be handed out last. */
    ghost function Stack(): seq<nat>
      requires Valid()
      reads this, indices
    {
      indices[..top]
    }

    constructor (cap: nat)
      requires cap >= 1
      ensures Valid() && fresh(indices) && capacity == cap
      ensures Stack() == seq(cap, i requires 0 <= i < cap => cap - 1 - i)
      ensures free == Below(cap)
    {
      capacity := cap;
      indices := new nat[cap];
      top := 0;
      new;
      for i := 0 to cap
        invariant indices.Length == cap && fresh(indices)
        invariant forall j :: 0 <= j < i ==> indices[j] == cap - 1 - j
      {
        indices[i] := cap - 1 - i;
      }
      top := cap;
      free := Below(cap);
      forall x: nat | x < cap
        ensures x in indices[..cap]
      {
        assert indices[..cap][cap - 1 - x] == x;
      }
    }

    method Pop() returns (ok: bool, out: nat)
      requires Valid()
      modifies this
      ensures Valid()
      ensures ok == (old(Stack()) != [])
      ensures ok ==> Stack() + [out] == old(Stack())
      ensures ok ==> out in old(free) && free == old(free) - {out} && out < capacity
      ensures !ok ==> old(free) == {} && Stack() == old(Stack())
    {
      if top == 0 {
        return false, 0;
      }
      top := top - 1;
      out := indices[top];
      ok := true;
      free := free - {out};
      assert indices[..top] + [out] == old(indices[..top]);
    }

    /** Returning an index that is out: neither of the two aborts is reached. */
    method Push(idx: nat)
      requires Valid() && idx < capacity && idx !in free
      modifies this, indices
      ensures Valid()
      ensures Stack() == old(Stack()) + [idx]
      ensures free == old(free) + {idx}
    {
      RoomForMissing(indices[..top], capacity, idx);
      indices[top] := idx;
      top := top + 1;
      free := free + {idx};
      assert indices[..top] == old(indices[..top]) + [idx];
    }
  }
}
