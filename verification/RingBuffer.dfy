/** A ring buffer with a wrapping 32-bit write index: a queue that drops its oldest element. */
module RingBuffers {
  import opened Machine

  /** The queue after a push: the oldest element makes room when it is full. */
  function Pushed<T>(q: seq<T>, x: T, cap: nat): (r: seq<T>)
    requires |q| <= cap
    ensures |r| <= cap
  {
    if cap == 0 then q else if |q| < cap then q + [x] else q[1..] + [x]
  }

  function PushedAll<T>(q: seq<T>, xs: seq<T>, cap: nat): (r: seq<T>)
    requires |q| <= cap
    ensures |r| <= cap
  {
    if xs == [] then q else Pushed(PushedAll(q, xs[..|xs| - 1], cap), xs[|xs| - 1], cap)
  }

  /** After any pushes the queue is the end of everything pushed, as much as fits. */
  lemma {:induction false} KeepsNewest<T>(q: seq<T>, xs: seq<T>, cap: nat)
    requires |q| <= cap
    ensures var all := q + xs; PushedAll(q, xs, cap) == if |all| <= cap then all else all[|all| - cap..]
  {
    if xs == [] {
      assert q + xs == q;
    } else {
      var n := |xs| - 1;
      KeepsNewest(q, xs[..n], cap);
      assert q + xs == (q + xs[..n]) + [xs[n]];
    }
  }

  predicate ValidCapacity(c: nat) {
    2 <= c < U32 && IsPow2(c)
  }

  // ---------------------------------------------------------------------------
  // Positions
  // ---------------------------------------------------------------------------

  /** The position d before the one where the next element goes. */
  function Behind(w: nat, d: nat, cap: nat): (p: nat)
    requires cap > 0
    ensures p < cap
  {
    (w - d) % cap
  }

  /** A 32-bit intermediate result keeps the position. */
  lemma {:induction false} WrapInside(y: int, z: int, cap: nat)
    requires ValidCapacity(cap)
    ensures (Wrap32(y) + z) % cap == (y + z) % cap
  {
    WordsArePow2();
    Pow2Divides(cap, U32);
    var q := y / U32;
    assert y + z == U32 * q + (Wrap32(y) + z);
    AddMultiple(Wrap32(y) + z, q, cap);
  }

  lemma {:induction false} AddMultiple(x: int, q: int, cap: nat)
    requires cap > 0 && U32 % cap == 0
    ensures (U32 * q + x) % cap == x % cap
  {
    var k := U32 / cap;
    assert U32 == cap * k;
    assert U32 * q == cap * (k * q);
    assert U32 * q + x == cap * (k * q + x / cap) + x % cap;
    ModUnique(U32 * q + x, cap, k * q + x / cap, x % cap);
  }

  lemma {:induction false} ModThen(y: int, i: int, cap: nat)
    requires cap > 0
    ensures (y % cap + i) % cap == (y + i) % cap
  {
    var q, s := y / cap, y % cap + i;
    assert y + i == cap * q + s;
    assert s == cap * (s / cap) + s % cap;
    assert cap * q + cap * (s / cap) == cap * (q + s / cap);
    ModUnique(y + i, cap, q + s / cap, s % cap);
  }

  /** Fewer than cap steps apart lies another position. */
  lemma {:induction false} Apart(x: int, d: int, cap: nat)
    requires 0 < d < cap
    ensures (x - d) % cap != x % cap
  {
    var q, r := x / cap, x % cap;
    if d <= r {
      ModUnique(x - d, cap, q, r - d);
    } else {
      assert cap * (q - 1) == cap * q - cap;
      ModUnique(x - d, cap, q - 1, r - d + cap);
    }
  }

  // ---------------------------------------------------------------------------
  // The buffer holds the queue
  // ---------------------------------------------------------------------------

  ghost predicate Holds<T>(buf: seq<T>, w: nat, q: seq<T>) {
    0 < |buf| && |q| <= |buf| && forall i :: 0 <= i < |q| ==> buf[Behind(w, |q| - i, |buf|)] == q[i]
  }

  /** Writing one element moves everything one position back, and overwrites none that is less
      than the capacity behind. */
  lemma {:induction false} OneFurther(w: nat, d: nat, cap: nat)
    requires ValidCapacity(cap) && d < cap
    ensures Behind(Wrap32(w + 1), d + 1, cap) == Behind(w, d, cap)
    ensures Behind(w, d, cap) == Behind(w, 0, cap) <==> d == 0
  {
    WrapInside(w + 1, -(d + 1), cap);
    if d > 0 {
      Apart(w, d, cap);
    }
  }

  lemma {:induction false} PushHolds<T>(buf: seq<T>, w: nat, q: seq<T>, x: T)
    requires ValidCapacity(|buf|) && Holds(buf, w, q)
    ensures Holds(buf[Behind(w, 0, |buf|) := x], Wrap32(w + 1), Pushed(q, x, |buf|))
  {
    hide Behind;
    var cap, q' := |buf|, Pushed(q, x, |buf|);
    forall i | 0 <= i < |q'|
      ensures buf[Behind(w, 0, cap) := x][Behind(Wrap32(w + 1), |q'| - i, cap)] == q'[i]
    {
      OneFurther(w, |q'| - 1 - i, cap);
      if i < |q'| - 1 {
        var j := i + |q| - (|q'| - 1);
        assert buf[Behind(w, |q| - j, cap)] == q[j];
      }
    }
  }

  lemma {:induction false} PopHolds<T>(buf: seq<T>, w: nat, q: seq<T>)
    requires Holds(buf, w, q) && q != []
    ensures Holds(buf, w, q[1..])
  {
    hide Behind;
    forall i | 0 <= i < |q[1..]|
      ensures buf[Behind(w, |q[1..]| - i, |buf|)] == q[1..][i]
    {
      assert buf[Behind(w, |q| - (i + 1), |buf|)] == q[i + 1];
    }
  }

  /** The masked 32-bit arithmetic of an access reaches the element meant. */
  lemma {:induction false} HeadThen(w: nat, c: nat, i: nat, cap: nat)
    requires ValidCapacity(cap) && i <= c
    ensures Sub32(w, c) % cap == Behind(w, c, cap)
    ensures Wrap32(Behind(w, c, cap) + i) % cap == Behind(w, c - i, cap)
  {
    WrapInside(w - c, 0, cap);
    WrapInside(Behind(w, c, cap) + i, 0, cap);
    ModThen(w - c, i, cap);
  }

  class RingBuffer<T(0)> {
    const capacity: nat
    const buf: array<T>
    var writeIdx: nat
    var count: nat
    /** The queue, oldest first. */
    ghost var queue: seq<T>

    /** A capacity of zero is the unbound buffer that ignores pushes. */
    ghost predicate Valid()
      reads this, buf
    {
      && buf.Length == capacity && writeIdx < U32 && count == |queue| <= capacity
      && (capacity == 0 || (ValidCapacity(capacity) && Holds(buf[..], writeIdx, queue)))
    }

    constructor (cap: nat)
      requires cap == 0 || ValidCapacity(cap)
      ensures Valid() && fresh(buf) && capacity == cap && queue == []
    {
      capacity, writeIdx, count, queue := cap, 0, 0, [];
      buf := new T[cap];
    }

    /** Physical index of the oldest element. */
    method HeadPhysical() returns (p: nat)
      requires Valid() && capacity != 0
      ensures p == Behind(writeIdx, count, capacity)
    {
      HeadThen(writeIdx, count, 0, capacity);
      p := Mask(Sub32(writeIdx, count), capacity);
    }

    /** The i-th oldest element. */
    method Get(i: nat) returns (x: T)
      requires Valid() && i < count
      ensures x == queue[i]
    {
      hide Behind;
      HeadThen(writeIdx, count, i, capacity);
      var h := HeadPhysical();
      x := buf[Mask(Wrap32(h + i), capacity)];
      assert buf[..][Behind(writeIdx, count - i, capacity)] == queue[i];
    }

    method Front() returns (x: T)
      requires Valid() && count > 0
      ensures x == queue[0]
    {
      hide Behind;
      var h := HeadPhysical();
      x := buf[h];
      assert buf[..][Behind(writeIdx, count - 0, capacity)] == queue[0];
    }

    method Back() returns (x: T)
      requires Valid() && count > 0
      ensures x == queue[count - 1]
    {
      hide Behind;
      HeadThen(writeIdx, 1, 0, capacity);
      x := buf[Mask(Sub32(writeIdx, 1), capacity)];
      assert buf[..][Behind(writeIdx, count - (count - 1), capacity)] == queue[count - 1];
    }

    method Push(x: T)
      requires Valid()
      modifies this, buf
      ensures Valid() && queue == Pushed(old(queue), x, capacity)
    {
      if capacity == 0 {
        return;
      }
      PushHolds(buf[..], writeIdx, queue, x);
      buf[Mask(writeIdx, capacity)] := x;
      assert buf[..] == old(buf[..])[Behind(writeIdx, 0, capacity) := x];
      writeIdx := Wrap32(writeIdx + 1);
      queue := Pushed(queue, x, capacity);
      if count < capacity {
        count := count + 1;
      }
    }

    method PopFront()
      requires Valid() && count > 0
      modifies this
      ensures Valid() && queue == old(queue)[1..]
    {
      PopHolds(buf[..], writeIdx, queue);
      count := count - 1;
      queue := queue[1..];
    }

    method Clear()
      requires Valid()
      modifies this
      ensures Valid() && queue == []
    {
      writeIdx, count, queue := 0, 0, [];
    }
  }
}
