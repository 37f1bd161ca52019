/** The order rate limiter keeps its promise despite its 32-bit arithmetic. */
module TokenBucket {
  import opened Machine
  import opened Books
  import opened Desks

  /** One call: the clock reading, whether it got as far as the bucket, and whether it took a
      token. */
  datatype Look = Look(now: int, reached: bool, took: bool)

  datatype Bucket = Bucket(tokens: nat, last: int)

  /** The bucket after one look. */
  function After(b: Bucket, cap: nat, interval: int, k: Look): Bucket
    requires interval > 0
  {
    if !k.reached then b
    else
      var (tokens, last) := Refill(b.tokens, b.last, k.now, cap, interval);
      Bucket(if k.took && tokens > 0 then tokens - 1 else tokens, last)
  }

  /** A token is taken only when there is one. */
  ghost predicate Honest(b: Bucket, cap: nat, interval: int, k: Look)
    requires interval > 0
  {
    k.took ==> k.reached && Refill(b.tokens, b.last, k.now, cap, interval).0 > 0
  }

  function Taken(ks: seq<Look>): nat {
    if ks == [] then 0 else Taken(ks[..|ks| - 1]) + (if ks[|ks| - 1].took then 1 else 0)
  }

  /** states[i] is the bucket before look i; the clock never goes back and starts at or after
      the last refill. */
  ghost predicate Run(states: seq<Bucket>, ks: seq<Look>, cap: nat, interval: int) {
    && interval > 0 && |states| == |ks| + 1 && cap < U32
    && (forall i :: 0 <= i < |ks| ==> Honest(states[i], cap, interval, ks[i]) && states[i + 1] == After(states[i], cap, interval, ks[i]))
    && (forall i, j :: 0 <= i < j < |ks| ==> ks[i].now <= ks[j].now)
    && states[0].tokens <= cap && (ks != [] ==> states[0].last <= ks[0].now)
  }

  /** Whole intervals between the last refill and a later time. */
  function Due(last: int, now: int, interval: int): int
    requires interval > 0
  {
    (now - last) / interval
  }

  lemma {:induction false} DivShift(x: int, c: int, k: int)
    requires c > 0
    ensures (x - k * c) / c == x / c - k
  {
    var q, r := x / c, x % c;
    assert x == c * q + r;
    assert x - k * c == c * (q - k) + r;
    ModUnique(x - k * c, c, q - k, r);
  }

  /** A refill credits the intervals due modulo 2^32 and leaves the rest due: a multiple of
      2^32. */
  lemma {:induction false} RefillCredits(tokens: nat, last: int, now: int, cap: nat, interval: int)
    requires interval > 0 && last <= now && tokens <= cap < U32
    ensures var (t, last') := Refill(tokens, last, now, cap, interval);
            var credit := Due(last, now, interval) % U32;
            && t <= cap && t <= tokens + credit
            && last' == last + credit * interval && last' <= now
            && Due(last', now, interval) == Due(last, now, interval) - credit
            && Due(last', now, interval) % U32 == 0 && Due(last', now, interval) >= 0
  {
    var k := Due(last, now, interval);
    var credit := k % U32;
    assert now - last == interval * k + (now - last) % interval;
    if now - last < interval {
      ModUnique(now - last, interval, 0, now - last);
    } else {
      DivShift(now - last, interval, credit);
      assert (now - last) - credit * interval == now - (last + credit * interval);
      MulMonotone(interval, credit, k);
    }
  }

  /** Intervals that pass between two times, counted from any start, are at most those of
      their distance plus one. */
  lemma {:induction false} DueGrows(last: int, t1: int, t2: int, interval: int)
    requires interval > 0 && t1 <= t2
    ensures Due(last, t1, interval) <= Due(last, t2, interval) <= Due(last, t1, interval) + (t2 - t1) / interval + 1
  {
    var a, b, c := t1 - last, t2 - last, t2 - t1;
    var q, r := a / interval + c / interval, a % interval + c % interval;
    assert b == interval * q + r by {
      assert interval * q == interval * (a / interval) + interval * (c / interval);
    }
    if r < interval {
      ModUnique(b, interval, q, r);
    } else {
      assert interval * (q + 1) == interval * q + interval;
      ModUnique(b, interval, q + 1, r - interval);
    }
  }

  /** What is credited at a later look is at most the intervals that passed in between. */
  lemma {:induction false} NextCredit(last: int, t1: int, t2: int, interval: int)
    requires interval > 0 && t1 <= t2 && Due(last, t1, interval) >= 0 && Due(last, t1, interval) % U32 == 0
    ensures Due(last, t2, interval) % U32 <= Due(last, t2, interval) - Due(last, t1, interval)
  {
    DueGrows(last, t1, t2, interval);
    var a, b := Due(last, t1, interval), Due(last, t2, interval);
    assert a == U32 * (a / U32);
    assert (b - a) % U32 == b % U32 by {
      ModUnique(b - a, U32, b / U32 - a / U32, b % U32);
    }
  }

  lemma {:induction false} MoreIntervals(base: int, c: int, more: int, interval: int)
    ensures base + (c + more) * interval == (base + c * interval) + more * interval
  {
  }

  /** Counting from c intervals later counts c fewer. */
  lemma {:induction false} DueFrom(base: int, c: int, now: int, interval: int)
    requires interval > 0
    ensures Due(base + c * interval, now, interval) == Due(base, now, interval) - c
  {
    DivShift(now - base, interval, c);
    assert (now - base) - c * interval == now - (base + c * interval);
  }

  /** One more look: the bucket's position relative to a fixed base and what it costs. */
  lemma {:induction false} OneLook(b: Bucket, k: Look, prev: int, base: int, c: int, cap: nat, interval: int) returns (c': int)
    requires interval > 0 && b.tokens <= cap < U32 && Honest(b, cap, interval, k) && k.reached
    requires b.last == base + c * interval && b.last <= prev <= k.now
    requires Due(b.last, prev, interval) >= 0 && Due(b.last, prev, interval) % U32 == 0
    ensures var b' := After(b, cap, interval, k);
            && b'.last == base + c' * interval && b'.last <= k.now && b'.tokens <= cap
            && Due(b'.last, k.now, interval) >= 0 && Due(b'.last, k.now, interval) % U32 == 0
            && (if k.took then 1 else 0) + b'.tokens <= b.tokens + (c' - c)
            && 0 <= c' - c <= Due(base, k.now, interval) - Due(base, prev, interval)
  {
    var credit := Due(b.last, k.now, interval) % U32;
    RefillCredits(b.tokens, b.last, k.now, cap, interval);
    NextCredit(b.last, prev, k.now, interval);
    c' := c + credit;
    MoreIntervals(base, c, credit, interval);
    DueFrom(base, c, k.now, interval);
    DueFrom(base, c, prev, interval);
    hide Due, Refill;
  }

  lemma {:induction false} FirstLook(b: Bucket, k: Look, cap: nat, interval: int)
    requires interval > 0 && b.tokens <= cap < U32 && Honest(b, cap, interval, k) && b.last <= k.now && k.reached
    ensures var b' := After(b, cap, interval, k);
            && b'.last <= k.now && Due(b'.last, k.now, interval) >= 0 && Due(b'.last, k.now, interval) % U32 == 0
            && (if k.took then 1 else 0) + b'.tokens <= cap
  {
    RefillCredits(b.tokens, b.last, k.now, cap, interval);
  }

  lemma {:induction false} TakenMore(ks: seq<Look>, first: nat, n: nat)
    requires first < n <= |ks|
    ensures Taken(ks[first..n]) == Taken(ks[first..n - 1]) + (if ks[n - 1].took then 1 else 0)
  {
    assert ks[first..n][..n - first - 1] == ks[first..n - 1];
  }

  /** Along a run, tokens taken since a call that reached the bucket are paid for by a full
      bucket and the intervals credited since, up to the last call that reached it. */
  lemma {:induction false} Paid(states: seq<Bucket>, ks: seq<Look>, cap: nat, interval: int, first: nat, n: nat)
    returns (c: int, t: int)
    requires Run(states, ks, cap, interval) && first < n <= |ks| && ks[first].reached
    requires states[first].tokens <= cap && states[first].last <= ks[first].now
    ensures var b, base := states[n], states[first + 1].last;
            && b.last == base + c * interval && b.last <= t && ks[first].now <= t <= ks[n - 1].now && b.tokens <= cap
            && Due(b.last, t, interval) >= 0 && Due(b.last, t, interval) % U32 == 0
            && Taken(ks[first..n]) + b.tokens <= cap + c
            && c <= Due(base, t, interval) - Due(base, ks[first].now, interval)
    decreases n
  {
    TakenMore(ks, first, n);
    hide Due;
    var b, k := states[n - 1], ks[n - 1];
    assert Honest(b, cap, interval, k) && states[n] == After(b, cap, interval, k);
    if n == first + 1 {
      c, t := 0, k.now;
      FirstLook(b, k, cap, interval);
      assert ks[first..first] == [];
    } else {
      var c0, t0 := Paid(states, ks, cap, interval, first, n - 1);
      assert ks[n - 2].now <= k.now;
      c, t := c0, t0;
      if k.reached {
        hide After, Honest;
        c := OneLook(b, k, t0, states[first + 1].last, c0, cap, interval);
        t := k.now;
      }
    }
  }

  lemma {:induction false} BucketInRange(states: seq<Bucket>, ks: seq<Look>, cap: nat, interval: int, n: nat)
    requires Run(states, ks, cap, interval) && n < |ks|
    ensures states[n].tokens <= cap && states[n].last <= ks[n].now
  {
    if n > 0 {
      BucketInRange(states, ks, cap, interval, n - 1);
      assert ks[n - 1].now <= ks[n].now;
      assert states[n] == After(states[n - 1], cap, interval, ks[n - 1]);
      RefillCredits(states[n - 1].tokens, states[n - 1].last, ks[n - 1].now, cap, interval);
    }
  }

  /** The bound of a window that begins with a token taken. */
  lemma {:induction false} RateFromTake(states: seq<Bucket>, ks: seq<Look>, cap: nat, interval: int, first: nat, n: nat)
    requires Run(states, ks, cap, interval) && first < n <= |ks| && ks[first].took
    ensures Taken(ks[first..n]) <= cap + (ks[n - 1].now - ks[first].now) / interval + 1
  {
    BucketInRange(states, ks, cap, interval, first);
    assert Honest(states[first], cap, interval, ks[first]);
    var c, t := Paid(states, ks, cap, interval, first, n);
    assert n - 1 > first ==> ks[first].now <= ks[n - 1].now;
    DueGrows(states[first + 1].last, ks[first].now, t, interval);
    DueGrows(states[first + 1].last, t, ks[n - 1].now, interval);
    DueGrows(states[first + 1].last, ks[first].now, ks[n - 1].now, interval);
  }

  lemma {:induction false} TakenTail(ks: seq<Look>)
    requires ks != [] && !ks[0].took
    ensures Taken(ks) == Taken(ks[1..])
  {
    var n := |ks| - 1;
    if n == 0 {
      assert ks[..0] == [] && ks[1..] == [];
    } else {
      TakenTail(ks[..n]);
      assert ks[..n][1..] == ks[1..][..n - 1];
    }
  }

  /** From any call at t1 to a call at t2, no more orders are let through than a full bucket, one
      for each interval of t2 - t1, and one. */
  lemma {:induction false} RateBound(states: seq<Bucket>, ks: seq<Look>, cap: nat, interval: int, first: nat, n: nat)
    requires Run(states, ks, cap, interval) && first < n <= |ks|
    ensures Taken(ks[first..n]) <= cap + (ks[n - 1].now - ks[first].now) / interval + 1
    decreases n - first
  {
    if ks[first].took {
      RateFromTake(states, ks, cap, interval, first, n);
      return;
    }
    TakenTail(ks[first..n]);
    assert ks[first..n][1..] == ks[first + 1..n];
    if first + 1 == n {
      assert ks[n..n] == [];
      assert 0 / interval == 0;
    } else {
      RateBound(states, ks, cap, interval, first + 1, n);
      DueGrows(0, ks[n - 1].now - ks[first + 1].now, ks[n - 1].now - ks[first].now, interval);
    }
  }
}
