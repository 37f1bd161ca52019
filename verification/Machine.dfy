/** Machine words: unsigned wrap-around, and the power-of-two masking that the
    containers use in place of a remainder. */
module Machine {

  const U16: nat := 0x1_0000
  const U32: nat := 0x1_0000_0000
  const U64: nat := 0x1_0000_0000_0000_0000

  datatype Option<+T> = None | Some(value: T)

  function Min(a: nat, b: nat): nat {
    if a <= b then a else b
  }

  /** What occurs in a sequence. */
  function Elements<T(==)>(s: seq<T>): set<T> {
    set x | x in s
  }

  /** Unsigned 32-bit result of an addition or a subtraction. */
  function Wrap32(x: int): (r: nat)
    ensures r < U32
  {
    x % U32
  }

  function Sub32(x: int, y: int): (r: nat)
    ensures r < U32
  {
    Wrap32(x - y)
  }

  predicate IsPow2(n: nat) {
    n == 1 || (n > 0 && n % 2 == 0 && IsPow2(n / 2))
  }

  /** Bitwise conjunction of two unsigned words. */
  function BitAnd(a: nat, b: nat): nat {
    if a == 0 || b == 0 then 0
    else 2 * BitAnd(a / 2, b / 2) + (if a % 2 == 1 && b % 2 == 1 then 1 else 0)
  }

  lemma {:induction false} ModUnique(x: int, c: nat, q: int, r: int)
    requires c > 0 && 0 <= r < c
    requires x == c * q + r
    ensures x % c == r
    ensures x / c == q
  {
    var q', r' := x / c, x % c;
    assert x == c * q' + r';
    assert c * (q - q') == r' - r;
    if q > q' {
      MulMonotone(c, 1, q - q');
    } else if q < q' {
      MulMonotone(c, 1, q' - q);
    }
  }

  lemma {:induction false} MulMonotone(c: nat, a: int, b: int)
    requires a <= b
    ensures c * a <= c * b
  {
  }

  /** Halving a remainder: the last binary digit is kept, the rest is reduced
      modulo half the modulus. */
  lemma {:induction false} ModDouble(x: nat, d: nat)
    requires d > 0
    ensures x % (2 * d) == 2 * ((x / 2) % d) + x % 2
  {
    var q, r := (x / 2) / d, (x / 2) % d;
    assert x / 2 == d * q + r;
    assert x == (2 * d) * q + (2 * r + x % 2);
    ModUnique(x, 2 * d, q, 2 * r + x % 2);
  }

  /** Masking with capacity - 1 is the remainder modulo a power-of-two capacity. */
  lemma {:induction false} MaskIsMod(x: nat, c: nat)
    requires IsPow2(c)
    ensures BitAnd(x, c - 1) == x % c
    decreases c
  {
    if c == 1 {
      assert x % 1 == 0;
    } else {
      var d := c / 2;
      assert c == 2 * d && (c - 1) / 2 == d - 1;
      MaskIsMod(x / 2, d);
      ModDouble(x, d);
    }
  }

  function Mask(x: nat, c: nat): (r: nat)
    requires IsPow2(c)
    ensures r == x % c && r < c
  {
    MaskIsMod(x, c);
    BitAnd(x, c - 1)
  }

  /** One step of a masked index. */
  lemma {:induction false} MaskStep(x: nat, c: nat)
    requires IsPow2(c) && x < c
    ensures Mask(x + 1, c) == if x + 1 == c then 0 else x + 1
  {
    if x + 1 == c {
      ModUnique(x + 1, c, 1, 0);
    } else {
      ModUnique(x + 1, c, 0, x + 1);
    }
  }

  /** A smaller power of two divides a larger one. */
  lemma {:induction false} Pow2Divides(c: nat, n: nat)
    requires IsPow2(c) && IsPow2(n) && c <= n
    ensures n % c == 0
    decreases c
  {
    if c == 1 {
    } else {
      Pow2Divides(c / 2, n / 2);
      ModDouble(n, c / 2);
    }
  }

  /** Wrapping a counter at n does not disturb its remainder modulo a divisor of n. */
  lemma {:induction false} ModOfWrapped(x: int, c: nat, n: nat)
    requires c > 0 && n > 0 && n % c == 0
    ensures (x % n) % c == x % c
  {
    var k, q := n / c, x / n;
    assert n == c * k;
    var r := x % n;
    assert x == n * q + r;
    var q2, r2 := r / c, r % c;
    assert r == c * q2 + r2;
    assert n * q == c * (k * q);
    assert x == c * (k * q + q2) + r2;
    ModUnique(x, c, k * q + q2, r2);
  }
  lemma {:induction false} Pow2Double(h: nat)
    requires IsPow2(h)
    ensures IsPow2(2 * h)
  {
    assert 2 * h / 2 == h;
  }

  lemma {:induction false} Pow2Product(a: nat, b: nat)
    requires IsPow2(a) && IsPow2(b)
    ensures IsPow2(a * b)
    decreases a
  {
    if a == 1 {
      assert a * b == b;
      return;
    }
    var h := a / 2;
    Pow2Product(h, b);
    Pow2Double(h * b);
    assert a == 2 * h;
    assert a * b == 2 * (h * b);
  }

  /** Word sizes are powers of two. */
  lemma {:induction false} WordsArePow2()
    ensures IsPow2(U32) && IsPow2(U64)
  {
    assert IsPow2(0x100);
    Pow2Product(0x100, 0x100);
    Pow2Product(U16, U16);
    Pow2Product(U32, U32);
  }
}
