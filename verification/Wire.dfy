/** Bytes on the wire: big-endian fields at fixed offsets. */
module Wire {
  import opened Machine

  type Byte = x: nat | x < 256

  function Pow256(n: nat): (p: nat)
    ensures p > 0
  {
    if n == 0 then 1 else 256 * Pow256(n - 1)
  }

  lemma {:induction false} WordSizes()
    ensures Pow256(1) == 256 && Pow256(2) == U16 && Pow256(4) == U32 && Pow256(8) == U64
  {
    assert Pow256(2) == 256 * 256;
    assert Pow256(4) == 256 * (256 * Pow256(2));
    assert Pow256(6) == 256 * (256 * Pow256(4));
  }

  /** The n bytes of x, most significant first. */
  function BigEndian(x: nat, n: nat): (bs: seq<Byte>)
    ensures |bs| == n
  {
    if n == 0 then [] else BigEndian(x / 256, n - 1) + [x % 256]
  }

  function Value(bs: seq<Byte>): nat {
    if bs == [] then 0 else 256 * Value(bs[..|bs| - 1]) + bs[|bs| - 1]
  }

  lemma {:induction false} ValueOfBytes(x: nat, n: nat)
    requires x < Pow256(n)
    ensures Value(BigEndian(x, n)) == x
  {
    if n > 0 {
      ValueOfBytes(x / 256, n - 1);
      assert BigEndian(x, n)[..n - 1] == BigEndian(x / 256, n - 1);
    }
  }

  lemma {:induction false} BytesOfValue(bs: seq<Byte>)
    ensures Value(bs) < Pow256(|bs|) && BigEndian(Value(bs), |bs|) == bs
  {
    if bs != [] {
      var n := |bs| - 1;
      BytesOfValue(bs[..n]);
      assert Value(bs) / 256 == Value(bs[..n]) && Value(bs) % 256 == bs[n];
    }
  }

  // ---------------------------------------------------------------------------
  // Fields
  // ---------------------------------------------------------------------------

  /** The field of n bytes at an offset. */
  function Load(bs: seq<Byte>, off: nat, n: nat): nat
    requires off + n <= |bs|
  {
    Value(bs[off..off + n])
  }

  lemma {:induction false} KeepsFields(p: seq<Byte>, q: seq<Byte>)
    ensures forall off, k :: 0 <= off && 0 <= k && off + k <= |p| ==> Load(p + q, off, k) == Load(p, off, k)
  {
    forall off, k | 0 <= off && 0 <= k && off + k <= |p|
      ensures Load(p + q, off, k) == Load(p, off, k)
    {
      assert (p + q)[off..off + k] == p[off..off + k];
    }
  }

  /** One more field of n bytes: it can be read back, and those before it are as they were. */
  function Put(p: seq<Byte>, x: nat, n: nat): (r: seq<Byte>)
    ensures |r| == |p| + n && r[..|p|] == p
    ensures x < Pow256(n) ==> Load(r, |p|, n) == x
    ensures forall off, k :: 0 <= off && 0 <= k && off + k <= |p| ==> Load(r, off, k) == Load(p, off, k)
  {
    var r := p + BigEndian(x, n);
    assert r[|p|..|p| + n] == BigEndian(x, n);
    KeepsFields(p, BigEndian(x, n));
    if x < Pow256(n) then ValueOfBytes(x, n); r else r
  }

  /** Any bytes are the fields read from them. */
  lemma {:induction false} Reread(bs: seq<Byte>, off: nat, n: nat)
    requires off + n <= |bs|
    ensures Put(bs[..off], Load(bs, off, n), n) == bs[..off + n] && Load(bs, off, n) < Pow256(n)
  {
    BytesOfValue(bs[off..off + n]);
    assert bs[..off] + bs[off..off + n] == bs[..off + n];
  }

  /** Writes one field into a buffer; what lies after it stays. */
  method Store(buf: array<Byte>, off: nat, x: nat, n: nat)
    requires off + n <= buf.Length
    modifies buf
    ensures buf[..off + n] == Put(old(buf[..off]), x, n)
    ensures forall i :: off + n <= i < buf.Length ==> buf[i] == old(buf[i])
  {
    var bs := BigEndian(x, n);
    for i := 0 to n
      invariant buf[..off] == old(buf[..off]) && forall i :: off + n <= i < buf.Length ==> buf[i] == old(buf[i])
      invariant buf[off..off + i] == bs[..i]
    {
      buf[off + i] := bs[i];
    }
    assert buf[..off + n] == buf[..off] + buf[off..off + n];
  }

  // ---------------------------------------------------------------------------
  // Signed words
  // ---------------------------------------------------------------------------

  predicate Fits64(x: int) {
    -0x8000_0000_0000_0000 <= x < 0x8000_0000_0000_0000
  }

  /** The unsigned word with the same bits. */
  function Unsigned(x: int): (u: nat)
    ensures u < U64
  {
    x % U64
  }

  function Signed(u: nat): (x: int)
    ensures u < U64 ==> Fits64(x) && Unsigned(x) == u
  {
    if u < 0x8000_0000_0000_0000 then u else u - U64
  }

  lemma {:induction false} SignedUnsigned(x: int)
    requires Fits64(x)
    ensures Signed(Unsigned(x)) == x
  {
  }
}
