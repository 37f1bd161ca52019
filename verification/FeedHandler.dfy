/** The market data feed: sequence numbers, gaps and duplicates, over one line or two. */
module FeedHandlers {
  import opened Machine
  import opened Wire
  import opened Protocol

  const DATAGRAM := 34

  // ---------------------------------------------------------------------------
  // Datagrams
  // ---------------------------------------------------------------------------

  ghost predicate Sendable(d: MarketData) {
    d.seqNum < U64 && d.symbol < U32 && Fits64(d.price) && d.qty < U32 && Fits64(d.ts)
  }

  /** The fields in the order of the wire layout, without padding. */
  function DatagramOf(d: MarketData): seq<Byte> {
    Put(Put(Put(Put(Put(Put(Put([], d.seqNum, 8), d.symbol, 4), d.kind, 1), d.side, 1), Unsigned(d.price), 8), d.qty, 4),
        Unsigned(d.ts), 8)
  }

  /** Only a datagram of exactly the right size is read. */
  function MarketDataIn(p: seq<Byte>): Option<MarketData> {
    if |p| != DATAGRAM then None
    else Some(MarketData(Load(p, 0, 8), Load(p, 8, 4), LoadByte(p, 12), LoadByte(p, 13), LoadSigned(p, 14), Load(p, 22, 4),
                         LoadSigned(p, 26)))
  }

  /** What was sent is received. */
  lemma {:induction false} DatagramRoundTrip(d: MarketData)
    requires Sendable(d)
    ensures |DatagramOf(d)| == DATAGRAM && MarketDataIn(DatagramOf(d)) == Some(d)
  {
    hide Put, Load, LoadByte, Signed, Unsigned, Pow256;
    WordSizes();
    SignedUnsigned(d.price);
    SignedUnsigned(d.ts);
  }

  /** And whatever is received was sent. */
  lemma {:induction false} DatagramIsExact(p: seq<Byte>)
    requires MarketDataIn(p).Some?
    ensures Sendable(MarketDataIn(p).value) && DatagramOf(MarketDataIn(p).value) == p
  {
    hide Put, Load, LoadByte, Signed, Unsigned, Pow256;
    WordSizes();
    assert p[..0] == [];
    Reread(p, 0, 8);
    Reread(p, 8, 4);
    Reread(p, 12, 1);
    Reread(p, 13, 1);
    Reread(p, 14, 8);
    Reread(p, 22, 4);
    Reread(p, 26, 8);
    assert p[..DATAGRAM] == p;
  }

  method SerializeMarketData(buf: array<Byte>, d: MarketData) returns (n: nat)
    modifies buf
    ensures n == if buf.Length < DATAGRAM then 0 else DATAGRAM
    ensures n == 0 ==> buf[..] == old(buf[..])
    ensures n != 0 ==> buf[..n] == DatagramOf(d)
    ensures forall i :: DATAGRAM <= i < buf.Length ==> buf[i] == old(buf[i])
  {
    hide Put, Load, Unsigned;
    if buf.Length < DATAGRAM {
      return 0;
    }
    assert buf[..0] == [];
    Store(buf, 0, d.seqNum, 8);
    Store(buf, 8, d.symbol, 4);
    Store(buf, 12, d.kind, 1);
    Store(buf, 13, d.side, 1);
    Store(buf, 14, Unsigned(d.price), 8);
    Store(buf, 22, d.qty, 4);
    Store(buf, 26, Unsigned(d.ts), 8);
    return DATAGRAM;
  }

  // ---------------------------------------------------------------------------
  // Sequencing
  // ---------------------------------------------------------------------------

  datatype Feed = Feed(initialized: bool, expected: nat, updates: nat, gaps: nat, duplicates: nat, errors: nat)

  const IDLE := Feed(false, 0, 0, 0, 0, 0)

  /** The first number is the baseline; later ones below the expected number are dropped. */
  function OnNumber(f: Feed, n: nat): (Feed, bool) {
    if !f.initialized then (f.(initialized := true, expected := (n + 1) % U64, updates := f.updates + 1), true)
    else if n < f.expected then (f.(duplicates := f.duplicates + 1), false)
    else (f.(expected := (n + 1) % U64, updates := f.updates + 1, gaps := f.gaps + (n - f.expected)), true)
  }

  function OnDatagram(f: Feed, p: seq<Byte>): (Feed, Option<MarketData>) {
    match MarketDataIn(p)
    case None => (f.(errors := f.errors + 1), None)
    case Some(d) =>
      var (f', ok) := OnNumber(f, d.seqNum);
      (f', if ok then Some(d) else None)
  }

  /** State after the numbers ns, and those accepted. */
  function Run(ns: seq<nat>): (Feed, seq<nat>) {
    if ns == [] then (IDLE, [])
    else
      var k := |ns| - 1;
      var (f, acc) := Run(ns[..k]);
      var (f', ok) := OnNumber(f, ns[k]);
      (f', if ok then acc + [ns[k]] else acc)
  }

  /** State after the datagrams ps, and the updates handed on. */
  function RunData(ps: seq<seq<Byte>>): (Feed, seq<MarketData>) {
    if ps == [] then (IDLE, [])
    else
      var k := |ps| - 1;
      var (f, out) := RunData(ps[..k]);
      var (f', d) := OnDatagram(f, ps[k]);
      (f', if d.Some? then out + [d.value] else out)
  }

  /** The sequence numbers of the datagrams of the right size: their first eight bytes. */
  function Numbers(ps: seq<seq<Byte>>): (ns: seq<nat>)
    ensures |ns| <= |ps|
  {
    if ps == [] then []
    else
      var k := |ps| - 1;
      if |ps[k]| == 34 then Numbers(ps[..k]) + [Load(ps[k], 0, 8)] else Numbers(ps[..k])
  }

  lemma {:induction false} RunSnoc(ns: seq<nat>, n: nat)
    ensures var (f, acc) := Run(ns);
            var (f', ok) := OnNumber(f, n);
            Run(ns + [n]) == (f', if ok then acc + [n] else acc)
  {
    hide OnNumber;
    assert (ns + [n])[..|ns|] == ns;
  }

  lemma {:induction false} ErrorsApart(f: Feed, e: nat, n: nat)
    ensures OnNumber(f.(errors := e), n) == (OnNumber(f, n).0.(errors := e), OnNumber(f, n).1)
  {
  }

  /** Datagrams that cannot be read are counted and otherwise make no difference; of the others
      exactly the accepted numbers are handed on. */
  lemma {:induction false} DataIsNumbers(ps: seq<seq<Byte>>)
    ensures var (f, out) := RunData(ps);
            var (g, acc) := Run(Numbers(ps));
            && f == g.(errors := |ps| - |Numbers(ps)|) && |out| == |acc|
            && (forall i :: 0 <= i < |out| ==> out[i].seqNum == acc[i])
  {
    if ps == [] {
      return;
    }
    var k := |ps| - 1;
    var ns, p := Numbers(ps[..k]), ps[k];
    DataIsNumbers(ps[..k]);
    hide Run, OnNumber;
    if |p| == 34 {
      RunSnoc(ns, Load(p, 0, 8));
      ErrorsApart(Run(ns).0, k - |ns|, Load(p, 0, 8));
    }
  }

  ghost predicate Increasing(ns: seq<nat>) {
    forall i, j :: 0 <= i < j < |ns| ==> ns[i] < ns[j]
  }

  /** Numbers below 2^64, the largest of which comes last if at all. */
  ghost predicate NoWrap(ns: seq<nat>) {
    forall i :: 0 <= i < |ns| ==> ns[i] < U64 && (i < |ns| - 1 ==> ns[i] < U64 - 1)
  }

  /** What a run without wrap-around has done. */
  ghost predicate Accounted(f: Feed, acc: seq<nat>, total: nat) {
    && Increasing(acc) && f.updates == |acc| && f.duplicates == total - |acc| && f.initialized == (acc != [])
    && (acc != [] ==> f.expected == (acc[|acc| - 1] + 1) % U64 && f.updates + f.gaps == acc[|acc| - 1] + 1 - acc[0])
    && (acc == [] ==> total == 0 && f.gaps == 0)
  }

  lemma {:induction false} NoWrapInit(ns: seq<nat>)
    requires NoWrap(ns) && ns != []
    ensures var k := |ns| - 1; NoWrap(ns[..k]) && forall i :: 0 <= i < k ==> ns[..k][i] < U64 - 1
  {
  }

  lemma {:induction false} AcceptedAmong(ns: seq<nat>)
    ensures forall n :: n in Run(ns).1 ==> n in ns
  {
    if ns != [] {
      var k := |ns| - 1;
      AcceptedAmong(ns[..k]);
    }
  }

  lemma {:induction false} StepAccounts(f: Feed, acc: seq<nat>, total: nat, n: nat)
    requires Accounted(f, acc, total) && n < U64 && (acc != [] ==> acc[|acc| - 1] < U64 - 1)
    ensures var (f', ok) := OnNumber(f, n); Accounted(f', if ok then acc + [n] else acc, total + 1)
  {
    if acc != [] {
      assert f.expected == acc[|acc| - 1] + 1;
    }
  }

  /** Without wrap-around the accepted numbers increase strictly, and accepted plus missing
      numbers are all those from the first accepted up to the one expected next. */
  lemma {:induction false} RunAccounts(ns: seq<nat>)
    requires NoWrap(ns)
    ensures Accounted(Run(ns).0, Run(ns).1, |ns|)
  {
    hide Accounted, OnNumber;
    if ns == [] {
      IdleAccounted();
      return;
    }
    var k := |ns| - 1;
    NoWrapInit(ns);
    RunAccounts(ns[..k]);
    AcceptedAmong(ns[..k]);
    var (f, acc) := Run(ns[..k]);
    if acc != [] {
      assert acc[|acc| - 1] in ns[..k];
    }
    StepAccounts(f, acc, k, ns[k]);
  }

  lemma {:induction false} IdleAccounted()
    ensures Accounted(IDLE, [], 0)
  {
  }

  /** Exactly when the largest number, 2^64 - 1, has something after it, the accepted numbers do
      not increase: what comes next is taken for new. */
  lemma {:induction false} WrapRepeats(ns: seq<nat>)
    requires forall i :: 0 <= i < |ns| ==> ns[i] < U64
    ensures Increasing(Run(ns).1) <==> NoWrap(ns)
  {
    if NoWrap(ns) {
      RunAccounts(ns);
      return;
    }
    var k := |ns| - 1;
    if !NoWrap(ns[..k]) {
      WrapRepeats(ns[..k]);
      var acc := Run(ns[..k]).1;
      var i, j :| 0 <= i < j < |acc| && acc[i] >= acc[j];
      assert Run(ns).1[i] >= Run(ns).1[j];
      return;
    }
    RunAccounts(ns[..k]);
    assert ns[k - 1] == U64 - 1;
    LargestAccepted(ns[..k]);
    var acc := Run(ns[..k]).1;
    assert acc[|acc| - 1] == U64 - 1 && Run(ns[..k]).0.expected == 0;
    assert Run(ns).1 == acc + [ns[k]];
    assert Run(ns).1[|acc| - 1] >= Run(ns).1[|acc|];
  }

  lemma {:induction false} LargestAccepted(ns: seq<nat>)
    requires NoWrap(ns) && ns != [] && ns[|ns| - 1] == U64 - 1
    ensures var acc := Run(ns).1; acc != [] && acc[|acc| - 1] == U64 - 1
  {
    var k := |ns| - 1;
    NoWrapInit(ns);
    RunAccounts(ns[..k]);
  }

  // ---------------------------------------------------------------------------
  // Two lines
  // ---------------------------------------------------------------------------

  /** The numbers first, first + 1, ..., n of them. */
  function Stream(first: nat, n: nat): (s: seq<nat>)
    ensures |s| == n
  {
    seq(n, i => first + i)
  }

  /** ns is made of a and b, each in its order. */
  ghost predicate Interleaves(ns: seq<nat>, a: seq<nat>, b: seq<nat>) {
    if ns == [] then a == [] && b == []
    else
      var k := |ns| - 1;
      || (a != [] && a[|a| - 1] == ns[k] && Interleaves(ns[..k], a[..|a| - 1], b))
      || (b != [] && b[|b| - 1] == ns[k] && Interleaves(ns[..k], a, b[..|b| - 1]))
  }

  function Max(a: nat, b: nat): nat {
    if a < b then b else a
  }

  lemma {:induction false} StreamInit(first: nat, n: nat)
    requires n > 0
    ensures Stream(first, n)[..n - 1] == Stream(first, n - 1) && Stream(first, n)[n - 1] == first + n - 1
    ensures Stream(first, n) == Stream(first, n - 1) + [first + n - 1]
  {
  }

  /** After the numbers ns the stream has been delivered once, in order and without a gap, as far as
      the faster of two copies has it; what the other brought was dropped. */
  ghost predicate Delivers(ns: seq<nat>, first: nat, i: nat, j: nat) {
    var (f, acc) := Run(ns);
    && acc == Stream(first, Max(i, j)) && f.gaps == 0 && f.duplicates == Min(i, j)
    && f.initialized == (ns != []) && (f.initialized ==> f.expected == (first + Max(i, j)) % U64)
  }

  /** Which line the last number came from. */
  lemma {:induction false} LastLine(ns: seq<nat>, first: nat, i: nat, j: nat) returns (one: bool)
    requires Interleaves(ns, Stream(first, i), Stream(first, j)) && ns != []
    ensures var k := |ns| - 1;
            if one then i > 0 && ns[k] == first + i - 1 && Interleaves(ns[..k], Stream(first, i - 1), Stream(first, j))
            else j > 0 && ns[k] == first + j - 1 && Interleaves(ns[..k], Stream(first, i), Stream(first, j - 1))
  {
    var k := |ns| - 1;
    var a, b := Stream(first, i), Stream(first, j);
    one := a != [] && a[i - 1] == ns[k] && Interleaves(ns[..k], a[..i - 1], b);
    if one {
      StreamInit(first, i);
    } else {
      StreamInit(first, j);
    }
  }

  lemma {:induction false} OneMore(ns: seq<nat>, first: nat, i: nat, j: nat)
    requires ns != [] && ns[|ns| - 1] == first + i && first + Max(i, j) < U64
    requires Delivers(ns[..|ns| - 1], first, i, j) && (ns[..|ns| - 1] == [] ==> i == j == 0)
    ensures Delivers(ns, first, i + 1, j)
  {
    StreamInit(first, i + 1);
  }

  lemma {:induction false} EitherLine(ns: seq<nat>, first: nat, i: nat, j: nat)
    requires Delivers(ns, first, i, j)
    ensures Delivers(ns, first, j, i)
  {
  }

  lemma {:induction false} NothingYet(first: nat, i: nat, j: nat)
    requires Interleaves([], Stream(first, i), Stream(first, j))
    ensures i == j == 0 && Delivers([], first, i, j)
  {
  }

  lemma {:induction false} LastDelivered(ns: seq<nat>, first: nat, i: nat, j: nat, one: bool)
    requires ns != []
    requires var k := |ns| - 1;
             if one then
               && i > 0 && ns[k] == first + i - 1 && Interleaves(ns[..k], Stream(first, i - 1), Stream(first, j))
               && Delivers(ns[..k], first, i - 1, j) && first + Max(i - 1, j) < U64
             else
               && j > 0 && ns[k] == first + j - 1 && Interleaves(ns[..k], Stream(first, i), Stream(first, j - 1))
               && Delivers(ns[..k], first, i, j - 1) && first + Max(i, j - 1) < U64
    ensures Delivers(ns, first, i, j)
  {
    hide Delivers, Interleaves;
    var k := |ns| - 1;
    if ns[..k] == [] {
      NothingYet(first, if one then i - 1 else i, if one then j else j - 1);
    }
    if one {
      OneMore(ns, first, i - 1, j);
    } else {
      EitherLine(ns[..k], first, i, j - 1);
      OneMore(ns, first, j - 1, i);
      EitherLine(ns, first, j, i);
    }
  }

  lemma {:induction false} TwoLinesBelow(ns: seq<nat>, first: nat, i: nat, j: nat)
    requires Interleaves(ns, Stream(first, i), Stream(first, j)) && first + Max(i, j) < U64
    ensures Delivers(ns, first, i, j)
  {
    hide Delivers, Interleaves, Stream;
    if ns == [] {
      NothingYet(first, i, j);
      return;
    }
    var one := LastLine(ns, first, i, j);
    if one {
      TwoLinesBelow(ns[..|ns| - 1], first, i - 1, j);
    } else {
      TwoLinesBelow(ns[..|ns| - 1], first, i, j - 1);
    }
    LastDelivered(ns, first, i, j, one);
  }

  /** An interleaving has the members of both lines and no others. */
  lemma {:induction false} InterleavesMembers(ns: seq<nat>, a: seq<nat>, b: seq<nat>)
    requires Interleaves(ns, a, b)
    ensures forall x :: x in ns <==> x in a || x in b
  {
    if ns != [] {
      var k := |ns| - 1;
      if a != [] && a[|a| - 1] == ns[k] && Interleaves(ns[..k], a[..|a| - 1], b) {
        InterleavesMembers(ns[..k], a[..|a| - 1], b);
        assert a == a[..|a| - 1] + [ns[k]];
      } else {
        InterleavesMembers(ns[..k], a, b[..|b| - 1]);
        assert b == b[..|b| - 1] + [ns[k]];
      }
      assert ns == ns[..k] + [ns[k]];
    }
  }

  /** What came before the last number is below the largest. */
  lemma {:induction false} PrefixBelow(ns: seq<nat>, first: nat, i: nat, j: nat)
    requires Interleaves(ns, Stream(first, i), Stream(first, j)) && (forall k :: 0 <= k < |ns| ==> ns[k] < U64 - 1)
    requires first < U64
    ensures first + Max(i, j) < U64
  {
    InterleavesMembers(ns, Stream(first, i), Stream(first, j));
    if i > 0 {
      assert Stream(first, i)[i - 1] in ns;
    }
    if j > 0 {
      assert Stream(first, j)[j - 1] in ns;
    }
  }

  lemma {:induction false} MembersFit(ns: seq<nat>, first: nat, i: nat, j: nat)
    requires Interleaves(ns, Stream(first, i), Stream(first, j)) && first + Max(i, j) <= U64
    ensures forall k :: 0 <= k < |ns| ==> ns[k] < U64
  {
    InterleavesMembers(ns, Stream(first, i), Stream(first, j));
    forall k | 0 <= k < |ns|
      ensures ns[k] < U64
    {
      assert ns[k] in ns;
    }
  }

  lemma {:induction false} StreamIncreasing(first: nat, n: nat)
    ensures Increasing(Stream(first, n))
  {
  }

  /** Two lines up to the largest number, if that comes last. */
  lemma {:induction false} TwoLinesToLargest(ns: seq<nat>, first: nat, i: nat, j: nat)
    requires Interleaves(ns, Stream(first, i), Stream(first, j)) && first < U64 && NoWrap(ns)
    ensures Delivers(ns, first, i, j)
  {
    hide Delivers, Interleaves, Stream;
    if ns == [] {
      NothingYet(first, i, j);
      return;
    }
    NoWrapInit(ns);
    var one := LastLine(ns, first, i, j);
    var i', j' := if one then i - 1 else i, if one then j else j - 1;
    PrefixBelow(ns[..|ns| - 1], first, i', j');
    TwoLinesBelow(ns[..|ns| - 1], first, i', j');
    LastDelivered(ns, first, i, j, one);
  }

  /** However two lossless copies of a stream are interleaved, and wherever each has got to, the
      stream is delivered once, in order and without a gap, as far as the faster copy has it: if and
      only if nothing follows the number 2^64 - 1. */
  lemma {:induction false} TwoLines(ns: seq<nat>, first: nat, i: nat, j: nat)
    requires Interleaves(ns, Stream(first, i), Stream(first, j)) && first < U64 && first + Max(i, j) <= U64
    ensures Delivers(ns, first, i, j) <==> NoWrap(ns)
  {
    hide Run, NoWrap, Interleaves, Stream, Increasing;
    MembersFit(ns, first, i, j);
    WrapRepeats(ns);
    StreamIncreasing(first, Max(i, j));
    if NoWrap(ns) {
      TwoLinesToLargest(ns, first, i, j);
    }
  }

  class FeedHandler {
    var initialized: bool
    var expected: nat
    var updates: nat
    var gaps: nat
    var duplicates: nat
    var errors: nat

    ghost function State(): Feed
      reads this
    {
      Feed(initialized, expected, updates, gaps, duplicates, errors)
    }

    constructor ()
      ensures State() == IDLE
    {
      initialized, expected, updates, gaps, duplicates, errors := false, 0, 0, 0, 0, 0;
    }

    method OnUdpData(p: seq<Byte>) returns (r: Option<MarketData>)
      modifies this
      ensures (State(), r) == OnDatagram(old(State()), p)
    {
      hide Load;
      r := MarketDataIn(p);
      if r.None? {
        errors := errors + 1;
        return None;
      }
      var n := r.value.seqNum;
      if !initialized {
        initialized := true;
        expected := (n + 1) % U64;
        updates := updates + 1;
        return r;
      }
      if n != expected {
        if n > expected {
          gaps := gaps + (n - expected);
        }
        if n < expected {
          duplicates := duplicates + 1;
          return None;
        }
      }
      expected := (n + 1) % U64;
      updates := updates + 1;
    }
  }
}
