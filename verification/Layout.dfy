/** The bytes of every message: type codes, offsets and field widths written out. */
module Layout {
  import opened Machine
  import opened Wire
  import opened Protocol
  import opened Framing
  import FeedHandlers

  lemma {:induction false} ValueSnoc(bs: seq<Byte>, b: Byte)
    ensures Value(bs + [b]) == 256 * Value(bs) + b
  {
    assert (bs + [b])[..|bs|] == bs;
  }

  /** Fields are big-endian: the first byte counts most. */
  lemma {:induction false} TwoBytes(bs: seq<Byte>, off: nat)
    requires off + 2 <= |bs|
    ensures Load(bs, off, 2) == 0x100 * (bs[off] as nat) + bs[off + 1]
  {
    ValueSnoc([], bs[off]);
    ValueSnoc([bs[off]], bs[off + 1]);
    assert bs[off..off + 2] == [bs[off]] + [bs[off + 1]];
  }

  lemma {:induction false} FourBytes(bs: seq<Byte>, off: nat)
    requires off + 4 <= |bs|
    ensures Load(bs, off, 4) == 0x100_0000 * (bs[off] as nat) + 0x1_0000 * (bs[off + 1] as nat) + 0x100 * (bs[off + 2] as nat) + bs[off + 3]
  {
    TwoBytes(bs, off);
    ValueSnoc(bs[off..off + 2], bs[off + 2]);
    ValueSnoc(bs[off..off + 3], bs[off + 3]);
    assert bs[off..off + 3] == bs[off..off + 2] + [bs[off + 2]] && bs[off..off + 4] == bs[off..off + 3] + [bs[off + 3]];
  }

  lemma {:induction false} EightBytes(bs: seq<Byte>, off: nat)
    requires off + 8 <= |bs|
    ensures Load(bs, off, 8) == 0x1_0000_0000 * Load(bs, off, 4) + Load(bs, off + 4, 4)
  {
    var hi := bs[off..off + 4];
    ValueSnoc(hi, bs[off + 4]);
    ValueSnoc(bs[off..off + 5], bs[off + 5]);
    ValueSnoc(bs[off..off + 6], bs[off + 6]);
    ValueSnoc(bs[off..off + 7], bs[off + 7]);
    assert bs[off..off + 5] == hi + [bs[off + 4]] && bs[off..off + 6] == bs[off..off + 5] + [bs[off + 5]];
    assert bs[off..off + 7] == bs[off..off + 6] + [bs[off + 6]] && bs[off..off + 8] == bs[off..off + 7] + [bs[off + 7]];
    FourBytes(bs, off + 4);
  }

  /** The unsigned word of a signed one in two's complement. */
  function Word(x: int): int {
    if x >= 0 then x else x + 0x1_0000_0000_0000_0000
  }

  /** Sixteen bytes of header, then the payload: magic, version, type, payload length, flags. */
  ghost predicate Framed(f: seq<Byte>, kind: nat, size: nat) {
    && |f| == 16 + size
    && Load(f, 0, 4) == 0x53455231 && Load(f, 4, 2) == 2 && Load(f, 6, 2) == kind && Load(f, 8, 4) == size && Load(f, 12, 4) == 0
  }

  ghost predicate LaidOut(f: seq<Byte>, m: Message) {
    match m
    case NewOrder(cid, symbol, side, price, qty, ts) =>
      Framed(f, 2, 33) && Load(f, 16, 8) == cid && Load(f, 24, 4) == symbol && f[28] == side && Load(f, 29, 8) == Word(price) &&
      Load(f, 37, 4) == qty && Load(f, 41, 8) == Word(ts)
    case CancelOrder(cid, symbol, ts) =>
      Framed(f, 3, 20) && Load(f, 16, 8) == cid && Load(f, 24, 4) == symbol && Load(f, 28, 8) == Word(ts)
    case OrderAck(cid, xid, ts) =>
      Framed(f, 4, 24) && Load(f, 16, 8) == cid && Load(f, 24, 8) == xid && Load(f, 32, 8) == Word(ts)
    case OrderReject(cid, reason, ts) =>
      Framed(f, 5, 17) && Load(f, 16, 8) == cid && f[24] == reason && Load(f, 25, 8) == Word(ts)
    case FillReport(cid, xid, price, qty, remaining, ts) =>
      Framed(f, 6, 40) && Load(f, 16, 8) == cid && Load(f, 24, 8) == xid && Load(f, 32, 8) == Word(price) &&
      Load(f, 40, 4) == qty && Load(f, 44, 4) == remaining && Load(f, 48, 8) == Word(ts)
    case CancelAck(cid, ts) => Framed(f, 7, 16) && Load(f, 16, 8) == cid && Load(f, 24, 8) == Word(ts)
    case CancelReject(cid, reason, ts) =>
      Framed(f, 8, 17) && Load(f, 16, 8) == cid && f[24] == reason && Load(f, 25, 8) == Word(ts)
    case ModifyOrder(cid, symbol, price, qty, ts) =>
      Framed(f, 9, 32) && Load(f, 16, 8) == cid && Load(f, 24, 4) == symbol && Load(f, 28, 8) == Word(price) &&
      Load(f, 36, 4) == qty && Load(f, 40, 8) == Word(ts)
    case ModifyAck(cid, xid, ts) =>
      Framed(f, 10, 24) && Load(f, 16, 8) == cid && Load(f, 24, 8) == xid && Load(f, 32, 8) == Word(ts)
    case ModifyReject(cid, reason, ts) =>
      Framed(f, 11, 17) && Load(f, 16, 8) == cid && f[24] == reason && Load(f, 25, 8) == Word(ts)
    case Heartbeat => Framed(f, 12, 0)
    case HeartbeatAck => Framed(f, 13, 0)
  }

  /** A field of the payload is the field of the frame sixteen bytes further on. */
  lemma {:induction false} Behind(h: seq<Byte>, p: seq<Byte>)
    requires |h| == 16
    ensures forall off, k :: 0 <= off && 0 <= k && off + k <= |p| ==> Load(h + p, 16 + off, k) == Load(p, off, k)
    ensures forall i :: 0 <= i < |p| ==> (h + p)[16 + i] == p[i]
  {
    forall off, k | 0 <= off && 0 <= k && off + k <= |p|
      ensures Load(h + p, 16 + off, k) == Load(p, off, k)
    {
      assert (h + p)[16 + off..16 + off + k] == p[off..off + k];
    }
  }

  lemma {:induction false} WordIs(p: seq<Byte>, off: nat, x: int)
    requires off + 8 <= |p| && LoadSigned(p, off) == x
    ensures Load(p, off, 8) == Word(x)
  {
    WordSizes();
    Reread(p, off, 8);
  }

  lemma {:induction false} WrappedIsFramed(m: Message)
    requires Representable(m)
    ensures Framed(Wrapped(m), TypeOf(m), PayloadSize(TypeOf(m)))
  {
    hide Put, Load, Payload, Pow256;
    WordSizes();
    PayloadSized(m);
    KeepsFields(HeaderBytes(Header(VERSION, TypeOf(m), |Payload(m)|, 0)), Payload(m));
  }

  lemma {:induction false} PayloadAt(m: Message)
    requires Representable(m)
    ensures |Payload(m)| == PayloadSize(TypeOf(m)) && Parse(TypeOf(m), Payload(m)) == Some(m)
    ensures |Wrapped(m)| == 16 + |Payload(m)|
    ensures forall off, k :: 0 <= off && 0 <= k && off + k <= |Payload(m)| ==> Load(Wrapped(m), 16 + off, k) == Load(Payload(m), off, k)
    ensures forall i :: 0 <= i < |Payload(m)| ==> Wrapped(m)[16 + i] == Payload(m)[i]
  {
    hide Load, Payload, Parse, HeaderBytes;
    PayloadSized(m);
    PayloadRoundTrip(m, []);
    assert Payload(m) + [] == Payload(m);
    Behind(HeaderBytes(Header(VERSION, TypeOf(m), |Payload(m)|, 0)), Payload(m));
  }

  lemma {:induction false} RequestLayout(m: Message)
    requires Representable(m) && (m.NewOrder? || m.CancelOrder? || m.ModifyOrder?)
    ensures LaidOut(Wrapped(m), m)
  {
    hide Framed, Load, Payload, Word, Wrapped, Signed;
    PayloadAt(m);
    WrappedIsFramed(m);
    var p := Payload(m);
    match m
    case NewOrder(_, _, _, price, _, ts) => WordIs(p, 13, price); WordIs(p, 25, ts);
    case CancelOrder(_, _, ts) => WordIs(p, 12, ts);
    case ModifyOrder(_, _, price, _, ts) => WordIs(p, 12, price); WordIs(p, 24, ts);
  }

  lemma {:induction false} AckLayout(m: Message)
    requires Representable(m) && (m.OrderAck? || m.FillReport? || m.CancelAck? || m.ModifyAck?)
    ensures LaidOut(Wrapped(m), m)
  {
    hide Framed, Load, Payload, Word, Wrapped, Signed;
    PayloadAt(m);
    WrappedIsFramed(m);
    var p := Payload(m);
    match m
    case OrderAck(_, _, ts) => WordIs(p, 16, ts);
    case FillReport(_, _, price, _, _, ts) => WordIs(p, 16, price); WordIs(p, 32, ts);
    case CancelAck(_, ts) => WordIs(p, 8, ts);
    case ModifyAck(_, _, ts) => WordIs(p, 16, ts);
  }

  lemma {:induction false} RejectLayout(m: Message)
    requires Representable(m) && (m.OrderReject? || m.CancelReject? || m.ModifyReject?)
    ensures LaidOut(Wrapped(m), m)
  {
    hide Framed, Load, Payload, Word, Wrapped, Signed;
    PayloadAt(m);
    WrappedIsFramed(m);
    WordIs(Payload(m), 9, m.ts);
  }

  /** Every message in its frame. */
  lemma {:induction false} WrappedLayout(m: Message)
    requires Representable(m)
    ensures LaidOut(Wrapped(m), m)
  {
    hide Load, Payload, Wrapped;
    if m.NewOrder? || m.CancelOrder? || m.ModifyOrder? {
      RequestLayout(m);
    } else if m.OrderAck? || m.FillReport? || m.CancelAck? || m.ModifyAck? {
      AckLayout(m);
    } else if m.OrderReject? || m.CancelReject? || m.ModifyReject? {
      RejectLayout(m);
    } else {
      WrappedIsFramed(m);
    }
  }

  /** Market data, alone in its datagram. */
  lemma {:induction false} DatagramLayout(d: MarketData)
    requires FeedHandlers.Sendable(d)
    ensures var p := FeedHandlers.DatagramOf(d);
            && |p| == 34 && Load(p, 0, 8) == d.seqNum && Load(p, 8, 4) == d.symbol && p[12] == d.kind && p[13] == d.side
            && Load(p, 14, 8) == Word(d.price) && Load(p, 22, 4) == d.qty && Load(p, 26, 8) == Word(d.ts)
  {
    hide Load, FeedHandlers.DatagramOf, Word, Signed;
    FeedHandlers.DatagramRoundTrip(d);
    var p := FeedHandlers.DatagramOf(d);
    WordIs(p, 14, d.price);
    WordIs(p, 26, d.ts);
  }
}
