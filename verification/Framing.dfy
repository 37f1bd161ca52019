/** Frames in a byte stream: packing, unpacking, and finding frame boundaries. */
module Framing {
  import opened Machine
  import opened Wire
  import opened Protocol

  datatype Header = Header(version: nat, kind: nat, payloadLen: nat, flags: nat)

  datatype View = View(header: Header, payload: seq<Byte>)

  datatype Status = Incomplete | Corrupt | Complete(size: nat)

  function HeaderBytes(h: Header): (bs: seq<Byte>)
    ensures |bs| == HEADER
  {
    Put(Put(Put(Put(Put([], MAGIC, 4), h.version, 2), h.kind, 2), h.payloadLen, 4), h.flags, 4)
  }

  /** A frame: header and payload. */
  function Packed(version: nat, kind: nat, flags: nat, payload: seq<Byte>): seq<Byte> {
    HeaderBytes(Header(version, kind, |payload|, flags)) + payload
  }

  function HeaderAt(bs: seq<Byte>): Header
    requires |bs| >= HEADER
  {
    Header(Load(bs, 4, 2), Load(bs, 6, 2), Load(bs, 8, 4), Load(bs, 12, 4))
  }

  /** One message from the front of the input; what follows it is not looked at. */
  function Unpack(bs: seq<Byte>): Option<View> {
    if |bs| < HEADER || Load(bs, 0, 4) != MAGIC then None
    else
      var h := HeaderAt(bs);
      if h.payloadLen > MAX_PAYLOAD || h.payloadLen > |bs| - HEADER then None
      else Some(View(h, bs[HEADER..HEADER + h.payloadLen]))
  }

  /** Where the first frame of the input ends. */
  function Decode(bs: seq<Byte>): Status {
    if |bs| < HEADER then Incomplete
    else if Load(bs, 0, 4) != MAGIC then Corrupt
    else
      var n := Load(bs, 8, 4);
      if n > MAX_PAYLOAD then Corrupt
      else if |bs| < HEADER + n then Incomplete
      else Complete(HEADER + n)
  }

  /** The framer finds a frame exactly when it can be unpacked, and the frame is header and
      payload. */
  lemma {:induction false} FramerAgrees(bs: seq<Byte>)
    ensures Decode(bs).Complete? <==> Unpack(bs).Some?
    ensures Decode(bs).Complete? ==>
              var n, v := Decode(bs).size, Unpack(bs).value;
              && n == HEADER + v.header.payloadLen == HEADER + |v.payload| <= |bs|
              && Unpack(bs[..n]) == Some(v)
  {
    hide Load;
    if Decode(bs).Complete? {
      var n := Decode(bs).size;
      assert bs == bs[..n] + bs[n..];
      KeepsFields(bs[..n], bs[n..]);
      assert bs[..n][HEADER..n] == bs[HEADER..n];
    }
  }

  /** Once sixteen bytes are there, the input is called corrupt exactly when nothing that may follow
      makes it a message. */
  lemma {:induction false} CorruptIsFinal(bs: seq<Byte>)
    requires |bs| >= 16
    ensures Decode(bs).Corrupt? <==> forall more :: Unpack(bs + more).None?
  {
    hide Load;
    forall more
      ensures Decode(bs).Corrupt? ==> Unpack(bs + more).None?
    {
      KeepsFields(bs, more);
    }
    if !Decode(bs).Corrupt? {
      var zeros: seq<Byte> := seq(MAX_PAYLOAD, _ => 0);
      KeepsFields(bs, zeros);
      assert Unpack(bs + zeros).Some?;
    }
  }

  /** What was packed is found and unpacked again, whatever follows it. */
  lemma {:induction false} UnpackPacked(version: nat, kind: nat, flags: nat, payload: seq<Byte>, rest: seq<Byte>)
    requires version < U16 && kind < U16 && flags < U32 && |payload| <= MAX_PAYLOAD
    ensures var f := Packed(version, kind, flags, payload);
            && Decode(f + rest) == Complete(|f|)
            && Unpack(f + rest) == Some(View(Header(version, kind, |payload|, flags), payload))
  {
    hide Put, Load, Pow256;
    WordSizes();
    var h := Header(version, kind, |payload|, flags);
    KeepsFields(HeaderBytes(h), payload + rest);
    assert Packed(version, kind, flags, payload) + rest == HeaderBytes(h) + (payload + rest);
  }

  /** Whatever can be unpacked is the packed form of its parts. */
  lemma {:induction false} UnpackIsExact(bs: seq<Byte>)
    requires Unpack(bs).Some?
    ensures var v := Unpack(bs).value;
            && Packed(v.header.version, v.header.kind, v.header.flags, v.payload) == bs[..HEADER + |v.payload|]
            && |v.payload| <= MAX_PAYLOAD && v.header.version < U16 && v.header.kind < U16 && v.header.flags < U32
  {
    hide Put, Load, Pow256;
    WordSizes();
    assert bs[..0] == [];
    Reread(bs, 0, 4);
    Reread(bs, 4, 2);
    Reread(bs, 6, 2);
    Reread(bs, 8, 4);
    Reread(bs, 12, 4);
    var n := HEADER + |Unpack(bs).value.payload|;
    assert bs[..n] == bs[..HEADER] + bs[HEADER..n];
  }

  /** Writes a frame into a buffer: the bytes written, or 0 when the payload is too long or the
      buffer too small, which is then left alone. */
  method PackMessage(out: array<Byte>, version: nat, kind: nat, flags: nat, payload: seq<Byte>) returns (n: nat)
    modifies out
    ensures n == if |payload| > MAX_PAYLOAD || out.Length < HEADER + |payload| then 0 else HEADER + |payload|
    ensures n == 0 ==> out[..] == old(out[..])
    ensures n != 0 ==> out[..n] == Packed(version, kind, flags, payload)
    ensures forall i :: HEADER + |payload| <= i < out.Length ==> out[i] == old(out[i])
  {
    hide Put, Load;
    if |payload| > MAX_PAYLOAD {
      return 0;
    }
    n := HEADER + |payload|;
    if out.Length < n {
      return 0;
    }
    assert out[..0] == [];
    Store(out, 0, MAGIC, 4);
    Store(out, 4, version, 2);
    Store(out, 6, kind, 2);
    Store(out, 8, |payload|, 4);
    Store(out, 12, flags, 4);
    ghost var head := out[..HEADER];
    for i := 0 to |payload|
      invariant out[..HEADER] == head && out[HEADER..HEADER + i] == payload[..i]
      invariant forall k :: HEADER + |payload| <= k < out.Length ==> out[k] == old(out[k])
    {
      out[HEADER + i] := payload[i];
    }
    assert out[..n] == out[..HEADER] + out[HEADER..n];
  }

  // ---------------------------------------------------------------------------
  // Messages in frames
  // ---------------------------------------------------------------------------

  function Wrapped(m: Message): seq<Byte> {
    Packed(VERSION, TypeOf(m), 0, Payload(m))
  }

  /** What a gateway takes a frame for: an order, a cancel or a modify of the right version. */
  function RequestIn(frame: seq<Byte>): Option<Message> {
    match Unpack(frame)
    case None => None
    case Some(v) =>
      if v.header.version != VERSION || v.header.kind !in {2, 3, 9} then None
      else Parse(v.header.kind, v.payload)
  }

  /** Every message comes out of its frame as it went in, and a frame fits the send slot. */
  lemma {:induction false} MessageRoundTrip(m: Message, rest: seq<Byte>)
    requires Representable(m)
    ensures |Wrapped(m)| <= 56 && Decode(Wrapped(m) + rest) == Complete(|Wrapped(m)|)
    ensures var v := Unpack(Wrapped(m) + rest);
            && v.Some? && v.value.header.version == VERSION && v.value.header.flags == 0
            && Parse(v.value.header.kind, v.value.payload) == Some(m)
    ensures RequestIn(Wrapped(m)) == if m.NewOrder? || m.CancelOrder? || m.ModifyOrder? then Some(m) else None
  {
    hide Put, Load, Payload, Parse, Unpack, Decode;
    PayloadSized(m);
    UnpackPacked(VERSION, TypeOf(m), 0, Payload(m), rest);
    UnpackPacked(VERSION, TypeOf(m), 0, Payload(m), []);
    assert Wrapped(m) + [] == Wrapped(m);
    PayloadRoundTrip(m, []);
    assert Payload(m) + [] == Payload(m);
  }
}
