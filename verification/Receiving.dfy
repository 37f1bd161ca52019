/** The receive loop: frames come out of a byte stream the same way however it is cut. */
module Receiving {
  import opened Machine
  import opened Wire
  import opened Protocol
  import opened Framing

  const RX_BUFFER := 8192

  /** Frames found in a stream, what is left over, and whether the stream was sound so far. */
  datatype Parsed = Parsed(frames: seq<seq<Byte>>, rest: seq<Byte>, ok: bool)

  function Scan(bs: seq<Byte>): Parsed
    decreases |bs|
  {
    match Decode(bs)
    case Incomplete => Parsed([], bs, true)
    case Corrupt => Parsed([], bs, false)
    case Complete(n) =>
      var p := Scan(bs[n..]);
      p.(frames := [bs[..n]] + p.frames)
  }

  function Joined(fs: seq<seq<Byte>>): seq<Byte> {
    if fs == [] then [] else fs[0] + Joined(fs[1..])
  }

  ghost predicate IsFrame(f: seq<Byte>) {
    Decode(f) == Complete(|f|)
  }

  /** More input does not change a decision already reached. */
  lemma {:induction false} DecodeMore(bs: seq<Byte>, more: seq<Byte>)
    ensures !Decode(bs).Incomplete? ==> Decode(bs + more) == Decode(bs)
  {
    hide Load;
    KeepsFields(bs, more);
  }

  /** A frame cut short is incomplete, never corrupt. */
  lemma {:induction false} FrameCut(f: seq<Byte>, k: nat)
    requires IsFrame(f) && k < |f|
    ensures Decode(f[..k]) == Incomplete
  {
    hide Load;
    KeepsFields(f[..k], f[k..]);
    assert f == f[..k] + f[k..];
  }

  lemma {:induction false} FirstIsFrame(bs: seq<Byte>)
    requires Decode(bs).Complete?
    ensures 0 < Decode(bs).size <= |bs| && IsFrame(bs[..Decode(bs).size])
  {
    hide Load;
    var n := Decode(bs).size;
    assert bs == bs[..n] + bs[n..];
    KeepsFields(bs[..n], bs[n..]);
  }

  /** A scan loses nothing: frames and rest make up the input, and every frame is one. */
  lemma {:induction false} ScanIsExact(bs: seq<Byte>)
    ensures bs == Joined(Scan(bs).frames) + Scan(bs).rest
    ensures forall i :: 0 <= i < |Scan(bs).frames| ==> IsFrame(Scan(bs).frames[i])
    decreases |bs|
  {
    hide Decode, IsFrame;
    if Decode(bs).Complete? {
      var n := Decode(bs).size;
      FirstIsFrame(bs);
      ScanIsExact(bs[n..]);
      var p := Scan(bs[n..]);
      assert ([bs[..n]] + p.frames)[1..] == p.frames;
      assert bs == bs[..n] + (Joined(p.frames) + p.rest);
    }
  }

  /** Scanning a stream in two parts, the second with what the first left over, is scanning the
      whole. */
  lemma {:induction false} ScanMore(bs: seq<Byte>, more: seq<Byte>)
    requires Scan(bs).ok
    ensures var p, q := Scan(bs), Scan(Scan(bs).rest + more);
            Scan(bs + more) == Parsed(p.frames + q.frames, q.rest, q.ok)
    decreases |bs|
  {
    hide Load, Decode;
    var p, q := Scan(bs), Scan(Scan(bs).rest + more);
    if Decode(bs).Complete? {
      var n := Decode(bs).size;
      SizeWithin(bs);
      DecodeMore(bs, more);
      ScanMore(bs[n..], more);
      assert (bs + more)[..n] == bs[..n] && (bs + more)[n..] == bs[n..] + more;
      assert [bs[..n]] + (Scan(bs[n..]).frames + q.frames) == p.frames + q.frames;
    } else {
      assert [] + q.frames == q.frames;
    }
  }

  lemma {:induction false} SizeWithin(bs: seq<Byte>)
    ensures Decode(bs).Complete? ==> 0 < Decode(bs).size <= |bs|
  {
  }

  /** After a frame the scan goes on with what follows it. */
  lemma {:induction false} ScanFrame(f: seq<Byte>, rest: seq<Byte>)
    requires IsFrame(f)
    ensures Scan(f + rest) == Scan(rest).(frames := [f] + Scan(rest).frames)
  {
    hide Load, Decode;
    DecodeMore(f, rest);
    SizeWithin(f);
    assert (f + rest)[..|f|] == f && (f + rest)[|f|..] == rest;
  }

  /** From any part of a stream of frames, exactly the frames it contains whole come out; what is
      left over is shorter than the frame it is part of. */
  lemma {:induction false} PrefixYields(fs: seq<seq<Byte>>, received: seq<Byte>) returns (k: nat)
    requires (forall i :: 0 <= i < |fs| ==> IsFrame(fs[i])) && received <= Joined(fs)
    ensures k <= |fs| && Scan(received).ok && Scan(received).frames == fs[..k]
    ensures if k == |fs| then Scan(received).rest == [] else |Scan(received).rest| < |fs[k]|
    ensures received == Joined(fs) ==> k == |fs|
    decreases |fs|
  {
    hide Load, Decode;
    if fs == [] {
      EmptyScan();
      return 0;
    }
    var f := fs[0];
    SizeWithin(f);
    if |received| < |f| {
      assert received == f[..|received|];
      FrameCut(f, |received|);
      return 0;
    }
    var tail := received[|f|..];
    assert received == f + tail && tail <= Joined(fs[1..]);
    k := PrefixYields(fs[1..], tail);
    ScanFrame(f, tail);
    k := k + 1;
    assert fs[..k] == [f] + fs[1..][..k - 1];
  }

  lemma {:induction false} EmptyScan()
    ensures Scan([]) == Parsed([], [], true)
  {
  }

  lemma {:induction false} Nothing(p: Parsed)
    ensures p == p.(frames := [] + p.frames)
  {
  }

  /** How often anything arrived. */
  function Arrivals(cuts: seq<nat>): nat {
    if cuts == [] then 0 else Arrivals(cuts[..|cuts| - 1]) + (if cuts[|cuts| - 1] > 0 then 1 else 0)
  }

  /** No frame is longer than n. */
  ghost predicate Within(fs: seq<seq<Byte>>, n: nat) {
    forall i :: 0 <= i < |fs| ==> |fs[i]| <= n
  }

  class Receiver {
    const rxBuf: array<Byte>
    var rxFill: nat
    /** Every byte received, and every frame handed on. */
    ghost var received: seq<Byte>
    ghost var taken: seq<seq<Byte>>

    ghost predicate Valid()
      reads this, rxBuf
    {
      rxFill <= rxBuf.Length == RX_BUFFER && Scan(received) == Parsed(taken, rxBuf[..rxFill], true)
    }

    constructor ()
      ensures Valid() && received == [] && taken == [] && fresh(rxBuf)
    {
      rxBuf := new Byte[RX_BUFFER](_ => 0);
      rxFill, received, taken := 0, [], [];
    }

    method Append(chunk: seq<Byte>)
      requires rxFill + |chunk| <= rxBuf.Length
      modifies this`rxFill, rxBuf
      ensures rxFill == old(rxFill) + |chunk| && rxBuf[..rxFill] == old(rxBuf[..rxFill]) + chunk
    {
      for i := 0 to |chunk|
        invariant rxBuf[..rxFill] == old(rxBuf[..rxFill]) && rxBuf[rxFill..rxFill + i] == chunk[..i]
        modifies rxBuf
      {
        rxBuf[rxFill + i] := chunk[i];
      }
      assert rxBuf[..rxFill + |chunk|] == rxBuf[..rxFill] + rxBuf[rxFill..rxFill + |chunk|];
      rxFill := rxFill + |chunk|;
    }

    /** Moves what has not been consumed to the front. */
    method Compact(consumed: nat)
      requires consumed <= rxFill <= rxBuf.Length
      modifies this`rxFill, rxBuf
      ensures rxFill == old(rxFill) - consumed && rxBuf[..rxFill] == old(rxBuf[consumed..rxFill])
    {
      var left := rxFill - consumed;
      if 0 < consumed < rxFill {
        for i := 0 to left
          invariant rxBuf[..i] == old(rxBuf[consumed..consumed + i])
          invariant forall k :: consumed + i <= k < rxFill ==> rxBuf[k] == old(rxBuf[k])
          modifies rxBuf
        {
          rxBuf[i] := rxBuf[consumed + i];
        }
      }
      rxFill := left;
    }

    /** Takes the frames out of the buffer, from the front; ok is false when one is corrupt. */
    method TakeFrames() returns (frames: seq<seq<Byte>>, consumed: nat, ok: bool)
      requires rxFill <= rxBuf.Length
      ensures consumed <= rxFill && Scan(rxBuf[..rxFill]) == Parsed(frames, rxBuf[consumed..rxFill], ok)
      ensures Within(frames, rxBuf.Length)
    {
      hide Decode;
      frames, consumed, ok := [], 0, true;
      assert rxBuf[0..rxFill] == rxBuf[..rxFill];
      Nothing(Scan(rxBuf[..rxFill]));
      while consumed < rxFill
        invariant consumed <= rxFill && Within(frames, rxBuf.Length)
        invariant var p := Scan(rxBuf[consumed..rxFill]);
                  Scan(rxBuf[..rxFill]) == p.(frames := frames + p.frames)
        decreases rxFill - consumed
      {
        ghost var p := Scan(rxBuf[consumed..rxFill]);
        var remaining := rxBuf[consumed..rxFill];
        SizeWithin(remaining);
        match Decode(remaining) {
          case Incomplete =>
            assert frames + [] == frames;
            return;
          case Corrupt =>
            assert frames + [] == frames;
            ok := false;
            return;
          case Complete(n) =>
            assert remaining[n..] == rxBuf[consumed + n..rxFill];
            ghost var q := Scan(remaining[n..]);
            assert frames + ([remaining[..n]] + q.frames) == (frames + [remaining[..n]]) + q.frames;
            frames := frames + [remaining[..n]];
            consumed := consumed + n;
        }
      }
      assert rxBuf[consumed..rxFill] == [];
      EmptyScan();
      assert frames + [] == frames;
    }

    /** One round of the receive loop on the bytes that came in, no more than there is room for:
        hands on every frame completed by them, in order. */
    method Receive(chunk: seq<Byte>) returns (frames: seq<seq<Byte>>, ok: bool)
      requires Valid() && rxFill + |chunk| <= RX_BUFFER
      modifies this, rxBuf
      ensures received == old(received) + chunk && taken == old(taken) + frames
      ensures ok == Scan(received).ok && taken == Scan(received).frames && (ok ==> Valid()) && Within(frames, RX_BUFFER)
    {
      hide Scan;
      ScanMore(received, chunk);
      Append(chunk);
      var consumed;
      frames, consumed, ok := TakeFrames();
      received, taken := received + chunk, taken + frames;
      if ok {
        Compact(consumed);
      }
    }

    /** The receive loop on a stream of frames, whatever part of it each receive call delivers. The
        frames handed on are always the first of the stream, in order. The loop ends early, with a
        full buffer, only in front of a frame that does not fit the buffer; until then every arrival
        makes progress. So once enough has arrived, all frames have been handed on if and only if
        they all fit. */
    method ReceiveAll(stream: seq<Byte>, cuts: seq<nat>, ghost fs: seq<seq<Byte>>) returns (pos: nat, open: bool)
      requires Valid() && received == [] && stream == Joined(fs)
      requires forall i :: 0 <= i < |fs| ==> IsFrame(fs[i])
      modifies this, rxBuf
      ensures Valid() && pos <= |stream| && received == stream[..pos]
      ensures taken <= fs && Within(taken, RX_BUFFER) && (pos == |stream| ==> taken == fs)
      ensures open ==> pos >= Min(|stream|, Arrivals(cuts))
      ensures !open ==> |taken| < |fs| && |fs[|taken|]| > RX_BUFFER
      ensures Arrivals(cuts) >= |stream| ==> (taken == fs <==> Within(fs, RX_BUFFER)) && (open <==> Within(fs, RX_BUFFER))
    {
      hide Scan, Decode, Joined;
      pos, open := 0, true;
      assert cuts[..0] == [];
      NoneTaken();
      for i := 0 to |cuts|
        invariant Valid() && pos <= |stream| && received == stream[..pos] && Within(taken, RX_BUFFER)
        invariant pos >= Min(|stream|, Arrivals(cuts[..i]))
      {
        assert cuts[..i + 1][..i] == cuts[..i];
        ghost var _ := AnyCut(fs, this);
        var space := RX_BUFFER - rxFill;
        if space == 0 {
          open := false;
          return;
        }
        var n := Min(cuts[i], Min(space, |stream| - pos));
        assert stream[..pos] + stream[pos..pos + n] == stream[..pos + n];
        NeverCorrupt(fs, stream[..pos + n]);
        var _, _ := Receive(stream[pos..pos + n]);
        pos := pos + n;
      }
      assert cuts[..|cuts|] == cuts;
      ghost var _ := AnyCut(fs, this);
    }

    lemma {:induction false} NoneTaken()
      requires Valid() && received == []
      ensures taken == []
    {
      EmptyScan();
    }
  }

  /** Received any part of a stream of frames: no error, the frames handed on are the first of the
      stream, and the buffer is full only with part of a frame that does not fit it. */
  lemma {:induction false} AnyCut(fs: seq<seq<Byte>>, r: Receiver) returns (k: nat)
    requires forall i :: 0 <= i < |fs| ==> IsFrame(fs[i])
    requires r.Valid() && r.received <= Joined(fs)
    ensures k == |r.taken| <= |fs| && r.taken == fs[..k]
    ensures r.rxFill == RX_BUFFER ==> k < |fs| && |fs[k]| > RX_BUFFER
    ensures r.received == Joined(fs) ==> r.taken == fs && r.rxFill == 0
  {
    hide Scan, Decode;
    k := PrefixYields(fs, r.received);
  }

  /** The next bytes of such a stream are never taken for a corrupt frame. */
  lemma {:induction false} NeverCorrupt(fs: seq<seq<Byte>>, received: seq<Byte>)
    requires (forall i :: 0 <= i < |fs| ==> IsFrame(fs[i])) && received <= Joined(fs)
    ensures Scan(received).ok
  {
    var _ := PrefixYields(fs, received);
  }
}
