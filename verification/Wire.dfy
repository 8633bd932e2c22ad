/** Frames on the UART: the encoder and the byte-at-a-time parser shared by the ramp link and the
    BLE link. */
module Wire {
  import opened Bytes
  import Crc8

  const SOF0: Byte := 0xA5
  const SOF1: Byte := 0x5A
  const FRAME_SIZE := 6
  const TYPE_DATA: Byte := 0x01
  const TYPE_ACK: Byte := 0x02

  /** A decoded frame. */
  datatype Frame = Frame(kind: Byte, seqNo: Byte, cmd: Byte)

  function FrameCrc(f: Frame): Byte {
    Crc8.ChecksumOf([f.kind, f.seqNo, f.cmd])
  }

  function Encode(f: Frame): (bytes: seq<Byte>)
    ensures |bytes| == FRAME_SIZE
  {
    [SOF0, SOF1, f.kind, f.seqNo, f.cmd, FrameCrc(f)]
  }

  function DataFrame(seqNo: Byte, cmd: Byte): Frame {
    Frame(TYPE_DATA, seqNo, cmd)
  }

  function AckFrame(seqNo: Byte): Frame {
    Frame(TYPE_ACK, seqNo, 0)
  }

  method EncodeFields(kind: Byte, seqNo: Byte, cmd: Byte, out: array<Byte>)
    requires out.Length == FRAME_SIZE
    modifies out
    ensures out[..] == Encode(Frame(kind, seqNo, cmd))
  {
    var crcInput := new Byte[3];
    out[0] := SOF0;
    out[1] := SOF1;
    out[2] := kind;
    out[3] := seqNo;
    out[4] := cmd;
    crcInput[0] := out[2];
    crcInput[1] := out[3];
    crcInput[2] := out[4];
    var crc := Crc8.Compute(crcInput, 3);
    assert crcInput[..3] == [kind, seqNo, cmd];
    out[5] := crc;
  }

  method EncodeData(seqNo: Byte, cmd: Byte, out: array<Byte>)
    requires out.Length == FRAME_SIZE
    modifies out
    ensures out[..] == Encode(DataFrame(seqNo, cmd))
  {
    EncodeFields(TYPE_DATA, seqNo, cmd, out);
  }

  method EncodeAck(seqNo: Byte, out: array<Byte>)
    requires out.Length == FRAME_SIZE
    modifies out
    ensures out[..] == Encode(AckFrame(seqNo))
  {
    EncodeFields(TYPE_ACK, seqNo, 0, out);
  }

  // ----- The parser ------------------------------------------------------------------------

  datatype Phase = WaitSof0 | WaitSof1 | WaitType | WaitSeq | WaitCmd | WaitCrc

  datatype ParserState = ParserState(phase: Phase, kind: Byte, seqNo: Byte, cmd: Byte)

  /** What feeding one byte reports: nothing yet, a decoded frame, or a rejected one. */
  datatype Event = Nothing | Decoded(frame: Frame) | Rejected

  const FRESH := ParserState(WaitSof0, 0, 0, 0)

  function Feed(p: ParserState, b: Byte): (ParserState, Event) {
    match p.phase
    case WaitSof0 => (if b == SOF0 then p.(phase := WaitSof1) else p, Nothing)
    case WaitSof1 =>
      (p.(phase := if b == SOF1 then WaitType else if b == SOF0 then WaitSof1 else WaitSof0), Nothing)
    case WaitType => (p.(phase := WaitSeq, kind := b), Nothing)
    case WaitSeq => (p.(phase := WaitCmd, seqNo := b), Nothing)
    case WaitCmd => (p.(phase := WaitCrc, cmd := b), Nothing)
    case WaitCrc =>
      var f := Frame(p.kind, p.seqNo, p.cmd);
      (p.(phase := WaitSof0),
       if FrameCrc(f) != b || (f.kind != TYPE_DATA && f.kind != TYPE_ACK) then Rejected else Decoded(f))
  }

  class Parser {
    var phase: Phase
    var kind: Byte
    var seqNo: Byte
    var cmd: Byte

    constructor ()
      ensures View() == FRESH
    {
      phase, kind, seqNo, cmd := WaitSof0, 0, 0, 0;
    }

    ghost function View(): ParserState
      reads this
    {
      ParserState(phase, kind, seqNo, cmd)
    }

    method FeedByte(b: Byte) returns (event: Event)
      modifies this
      ensures (View(), event) == Feed(old(View()), b)
    {
      event := Nothing;
      match phase
      case WaitSof0 =>
        if b == SOF0 {
          phase := WaitSof1;
        }
      case WaitSof1 =>
        if b == SOF1 {
          phase := WaitType;
        } else if b == SOF0 {
          phase := WaitSof1;
        } else {
          phase := WaitSof0;
        }
      case WaitType =>
        kind := b;
        phase := WaitSeq;
      case WaitSeq =>
        seqNo := b;
        phase := WaitCmd;
      case WaitCmd =>
        cmd := b;
        phase := WaitCrc;
      case WaitCrc =>
        var crcInput := new Byte[3];
        crcInput[0], crcInput[1], crcInput[2] := kind, seqNo, cmd;
        var crc := Crc8.Compute(crcInput, 3);
        assert crcInput[..3] == [kind, seqNo, cmd];
        phase := WaitSof0;
        if crc != b {
          event := Rejected;
        } else if kind != TYPE_DATA && kind != TYPE_ACK {
          event := Rejected;
        } else {
          event := Decoded(Frame(kind, seqNo, cmd));
        }
    }
  }

  // ----- Feeding a string of bytes ---------------------------------------------------------

  function After(p: ParserState, bytes: seq<Byte>): ParserState {
    if bytes == [] then p else Feed(After(p, bytes[..|bytes| - 1]), bytes[|bytes| - 1]).0
  }

  function Report(e: Event): seq<Event> {
    if e == Nothing then [] else [e]
  }

  /** The frames and rejections reported while `bytes` is fed, in order. */
  function Reports(p: ParserState, bytes: seq<Byte>): seq<Event> {
    if bytes == [] then []
    else
      var n := |bytes| - 1;
      Reports(p, bytes[..n]) + Report(Feed(After(p, bytes[..n]), bytes[n]).1)
  }

  lemma {:induction false} FeedConcat(p: ParserState, a: seq<Byte>, b: seq<Byte>)
    ensures After(p, a + b) == After(After(p, a), b)
    ensures Reports(p, a + b) == Reports(p, a) + Reports(After(p, a), b)
  {
    if b == [] {
      assert a + b == a;
    } else {
      var n := |b| - 1;
      assert (a + b)[..|a + b| - 1] == a + b[..n];
      FeedConcat(p, a, b[..n]);
    }
  }

  lemma FeedOne(p: ParserState, b: Byte)
    ensures After(p, [b]) == Feed(p, b).0
    ensures Reports(p, [b]) == Report(Feed(p, b).1)
  {
    hide Feed;
    assert [b][..0] == [];
  }

  lemma FeedTwo(p: ParserState, a: Byte, b: Byte)
    ensures After(p, [a, b]) == Feed(Feed(p, a).0, b).0
    ensures Reports(p, [a, b]) == Report(Feed(p, a).1) + Report(Feed(Feed(p, a).0, b).1)
  {
    hide Feed, After, Reports;
    assert [a, b] == [a] + [b];
    FeedConcat(p, [a], [b]);
    FeedOne(p, a);
    FeedOne(Feed(p, a).0, b);
  }

  lemma FeedThree(p: ParserState, a: Byte, b: Byte, c: Byte)
    ensures var p1 := Feed(p, a); var p2 := Feed(p1.0, b); var p3 := Feed(p2.0, c);
            && After(p, [a, b, c]) == p3.0
            && Reports(p, [a, b, c]) == Report(p1.1) + Report(p2.1) + Report(p3.1)
  {
    hide Feed, After, Reports;
    assert [a, b, c] == [a, b] + [c];
    FeedConcat(p, [a, b], [c]);
    FeedTwo(p, a, b);
    FeedOne(Feed(Feed(p, a).0, b).0, c);
  }

  predicate WellFormed(f: Frame) {
    f.kind == TYPE_DATA || f.kind == TYPE_ACK
  }

  predicate Hunting(p: ParserState) {
    p.phase == WaitSof0 || p.phase == WaitSof1
  }

  /** A parser between frames decodes the encoding of any frame and nothing else. */
  lemma DecodeEncoded(p: ParserState, f: Frame)
    requires Hunting(p) && WellFormed(f)
    ensures After(p, Encode(f)) == ParserState(WaitSof0, f.kind, f.seqNo, f.cmd)
    ensures Reports(p, Encode(f)) == [Decoded(f)]
  {
    var head, tail := [SOF0, SOF1, f.kind], [f.seqNo, f.cmd, FrameCrc(f)];
    assert Encode(f) == head + tail;
    FeedConcat(p, head, tail);
    FeedThree(p, SOF0, SOF1, f.kind);
    FeedThree(p.(phase := WaitSeq, kind := f.kind), f.seqNo, f.cmd, FrameCrc(f));
  }

  // ----- Resynchronisation -----------------------------------------------------------------

  /** The frame contains the two start bytes once more, after its own. */
  predicate EmbedsStart(f: Frame) {
    (f.seqNo == SOF0 && f.cmd == SOF1) || (f.cmd == SOF0 && FrameCrc(f) == SOF1)
  }

  /** What the first half of a frame does to a parser that is inside another one. */
  lemma HeadInsideFrame(p: ParserState, kind: Byte)
    requires !Hunting(p) && (kind == TYPE_DATA || kind == TYPE_ACK)
    ensures var q, r := After(p, [SOF0, SOF1, kind]), Reports(p, [SOF0, SOF1, kind]);
            if p.phase == WaitType then q.phase == WaitCrc && q.kind == SOF0 && r == []
            else q.phase == WaitSof0 && |r| == 1
  {
    FeedThree(p, SOF0, SOF1, kind);
  }

  lemma TailWhileHunting(q: ParserState, s: Byte, c: Byte, r: Byte)
    requires q.phase == WaitSof0
    ensures Reports(q, [s, c, r]) == []
    ensures Hunting(After(q, [s, c, r])) <==> !((s == SOF0 && c == SOF1) || (c == SOF0 && r == SOF1))
  {
    FeedThree(q, s, c, r);
  }

  lemma TailAtCrc(q: ParserState, s: Byte, c: Byte, r: Byte)
    requires q.phase == WaitCrc && q.kind == SOF0
    ensures Reports(q, [s, c, r]) == [Rejected]
    ensures Hunting(After(q, [s, c, r])) <==> !(c == SOF0 && r == SOF1)
  {
    FeedThree(q, s, c, r);
  }

  /** Whatever the parser was in the middle of, one well-formed frame makes it report exactly one
      event, and unless the frame embeds a start it leaves the parser between frames. */
  lemma OneFrameResynchronises(p: ParserState, f: Frame)
    requires WellFormed(f)
    ensures |Reports(p, Encode(f))| == 1
    ensures !EmbedsStart(f) ==> Hunting(After(p, Encode(f)))
  {
    if Hunting(p) {
      DecodeEncoded(p, f);
    } else {
      var head, tail := [SOF0, SOF1, f.kind], [f.seqNo, f.cmd, FrameCrc(f)];
      assert Encode(f) == head + tail;
      FeedConcat(p, head, tail);
      HeadInsideFrame(p, f.kind);
      if p.phase == WaitType {
        TailAtCrc(After(p, head), f.seqNo, f.cmd, FrameCrc(f));
      } else {
        TailWhileHunting(After(p, head), f.seqNo, f.cmd, FrameCrc(f));
      }
    }
  }

  /** A frame resynchronises the parser from every state exactly when it embeds no start. */
  lemma ResynchronisesExactlyWhen(f: Frame)
    requires WellFormed(f)
    ensures (forall p :: Hunting(After(p, Encode(f)))) <==> !EmbedsStart(f)
  {
    if EmbedsStart(f) {
      var p := FRESH.(phase := WaitSeq);
      var head, tail := [SOF0, SOF1, f.kind], [f.seqNo, f.cmd, FrameCrc(f)];
      assert Encode(f) == head + tail;
      FeedConcat(p, head, tail);
      HeadInsideFrame(p, f.kind);
      TailWhileHunting(After(p, head), f.seqNo, f.cmd, FrameCrc(f));
      assert !Hunting(After(p, Encode(f)));
    } else {
      forall p
        ensures Hunting(After(p, Encode(f)))
      {
        OneFrameResynchronises(p, f);
      }
    }
  }

  function EncodeAll(frames: seq<Frame>): seq<Byte> {
    if frames == [] then [] else EncodeAll(frames[..|frames| - 1]) + Encode(frames[|frames| - 1])
  }

  function DecodedAll(frames: seq<Frame>): (events: seq<Event>)
    ensures |events| == |frames|
  {
    seq(|frames|, i requires 0 <= i < |frames| => Decoded(frames[i]))
  }

  lemma DecodedAllAppend(frames: seq<Frame>, f: Frame)
    ensures DecodedAll(frames + [f]) == DecodedAll(frames) + [Decoded(f)]
  {
  }

  lemma {:induction false} DecodeEncodedAll(p: ParserState, frames: seq<Frame>)
    requires Hunting(p) && forall f | f in frames :: WellFormed(f)
    ensures Reports(p, EncodeAll(frames)) == DecodedAll(frames)
    ensures Hunting(After(p, EncodeAll(frames)))
    ensures p.phase == WaitSof0 ==> After(p, EncodeAll(frames)).phase == WaitSof0
  {
    if frames != [] {
      hide Feed, Encode, DecodedAll;
      var n := |frames| - 1;
      DecodeEncodedAll(p, frames[..n]);
      assert frames[n] in frames && frames == frames[..n] + [frames[n]];
      DecodedAllAppend(frames[..n], frames[n]);
      FeedConcat(p, EncodeAll(frames[..n]), Encode(frames[n]));
      DecodeEncoded(After(p, EncodeAll(frames[..n])), frames[n]);
    }
  }

  /** After any garbage, a sequence of frames whose first embeds no start is decoded completely from
      its second frame on: in order, and with nothing else reported. */
  lemma Resynchronisation(p: ParserState, garbage: seq<Byte>, first: Frame, frames: seq<Frame>)
    requires WellFormed(first) && !EmbedsStart(first)
    requires forall f | f in frames :: WellFormed(f)
    ensures exists e ::
              Reports(p, garbage + Encode(first) + EncodeAll(frames)) ==
              Reports(p, garbage) + [e] + DecodedAll(frames)
  {
    hide Feed, Encode;
    var q := After(p, garbage);
    FeedConcat(p, garbage, Encode(first));
    OneFrameResynchronises(q, first);
    FeedConcat(p, garbage + Encode(first), EncodeAll(frames));
    DecodeEncodedAll(After(q, Encode(first)), frames);
    var e := Reports(q, Encode(first))[0];
    assert Reports(q, Encode(first)) == [e];
  }

  // ----- Stream round trip -----------------------------------------------------------------

  /** A frame with the idle bytes that precede it. */
  datatype Packet = Packet(gap: seq<Byte>, frame: Frame)

  predicate Quiet(gap: seq<Byte>) {
    SOF0 !in gap
  }

  function Stream(packets: seq<Packet>): seq<Byte> {
    if packets == [] then []
    else Stream(packets[..|packets| - 1]) + packets[|packets| - 1].gap + Encode(packets[|packets| - 1].frame)
  }

  function Frames(packets: seq<Packet>): (frames: seq<Frame>)
    ensures |frames| == |packets|
  {
    seq(|packets|, i requires 0 <= i < |packets| => packets[i].frame)
  }

  lemma {:induction false} QuietIsSilent(p: ParserState, gap: seq<Byte>)
    requires p.phase == WaitSof0 && Quiet(gap)
    ensures After(p, gap) == p && Reports(p, gap) == []
  {
    if gap != [] {
      QuietIsSilent(p, gap[..|gap| - 1]);
      assert gap[|gap| - 1] in gap;
    }
  }

  lemma FramesAppend(packets: seq<Packet>, n: nat)
    requires |packets| == n + 1
    ensures Frames(packets) == Frames(packets[..n]) + [packets[n].frame]
  {
  }

  /** Encoded frames separated by arbitrary bytes other than the first start byte are decoded in
      order, without errors and without anything else. */
  lemma {:induction false} StreamRoundTrip(p: ParserState, packets: seq<Packet>)
    requires p.phase == WaitSof0
    requires forall k | k in packets :: Quiet(k.gap) && WellFormed(k.frame)
    ensures Reports(p, Stream(packets)) == DecodedAll(Frames(packets))
    ensures After(p, Stream(packets)).phase == WaitSof0
  {
    if packets != [] {
      hide Feed, Encode, DecodedAll, Frames;
      var n := |packets| - 1;
      StreamRoundTrip(p, packets[..n]);
      FramesAppend(packets, n);
      DecodedAllAppend(Frames(packets[..n]), packets[n].frame);
      assert packets[n] in packets;
      PacketRoundTrip(p, Stream(packets[..n]), packets[n]);
    }
  }

  lemma PacketRoundTrip(p: ParserState, before: seq<Byte>, packet: Packet)
    requires After(p, before).phase == WaitSof0 && Quiet(packet.gap) && WellFormed(packet.frame)
    ensures var bytes := before + packet.gap + Encode(packet.frame);
            && Reports(p, bytes) == Reports(p, before) + [Decoded(packet.frame)]
            && After(p, bytes).phase == WaitSof0
  {
    hide Feed, Encode;
    FeedConcat(p, before, packet.gap);
    QuietIsSilent(After(p, before), packet.gap);
    FeedConcat(p, before + packet.gap, Encode(packet.frame));
    DecodeEncoded(After(p, before), packet.frame);
  }

  // ----- Soundness -------------------------------------------------------------------------

  /** The bytes of the frame the parser is in the middle of. */
  function Partial(p: ParserState): seq<Byte> {
    match p.phase
    case WaitSof0 => []
    case WaitSof1 => [SOF0]
    case WaitType => [SOF0, SOF1]
    case WaitSeq => [SOF0, SOF1, p.kind]
    case WaitCmd => [SOF0, SOF1, p.kind, p.seqNo]
    case WaitCrc => [SOF0, SOF1, p.kind, p.seqNo, p.cmd]
  }

  predicate EndsWith(bytes: seq<Byte>, suffix: seq<Byte>) {
    |suffix| <= |bytes| && bytes[|bytes| - |suffix|..] == suffix
  }

  lemma {:induction false} PartialIsSuffix(bytes: seq<Byte>)
    ensures EndsWith(bytes, Partial(After(FRESH, bytes)))
  {
    if bytes != [] {
      var n := |bytes| - 1;
      PartialIsSuffix(bytes[..n]);
      var before, after := Partial(After(FRESH, bytes[..n])), Partial(After(FRESH, bytes));
      if |after| == |before| + 1 {
        assert after == before + [bytes[n]];
        assert bytes == bytes[..n] + [bytes[n]];
      }
    }
  }

  /** A frame is reported only when the last six bytes are its encoding; so nothing is ever decoded
      that does not carry its own checksum. */
  lemma DecodedMeansEncoded(bytes: seq<Byte>, b: Byte, f: Frame)
    requires Feed(After(FRESH, bytes), b).1 == Decoded(f)
    ensures WellFormed(f) && EndsWith(bytes + [b], Encode(f))
  {
    PartialIsSuffix(bytes);
    assert Encode(f) == Partial(After(FRESH, bytes)) + [b];
  }

  // ----- Layout ----------------------------------------------------------------------------

  /** A frame starts with the two start bytes; the four bytes after them have checksum 0. */
  lemma FrameLayout(f: Frame)
    ensures
      var bytes := Encode(f);
      bytes[..5] == [0xA5, 0x5A, f.kind, f.seqNo, f.cmd] && Crc8.Checksum(Crc8.Octets(bytes[2..])) == Crc8.ZERO
  {
    hide Crc8.Checksum, Crc8.Register, Crc8.ToOctet;
    ChecksIffCrc(f, Crc8.Register([f.kind, f.seqNo, f.cmd]));
  }

  /** Three fields followed by a byte have checksum 0 exactly when the byte is their checksum. */
  lemma ChecksIffCrc(f: Frame, crc: bv8)
    ensures Crc8.Checksum(Crc8.Octets([f.kind, f.seqNo, f.cmd, crc as Byte])) == Crc8.ZERO <==> crc as Byte == FrameCrc(f)
  {
    hide Crc8.Checksum, Crc8.ChecksumOf, Crc8.Octets;
    Crc8.ResidueOfBytes([f.kind, f.seqNo, f.cmd], crc);
    assert [f.kind, f.seqNo, f.cmd] + [crc as Byte] == [f.kind, f.seqNo, f.cmd, crc as Byte];
  }

  /** Behind the start bytes, exactly the four bytes with checksum 0 whose first is a known type are decoded; all others
      are rejected. */
  lemma DecodedExactlyWhen(p: ParserState, kind: Byte, seqNo: Byte, cmd: Byte, crc: bv8)
    requires p.phase == WaitType
    ensures
      var bytes := [kind, seqNo, cmd, crc as Byte];
      Reports(p, bytes) ==
      if Crc8.Checksum(Crc8.Octets(bytes)) == Crc8.ZERO && (kind == 0x01 || kind == 0x02)
      then [Decoded(Frame(kind, seqNo, cmd))] else [Rejected]
  {
    hide Crc8.Checksum, Crc8.Octets, FrameCrc, After, Reports;
    var last := crc as Byte;
    ChecksIffCrc(Frame(kind, seqNo, cmd), crc);
    assert [kind, seqNo, cmd, last] == [kind, seqNo, cmd] + [last];
    FeedConcat(p, [kind, seqNo, cmd], [last]);
    FeedThree(p, kind, seqNo, cmd);
    FeedOne(After(p, [kind, seqNo, cmd]), last);
  }

  // ----- Corruption ------------------------------------------------------------------------

  /** A frame whose type, sequence number, command and checksum are hit by an odd number of bit
      errors is rejected. */
  lemma OddCorruptionRejected(p: ParserState, f: Frame, e: seq<bv8>, ec: bv8)
    requires p.phase == WaitType && |e| == 3
    requires Crc8.OddBits(Crc8.ErrorOctets(e)) != Crc8.Odd(Crc8.ToOctet(ec))
    ensures var g := Crc8.FlipAll([f.kind, f.seqNo, f.cmd], e);
            Reports(p, g + [Crc8.Flip(FrameCrc(f), ec)]) == [Rejected]
  {
    hide Crc8.OddBits, Crc8.Odd, Crc8.ToOctet, Crc8.Flip;
    var g := Crc8.FlipAll([f.kind, f.seqNo, f.cmd], e);
    Crc8.OddCorruptionDetected([f.kind, f.seqNo, f.cmd], e, ec);
    FeedConcat(p, g, [Crc8.Flip(FrameCrc(f), ec)]);
    assert g == [g[0], g[1], g[2]];
    FeedThree(p, g[0], g[1], g[2]);
    FeedOne(After(p, g), Crc8.Flip(FrameCrc(f), ec));
  }
}
