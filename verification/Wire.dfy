/**
  The four-byte wire frame: TYPE, SEQ, DATA and the CRC over those three.
 */
module Wire {
  import opened Prelude
  import Crc

  const FRAME_LEN := 4

  /** Four wire bytes that may or may not be a frame. */
  type Word = w: seq<u8> | |w| == FRAME_LEN witness [0, 0, 0, 0]

  datatype FrameType = Data | Ack | Nack | Start | Finish | Abort

  datatype Frame = Frame(kind: FrameType, num: seqno, data: u8)

  datatype FrameError = InvalidType(byte: u8) | CrcMismatch(expected: u8, got: u8) | InvalidSemantics

  /** `Result<Frame, FrameError>`: what four wire bytes mean. */
  datatype Decoded = Good(frame: Frame) | Bad(error: FrameError)

  function DataFrame(num: seqno, byte: u8): Frame { Frame(Data, num, byte) }
  function AckFrame(num: seqno): Frame { Frame(Ack, num, 0) }
  function NackFrame(num: seqno): Frame { Frame(Nack, num, 0) }
  function StartFrame(): Frame { Frame(Start, 0, 0) }
  function FinishFrame(num: seqno): Frame { Frame(Finish, num, 0) }
  function AbortFrame(): Frame { Frame(Abort, 0, 0) }

  function TypeByte(kind: FrameType): u8 {
    match kind
    case Data => 0x01
    case Ack => 0x02
    case Nack => 0x03
    case Start => 0x04
    case Finish => 0x05
    case Abort => 0x06
  }

  function TypeOf(byte: u8): Option<FrameType> {
    if byte == 0x01 then Some(Data)
    else if byte == 0x02 then Some(Ack)
    else if byte == 0x03 then Some(Nack)
    else if byte == 0x04 then Some(Start)
    else if byte == 0x05 then Some(Finish)
    else if byte == 0x06 then Some(Abort)
    else None
  }

  predicate KnownType(byte: u8) {
    TypeOf(byte).Some?
  }

  /** Control frames carry no data; START and ABORT carry SEQ 0. */
  predicate SemanticsOk(f: Frame) {
    && (f.kind != Data ==> f.data == 0)
    && (f.kind == Start || f.kind == Abort ==> f.num == 0)
  }

  function Header(kind: FrameType, num: seqno, data: u8): seq<u8> {
    [TypeByte(kind), ByteOf(num), data]
  }

  function ToBytes(f: Frame): (bytes: Word)
    ensures bytes[0] == TypeByte(f.kind)
  {
    var header := Header(f.kind, f.num, f.data);
    header + [Crc.Crc8(header)]
  }

  /** Decoding checks TYPE, then CRC, then semantics, and reports the first that fails. */
  function FromBytes(bytes: Word): Decoded {
    match TypeOf(bytes[0])
    case None => Bad(InvalidType(bytes[0]))
    case Some(kind) =>
      var expected := Crc.Crc8(bytes[..3]);
      if expected != bytes[3] then Bad(CrcMismatch(expected, bytes[3]))
      else
        var f := Frame(kind, ValueOf(bytes[1]), bytes[2]);
        if SemanticsOk(f) then Good(f) else Bad(InvalidSemantics)
  }

  lemma TypeByteRoundTrip(kind: FrameType)
    ensures TypeOf(TypeByte(kind)) == Some(kind)
  {
  }

  /** Decoding inverts encoding on every frame a constructor can build. */
  lemma DecodeEncode(f: Frame)
    requires SemanticsOk(f)
    ensures FromBytes(ToBytes(f)) == Good(f)
  {
    hide Crc.Crc8, ByteOf, ValueOf;
    ValueOfByte(f.num);
    TypeByteRoundTrip(f.kind);
    assert ToBytes(f)[..3] == Header(f.kind, f.num, f.data);
  }

  /** Exactly the encodings of well-formed frames decode: nothing else on the wire is a frame. */
  lemma EncodeDecode(bytes: Word, f: Frame)
    ensures FromBytes(bytes) == Good(f) <==> SemanticsOk(f) && bytes == ToBytes(f)
  {
    hide Crc.Crc8, ByteOf, ValueOf;
    if FromBytes(bytes) == Good(f) {
      ByteOfValue(bytes[1]);
      assert bytes[0] == TypeByte(f.kind);
      assert bytes[..3] == Header(f.kind, f.num, f.data);
    }
    if SemanticsOk(f) && bytes == ToBytes(f) {
      DecodeEncode(f);
    }
  }

  /**
    A frame hit on the wire by an odd number of bit flips, or by a burst of at
    most eight bits, never decodes: its TYPE is unknown or its CRC is wrong.
   */
  lemma CorruptFrameIsRejected(f: Frame, flips: seq<u8>)
    requires |flips| == FRAME_LEN
    requires Crc.Weight(flips) % 2 == 1 || Crc.IsBurst(flips)
    ensures |Crc.Xor(ToBytes(f), flips)| == FRAME_LEN
    ensures FromBytes(Crc.Xor(ToBytes(f), flips)).Bad?
    ensures !FromBytes(Crc.Xor(ToBytes(f), flips)).error.InvalidSemantics?
  {
    hide Crc.Crc8, Crc.Xor, Crc.Weight, Crc.IsBurst, ByteOf, ValueOf;
    var header := Header(f.kind, f.num, f.data);
    Crc.CorruptionDetected(header, flips, Crc.Xor(header + [Crc.Crc8(header)], flips));
  }

  /** The wire bytes of a list of frames, in order. */
  function Serialize(frames: seq<Frame>): (bytes: seq<u8>)
    ensures |bytes| == FRAME_LEN * |frames|
  {
    if frames == [] then [] else ToBytes(frames[0]) + Serialize(frames[1..])
  }

  lemma {:induction false} SerializeAppend(a: seq<Frame>, b: seq<Frame>)
    ensures Serialize(a + b) == Serialize(a) + Serialize(b)
  {
    hide ToBytes;
    if a == [] {
      assert a + b == b;
    } else {
      assert (a + b)[1..] == a[1..] + b;
      SerializeAppend(a[1..], b);
    }
  }
}
