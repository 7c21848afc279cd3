/**
  Vocabulary shared by the whole model: optional values, one-byte sequence
  numbers, and the answers a byte transport can give to one poll.
 */
module Prelude {

  datatype Option<+T> = None | Some(value: T)

  /** A wire byte. It is a bit-vector because the CRC works on its bits. */
  type u8 = bv8

  /** A SEQ value: a `u8` counter of which only the arithmetic modulo 256 matters. */
  type seqno = x: int | 0 <= x < 256

  /** The byte that holds the value `x`: `x as u8`, counted up so that proofs stay within bit-vectors. */
  function ByteOf(x: seqno): u8 {
    if x == 0 then 0 else ByteOf(x - 1) + 1
  }

  function ValueOf(b: u8): seqno {
    b as int
  }

  lemma NextValue(b: u8)
    requires b as int < 255
    ensures (b + 1) as int == b as int + 1
  {
    assert b != 255;
  }

  lemma {:induction false} ValueOfByte(x: seqno)
    ensures ValueOf(ByteOf(x)) == x
  {
    if x > 0 {
      ValueOfByte(x - 1);
      NextValue(ByteOf(x - 1));
    }
  }

  lemma SameValue(a: u8, b: u8)
    requires a as int == b as int
    ensures a == b
  {
  }

  lemma ByteOfValue(b: u8)
    ensures ByteOf(ValueOf(b)) == b
  {
    ValueOfByte(ValueOf(b));
    SameValue(ByteOf(ValueOf(b)), b);
  }

  /** `a.wrapping_sub(b)` on `u8`. */
  function WrapSub(a: seqno, b: seqno): seqno {
    (a - b) % 256
  }

  /** `Sequence::advance`: the following number, 255 wraps to 0. */
  function Advance(a: seqno): seqno {
    (a + 1) % 256
  }

  /** `Sequence::previous`: the preceding number, 0 wraps to 255. */
  function Previous(a: seqno): seqno {
    (a - 1) % 256
  }

  type u16 = x: int | 0 <= x < 65536
  type count8 = x: int | 0 <= x < 256

  const U16_MAX := 65535

  /** `n.saturating_add(1)` on a counter whose greatest value is `max`. */
  function SaturatingIncrement(n: nat, max: nat): (r: nat)
    ensures n <= max ==> r <= max
  {
    if n < max then n + 1 else n
  }

  /** The SEQ byte of the item whose unbounded index is `i`. */
  function SeqOf(i: int): seqno {
    i % 256
  }

  /** Wrapping subtraction of two SEQ bytes is subtraction of their indices modulo 256. */
  lemma WrapSubOfIndices(i: int, j: int)
    ensures WrapSub(SeqOf(i), SeqOf(j)) == SeqOf(i - j)
  {
    var a, b := i / 256, j / 256;
    assert i - j == (i % 256 - j % 256) + 256 * (a - b);
  }

  lemma AddToIndex(i: int, r: int)
    ensures (SeqOf(i) + r) % 256 == SeqOf(i + r)
  {
    var a := i / 256;
    assert i + r == (i % 256 + r) + 256 * a;
  }

  lemma AdvanceOfIndex(i: int)
    ensures Advance(SeqOf(i)) == SeqOf(i + 1)
  {
  }

  /** Two indices less than 256 apart share a SEQ byte only if they are equal. */
  lemma SeqOfInjective(i: int, j: int)
    requires -256 < i - j < 256
    ensures SeqOf(i) == SeqOf(j) <==> i == j
  {
  }

  /** What a `ByteTransport::read_byte` call returns. */
  datatype ReadAnswer = NoByte | GotByte(byte: u8) | ReadFault

  /**
    The transport's side of one poll: whether a `write_byte` made during the
    poll succeeds, and what a `read_byte` made during the poll returns.  A poll
    makes at most one call of each kind.
   */
  datatype Io = Io(writeOk: bool, read: ReadAnswer)

  /** The transport calls one poll made: the byte it wrote successfully, and whether it read. */
  datatype Calls = Calls(wrote: Option<u8>, didRead: bool)

  const NO_CALLS := Calls(None, false)

  /** `Error` of a sender or receiver operation, with the transport's own error as one case. */
  datatype Error = TransportFault | RetriesExhausted | NotIdle | WindowFull

  datatype Result<+T> = Ok(value: T) | Err(error: Error)
}
