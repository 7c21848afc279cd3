/**
  CRC-8 with polynomial 0x07, zero initial value, no reflection and no final
  xor (the code calls it CRC-8/SMBUS).  `Crc8` is the bit-serial definition;
  `Compute` is the table-driven loop the crate runs.  The lemmas below say what
  the checksum is worth: it is linear, keeps bit parity, leaves residue zero
  when appended, and therefore catches every odd number of flipped bits and
  every burst of at most eight bits, in messages of any length.
 */
module Crc {
  import opened Prelude

  const POLY: u8 := 0x07

  /** Divide by one power of x: shift left, and subtract the generator if a one fell out. */
  function BitStep(crc: u8): u8 {
    var hibit := crc >> 7;
    (crc << 1) ^ ((0 - hibit) & POLY)
  }

  /** `n` bit steps in a row. */
  function Steps(n: nat, crc: u8): u8 {
    if n == 0 then crc else BitStep(Steps(n - 1, crc))
  }

  const NIBBLE_BITS: nat := 4
  const BYTE_BITS: nat := 8

  function EightSteps(crc: u8): u8 {
    Steps(BYTE_BITS, crc)
  }

  /** The register after one more byte. */
  function Feed(crc: u8, byte: u8): u8 {
    EightSteps(crc ^ byte)
  }

  /** The bit-serial CRC register after `bytes`, started at `init`. */
  function Fold(init: u8, bytes: seq<u8>): u8
    decreases |bytes|
  {
    if bytes == [] then init
    else Fold(Feed(init, bytes[0]), bytes[1..])
  }

  function Crc8(bytes: seq<u8>): u8 {
    Fold(0, bytes)
  }

  // ------------------------------------------------------------ the nibble table

  /** What the register `n << 4` becomes after four steps. */
  function NibbleEntry(n: nat): u8
    requires n < 16
  {
    Steps(NIBBLE_BITS, (n as u8) << 4)
  }

  /** The loop that builds the sixteen-entry table. */
  method BuildNibbleTable() returns (table: array<u8>)
    ensures fresh(table) && table.Length == 16
    ensures forall n :: 0 <= n < 16 ==> table[n] == NibbleEntry(n)
  {
    table := new u8[16];
    var n := 0;
    while n < 16
      invariant 0 <= n <= 16
      invariant forall k :: 0 <= k < n ==> table[k] == NibbleEntry(k)
    {
      var crc: u8 := (n as u8) << 4;
      var bit := 0;
      while bit < NIBBLE_BITS
        invariant 0 <= bit <= NIBBLE_BITS
        invariant crc == Steps(bit, (n as u8) << 4)
      {
        crc := BitStep(crc);
        bit := bit + 1;
      }
      table[n] := crc;
      n := n + 1;
    }
  }

  /** The table as a value, as `BuildNibbleTable` leaves it. */
  ghost predicate IsNibbleTable(table: seq<u8>) {
    |table| == 16 && forall n :: 0 <= n < 16 ==> table[n] == NibbleEntry(n)
  }

  /** The table-driven form of four bit steps, on a register held in a wider word. */
  function FoldNibble(table: seq<u8>, crc: bv32): bv32
    requires |table| == 16
  {
    var index := (crc >> 4) & 0x0F;
    ((crc << 4) & 0xFF) ^ (table[index as int] as bv32)
  }

  function FoldByte(table: seq<u8>, crc: bv32, byte: u8): bv32
    requires |table| == 16
  {
    FoldNibble(table, FoldNibble(table, crc ^ (byte as bv32)))
  }

  function FourSteps(c: u8): u8 {
    BitStep(BitStep(BitStep(BitStep(c))))
  }

  lemma UnfoldFour(c: u8)
    ensures Steps(NIBBLE_BITS, c) == FourSteps(c)
  {
    assert Steps(1, c) == BitStep(c);
    assert Steps(2, c) == BitStep(Steps(1, c));
    assert Steps(3, c) == BitStep(Steps(2, c));
    assert Steps(4, c) == BitStep(Steps(3, c));
  }

  lemma {:induction false} StepsAdd(m: nat, n: nat, c: u8)
    ensures Steps(m + n, c) == Steps(m, Steps(n, c))
  {
    if m > 0 {
      StepsAdd(m - 1, n, c);
    }
  }

  lemma EightIsTwiceFour(c: u8)
    ensures EightSteps(c) == Steps(NIBBLE_BITS, Steps(NIBBLE_BITS, c))
  {
    StepsAdd(NIBBLE_BITS, NIBBLE_BITS, c);
  }

  /** The low nibble only shifts during four steps. */
  lemma FourStepsSplit(c: u8)
    ensures FourSteps(c) == (c << 4) ^ FourSteps((c >> 4) << 4)
  {
  }

  /** A nibble index survives the trip through `usize`. */
  lemma IndexRoundTrip(c: u8)
    ensures (((c as bv32) >> 4) & 0x0F) as int < 16
    ensures ((((c as bv32) >> 4) & 0x0F) as int) as u8 == c >> 4
  {
    var i := ((c as bv32) >> 4) & 0x0F;
    assert i == (c >> 4) as bv32;
    assert i < 16;
  }

  lemma LookupIsFourSteps(c: u8, entry: u8)
    requires entry == FourSteps((c >> 4) << 4)
    ensures (((c as bv32) << 4) & 0xFF) ^ (entry as bv32) == FourSteps(c) as bv32
  {
    FourStepsSplit(c);
  }

  /** One table lookup is four bit steps. */
  lemma FoldNibbleIsFourSteps(table: seq<u8>, c: u8)
    requires IsNibbleTable(table)
    ensures FoldNibble(table, c as bv32) == Steps(NIBBLE_BITS, c) as bv32
  {
    IndexRoundTrip(c);
    UnfoldFour(c);
    UnfoldFour((c >> 4) << 4);
    var index := (((c as bv32) >> 4) & 0x0F) as int;
    LookupIsFourSteps(c, table[index]);
  }

  lemma WidenXor(a: u8, b: u8)
    ensures (a as bv32) ^ (b as bv32) == (a ^ b) as bv32
  {
  }

  lemma FoldByteUnfold(table: seq<u8>, c: u8, byte: u8)
    requires |table| == 16
    ensures FoldByte(table, c as bv32, byte) == FoldNibble(table, FoldNibble(table, (c ^ byte) as bv32))
  {
    hide FoldNibble;
    WidenXor(c, byte);
  }

  lemma TwoNibbles(table: seq<u8>, c: u8)
    requires IsNibbleTable(table)
    ensures FoldNibble(table, FoldNibble(table, c as bv32)) == EightSteps(c) as bv32
  {
    hide BitStep, Steps, FoldNibble, EightSteps;
    FoldNibbleIsFourSteps(table, c);
    FoldNibbleIsFourSteps(table, Steps(NIBBLE_BITS, c));
    EightIsTwiceFour(c);
  }

  lemma FoldByteIsFeed(table: seq<u8>, c: u8, byte: u8)
    requires IsNibbleTable(table)
    ensures FoldByte(table, c as bv32, byte) == Feed(c, byte) as bv32
  {
    hide EightSteps, FoldNibble, FoldByte;
    FoldByteUnfold(table, c, byte);
    TwoNibbles(table, c ^ byte);
  }

  lemma {:induction false} FoldAppend(init: u8, a: seq<u8>, b: seq<u8>)
    ensures Fold(init, a + b) == Fold(Fold(init, a), b)
    decreases |a|
  {
    if a == [] {
      assert a + b == b;
    } else {
      assert (a + b)[1..] == a[1..] + b;
      FoldAppend(Feed(init, a[0]), a[1..], b);
    }
  }

  lemma Narrow(c: u8)
    ensures c as bv32 < 256 && (c as bv32) as u8 == c
  {
  }

  /** The crate's loop over a byte slice: table driven, register held in `u32`. */
  method Compute(bytes: seq<u8>) returns (result: u8)
    ensures result == Crc8(bytes)
  {
    hide Feed, FoldByte;
    var nibble := BuildNibbleTable();
    var table := nibble[..];
    var crc: bv32 := 0;
    ghost var register: u8 := 0;
    var i := 0;
    while i < |bytes|
      invariant 0 <= i <= |bytes|
      invariant crc == register as bv32
      invariant Crc8(bytes) == Fold(register, bytes[i..])
    {
      FoldByteIsFeed(table, register, bytes[i]);
      assert bytes[i..][1..] == bytes[i + 1..];
      register := Feed(register, bytes[i]);
      crc := FoldByte(table, crc, bytes[i]);
      i := i + 1;
    }
    Narrow(register);
    result := crc as u8;
  }

  // ------------------------------------------------------------ linearity

  function Flip(b: u8, flips: u8): u8 {
    b ^ flips
  }

  /** Bitwise xor of two byte strings of the same length: flip `e`'s bits in `m`. */
  function Xor(m: seq<u8>, e: seq<u8>): (r: seq<u8>)
    requires |m| == |e|
    ensures |r| == |m|
  {
    if m == [] then [] else [Flip(m[0], e[0])] + Xor(m[1..], e[1..])
  }

  lemma BitStepLinear(a: u8, b: u8)
    ensures BitStep(Flip(a, b)) == Flip(BitStep(a), BitStep(b))
  {
  }

  lemma {:induction false} StepsLinear(n: nat, a: u8, b: u8)
    ensures Steps(n, Flip(a, b)) == Flip(Steps(n, a), Steps(n, b))
  {
    hide BitStep, Flip;
    if n > 0 {
      StepsLinear(n - 1, a, b);
      BitStepLinear(Steps(n - 1, a), Steps(n - 1, b));
    }
  }

  /** Folding a flipped byte into the xor of two registers folds each pair apart. */
  lemma FeedLinear(i: u8, j: u8, m: u8, e: u8)
    ensures Feed(Flip(i, j), Flip(m, e)) == Flip(Feed(i, m), Feed(j, e))
  {
    hide Steps, Flip;
    FlipSwap(i, j, m, e);
    FeedOfFlip(i, m);
    FeedOfFlip(j, e);
    FeedOfFlip(Flip(i, j), Flip(m, e));
    StepsLinear(BYTE_BITS, Flip(i, m), Flip(j, e));
  }

  lemma FeedOfFlip(c: u8, byte: u8)
    ensures Feed(c, byte) == Steps(BYTE_BITS, Flip(c, byte))
  {
    hide Steps;
  }

  lemma FlipSwap(i: u8, j: u8, m: u8, e: u8)
    ensures Flip(Flip(i, j), Flip(m, e)) == Flip(Flip(i, m), Flip(j, e))
  {
    hide Flip;
    FlipAssoc(i, j, Flip(m, e));
    FlipAssoc(j, m, e);
    FlipCommutes(j, m);
    FlipAssoc(m, j, e);
    FlipAssoc(i, m, Flip(j, e));
  }

  lemma FlipAssoc(a: u8, b: u8, c: u8)
    ensures Flip(Flip(a, b), c) == Flip(a, Flip(b, c))
  {
  }

  lemma FlipCommutes(a: u8, b: u8)
    ensures Flip(a, b) == Flip(b, a)
  {
  }

  lemma {:induction false} FoldLinear(i: u8, j: u8, m: seq<u8>, e: seq<u8>)
    requires |m| == |e|
    ensures Fold(Flip(i, j), Xor(m, e)) == Flip(Fold(i, m), Fold(j, e))
    decreases |m|
  {
    hide Feed, Flip;
    if m != [] {
      var x := Xor(m, e);
      assert x[1..] == Xor(m[1..], e[1..]);
      FeedLinear(i, j, m[0], e[0]);
      FoldLinear(Feed(i, m[0]), Feed(j, e[0]), m[1..], e[1..]);
    }
  }

  /** The checksum of a flipped message is the checksum xor that of the flips. */
  lemma Linear(m: seq<u8>, e: seq<u8>)
    requires |m| == |e|
    ensures Crc8(Xor(m, e)) == Crc8(m) ^ Crc8(e)
  {
    hide Feed;
    FoldLinear(0, 0, m, e);
    assert Flip(0, 0) == 0;
  }

  // ------------------------------------------------------------ residue

  lemma BitStepZero(c: u8)
    ensures BitStep(c) == 0 <==> c == 0
  {
  }

  lemma {:induction false} StepsZero(n: nat, c: u8)
    ensures Steps(n, c) == 0 <==> c == 0
  {
    if n > 0 {
      StepsZero(n - 1, c);
      BitStepZero(Steps(n - 1, c));
    }
  }

  lemma XorZero(a: u8, b: u8)
    ensures a ^ b == 0 <==> a == b
    ensures (0 as u8) ^ b == b && a ^ 0 == a
  {
  }

  lemma FeedZero(c: u8, byte: u8)
    ensures Feed(c, byte) == 0 <==> c == byte
  {
    hide Steps;
    XorZero(c, byte);
    StepsZero(BYTE_BITS, c ^ byte);
  }

  /** The residue of message plus trailer is zero for the right trailer and for no other. */
  lemma Residue(m: seq<u8>, trailer: u8)
    ensures Crc8(m + [trailer]) == 0 <==> trailer == Crc8(m)
  {
    hide Feed;
    FoldAppend(0, m, [trailer]);
    assert Fold(Crc8(m), [trailer]) == Feed(Crc8(m), trailer);
    FeedZero(Crc8(m), trailer);
  }

  // ------------------------------------------------------------ parity

  function Bit(b: u8, k: nat): int
    requires k < 8
  {
    if (b >> k) & 1 == 1 then 1 else 0
  }

  /** How many bits of a byte are set. */
  function Ones(b: u8): int {
    Bit(b, 0) + Bit(b, 1) + Bit(b, 2) + Bit(b, 3) + Bit(b, 4) + Bit(b, 5) + Bit(b, 6) + Bit(b, 7)
  }

  /** How many bits of a byte string are set. */
  function Weight(e: seq<u8>): int {
    if e == [] then 0 else Ones(e[0]) + Weight(e[1..])
  }

  /** The parity of a byte, folded down to its lowest bit. */
  predicate OddParity(b: u8) {
    var fours := b ^ (b >> 4);
    var pairs := fours ^ (fours >> 2);
    (pairs ^ (pairs >> 1)) & 1 == 1
  }

  lemma ParityIsOddOnes(b: u8)
    ensures OddParity(b) <==> Ones(b) % 2 == 1
  {
  }

  lemma BitStepParity(c: u8)
    ensures OddParity(BitStep(c)) <==> OddParity(c)
  {
  }

  /** Every bit step keeps parity, because 0x107 has an even number of terms. */
  lemma {:induction false} StepsParity(n: nat, c: u8)
    ensures OddParity(Steps(n, c)) <==> OddParity(c)
  {
    if n > 0 {
      StepsParity(n - 1, c);
      BitStepParity(Steps(n - 1, c));
    }
  }

  lemma BitXor(a: u8, b: u8, k: nat)
    requires k < 8
    ensures Bit(a ^ b, k) == if Bit(a, k) == Bit(b, k) then 0 else 1
  {
  }

  /** Whether both bytes have bit `k`. */
  function Both(a: u8, b: u8, k: nat): int
    requires k < 8
  {
    if Bit(a, k) == 1 && Bit(b, k) == 1 then 1 else 0
  }

  lemma BitAdds(a: u8, b: u8, k: nat)
    requires k < 8
    ensures Bit(a ^ b, k) == Bit(a, k) + Bit(b, k) - 2 * Both(a, b, k)
  {
    BitXor(a, b, k);
    BitIsBit(a, k);
    BitIsBit(b, k);
    hide Bit;
  }

  lemma BitIsBit(a: u8, k: nat)
    requires k < 8
    ensures Bit(a, k) == 0 || Bit(a, k) == 1
  {
  }

  /** Whether the bits of `c` are those of `a` and `b` added without carry. */
  ghost predicate Adds(a: u8, b: u8, c: u8) {
    forall k: nat :: k < 8 ==> Bit(c, k) == Bit(a, k) + Bit(b, k) - 2 * Both(a, b, k)
  }

  lemma XorAdds(a: u8, b: u8)
    ensures Adds(a, b, a ^ b)
  {
    hide Bit, Both;
    forall k: nat | k < 8
      ensures Bit(a ^ b, k) == Bit(a, k) + Bit(b, k) - 2 * Both(a, b, k)
    {
      BitAdds(a, b, k);
    }
  }

  lemma AddsOnes(a: u8, b: u8, c: u8) returns (both: int)
    requires Adds(a, b, c)
    ensures Ones(c) == Ones(a) + Ones(b) - 2 * both
  {
    hide Bit, Both;
    both := Both(a, b, 0) + Both(a, b, 1) + Both(a, b, 2) + Both(a, b, 3)
          + Both(a, b, 4) + Both(a, b, 5) + Both(a, b, 6) + Both(a, b, 7);
  }

  /** XOR adds weights, modulo two: the bits set in both bytes cancel in pairs. */
  lemma OnesXor(a: u8, b: u8)
    ensures Ones(a ^ b) % 2 == (Ones(a) + Ones(b)) % 2
  {
    hide Ones, Adds;
    XorAdds(a, b);
    var both := AddsOnes(a, b, a ^ b);
  }

  /** Feeding a byte adds its weight to the register's, modulo two. */
  lemma FeedParity(c: u8, byte: u8)
    ensures Ones(Feed(c, byte)) % 2 == (Ones(c) + Ones(byte)) % 2
  {
    hide Steps, Ones, OddParity;
    OnesXor(c, byte);
    StepsParity(BYTE_BITS, c ^ byte);
    ParityIsOddOnes(c ^ byte);
    ParityIsOddOnes(Feed(c, byte));
  }

  lemma AddParity(a: int, b: int, sum: int, rest: int)
    requires sum % 2 == (a + b) % 2
    ensures (sum + rest) % 2 == (a + (b + rest)) % 2
  {
  }

  lemma {:induction false} FoldParity(init: u8, m: seq<u8>)
    ensures Ones(Fold(init, m)) % 2 == (Ones(init) + Weight(m)) % 2
    decreases |m|
  {
    hide Feed, Ones;
    if m != [] {
      FoldParity(Feed(init, m[0]), m[1..]);
      FeedParity(init, m[0]);
      AddParity(Ones(init), Ones(m[0]), Ones(Feed(init, m[0])), Weight(m[1..]));
    }
  }

  // ------------------------------------------------------------ detection

  /** All non-zero bits of `e` lie inside eight consecutive bit positions, and there is one. */
  ghost predicate IsBurst(e: seq<u8>) {
    exists i, shift: bv4, v: u8 :: BurstAt(e, i, shift, v)
  }

  /**
    The burst is the pattern `v` placed `shift` bits above the end of the byte
    pair at `i`.  One inside a single byte is that byte of a pair: its second
    with `shift == 0`, or its first with `shift == 8`; only the latter is left
    when the pair starts at the last byte.
   */
  ghost predicate BurstAt(e: seq<u8>, i: int, shift: bv4, v: u8) {
    && 0 <= i < |e|
    && v != 0
    && shift <= 8
    && (forall k :: 0 <= k < |e| && k != i && k != i + 1 ==> e[k] == 0)
    && e[i] == HighPart(v, shift)
    && (if i + 1 < |e| then e[i + 1] == LowPart(v, shift) else shift == 8)
  }

  function HighPart(v: u8, shift: bv4): u8 {
    (((v as bv16) << shift) >> 8) as u8
  }

  function LowPart(v: u8, shift: bv4): u8 {
    (((v as bv16) << shift) & 0xFF) as u8
  }

  lemma {:induction false} FoldZeros(init: u8, m: seq<u8>)
    requires forall k :: 0 <= k < |m| ==> m[k] == 0
    ensures Fold(init, m) == 0 <==> init == 0
    decreases |m|
  {
    hide Feed;
    if m != [] {
      FeedZero(init, 0);
      FoldZeros(Feed(init, 0), m[1..]);
    }
  }

  lemma UnfoldEight(c: u8)
    ensures EightSteps(c) == FourSteps(FourSteps(c))
  {
    hide BitStep;
    EightIsTwiceFour(c);
    UnfoldFour(c);
    UnfoldFour(FourSteps(c));
  }

  lemma BurstPattern(v: u8, shift: bv4)
    requires v != 0 && shift <= 8
    ensures FourSteps(FourSteps(HighPart(v, shift))) != LowPart(v, shift)
  {
  }

  lemma FeedFromZero(byte: u8)
    ensures Feed(0, byte) == EightSteps(byte)
  {
    assert (0 as u8) ^ byte == byte;
  }

  /** A non-zero eight-bit pattern anywhere in two bytes leaves a non-zero register. */
  lemma BurstRegister(v: u8, shift: bv4)
    requires v != 0 && shift <= 8
    ensures Feed(Feed(0, HighPart(v, shift)), LowPart(v, shift)) != 0
  {
    hide Steps, Feed, FourSteps, HighPart, LowPart;
    var hi, lo := HighPart(v, shift), LowPart(v, shift);
    BurstPattern(v, shift);
    UnfoldEight(hi);
    FeedFromZero(hi);
    FeedZero(EightSteps(hi), lo);
  }

  lemma HighPartOfWholeByte(v: u8)
    ensures HighPart(v, 8) == v
  {
  }

  /** Every burst of at most eight bits changes the checksum. */
  lemma BurstDetected(e: seq<u8>)
    requires IsBurst(e)
    ensures Crc8(e) != 0
  {
    hide Feed, HighPart, LowPart;
    var i, shift: bv4, v: u8 :| BurstAt(e, i, shift, v);
    var before, rest := e[..i], e[i..];
    assert e == before + rest;
    FoldAppend(0, before, rest);
    FoldZeros(0, before);
    if i + 1 < |e| {
      BurstRegister(v, shift);
      var after := e[i + 2..];
      assert rest == [e[i], e[i + 1]] + after;
      FoldAppend(0, [e[i], e[i + 1]], after);
      assert [e[i], e[i + 1]][1..] == [e[i + 1]];
      assert Fold(Feed(0, e[i]), [e[i + 1]]) == Feed(Feed(0, e[i]), e[i + 1]);
      FoldZeros(Fold(0, [e[i], e[i + 1]]), after);
    } else {
      assert rest == [e[i]];
      assert Fold(0, [e[i]]) == Feed(0, e[i]);
      FeedZero(0, e[i]);
      HighPartOfWholeByte(v);
    }
  }

  /** Every odd number of flipped bits changes the checksum. */
  lemma OddFlipsDetected(e: seq<u8>)
    requires Weight(e) % 2 == 1
    ensures Crc8(e) != 0
  {
    FoldParity(0, e);
  }

  /**
    A protected word (message then its checksum) hit by an odd number of flips,
    or by any burst of at most eight bits, no longer carries its own checksum.
   */
  lemma CorruptionDetected(m: seq<u8>, e: seq<u8>, word: seq<u8>)
    requires |e| == |m| + 1
    requires Weight(e) % 2 == 1 || IsBurst(e)
    requires word == Xor(m + [Crc8(m)], e)
    ensures Crc8(word[..|m|]) != word[|m|]
  {
    hide Fold, Crc8, Xor, Weight, IsBurst;
    Residue(m, Crc8(m));
    Linear(m + [Crc8(m)], e);
    if Weight(e) % 2 == 1 { OddFlipsDetected(e); } else { BurstDetected(e); }
    XorZero(0, Crc8(e));
    assert word == word[..|m|] + [word[|m|]];
    Residue(word[..|m|], word[|m|]);
  }
}
