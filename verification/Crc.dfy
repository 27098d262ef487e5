/**
 * The table-driven CRC-32 of PNG chunks. A register holds a remainder with bit 0 for the highest
 * power, so shifting right multiplies by x.
 */
module Crc {
  import opened Gf2

  type Bytes = seq<bv8>

  const POLYNOMIAL: bv32 := 0xedb8_8320

  /** One shift of the register, as in the inner loop that fills the table. */
  function Step(c: bv32): bv32 {
    if c & 1 == 1 then POLYNOMIAL ^ (c >> 1) else c >> 1
  }

  function Steps(c: bv32, n: nat): bv32
    decreases n
  {
    if n == 0 then c else Steps(Step(c), n - 1)
  }

  /** The table's entry for the byte b. */
  function Entry(b: bv8): bv32 { Steps(b as bv32, 8) }

  /** The entry of each byte, however it is obtained. */
  type Entries = bv8 -> bv32

  ghost predicate Holds(t: seq<bv32>, entries: Entries) {
    |t| == 256 && forall b: bv8 :: t[b as int] == entries(b)
  }

  /** The inner loop: eight shifts of n. */
  method FillEntry(n: bv8) returns (c: bv32)
    ensures c == Entry(n)
  {
    c := n as bv32;
    for k := 0 to 8
      invariant Steps(c, 8 - k) == Entry(n)
    {
      c := if c & 1 == 1 then POLYNOMIAL ^ (c >> 1) else c >> 1;
    }
  }

  lemma SameByte(a: bv8, b: bv8)
    requires a as int == b as int
    ensures a == b
  {
  }

  /** Fills the 256 entries. */
  method MakeTable() returns (t: array<bv32>)
    ensures fresh(t) && Holds(t[..], Entry)
  {
    t := new bv32[256];
    for n := 0 to 256
      invariant forall b: bv8 :: b as int < n ==> t[b as int] == Entry(b)
    {
      var byte := n as bv8;
      var c := FillEntry(byte);
      t[n] := c;
      forall b: bv8 | b as int < n + 1 ensures t[b as int] == Entry(b) {
        if b as int == n { SameByte(b, byte); }
      }
    }
  }

  // --- registers as bit strings ---

  predicate Low(c: bv32) { c & 1 == 1 }

  function Half(c: bv32): bv32 { c >> 1 }

  /** The n low bits of c, lowest first. */
  function BitsOf(c: bv32, n: nat): (b: Bits)
    ensures |b| == n
    decreases n
  {
    if n == 0 then [] else [Low(c)] + BitsOf(Half(c), n - 1)
  }

  lemma ConsXor(a: bool, s: Bits, b: bool, t: Bits)
    requires |s| == |t|
    ensures Xor([a] + s, [b] + t) == [a != b] + Xor(s, t)
  {
  }

  lemma ShiftXor(x: bv32, y: bv32)
    ensures Half(x ^ y) == Half(x) ^ Half(y)
    ensures Low(x ^ y) == (Low(x) != Low(y))
  {
  }

  lemma {:induction false} BitsOfXor(x: bv32, y: bv32, n: nat)
    ensures BitsOf(x ^ y, n) == Xor(BitsOf(x, n), BitsOf(y, n))
    decreases n
  {
    if n > 0 {
      ShiftXor(x, y);
      var hx, hy := Half(x), Half(y);
      BitsOfXor(hx, hy, n - 1);
      ConsXor(Low(x), BitsOf(hx, n - 1), Low(y), BitsOf(hy, n - 1));
    }
  }

  lemma {:induction false} BitsOfZero(n: nat)
    ensures BitsOf(0, n) == Zeros(n)
    decreases n
  {
    if n == 0 {
    } else {
      assert Half(0) == 0;
      BitsOfZero(n - 1);
    }
  }

  /** c with its n low bits shifted out. */
  function Drop(c: bv32, n: nat): bv32
    decreases n
  {
    if n == 0 then c else Drop(Half(c), n - 1)
  }

  lemma {:induction false} DropDrop(c: bv32, m: nat, n: nat)
    ensures Drop(c, m + n) == Drop(Drop(c, m), n)
    decreases m
  {
    if m == 0 {
    } else {
      DropDrop(Half(c), m - 1, n);
    }
  }

  lemma HalveFour(c: bv32)
    ensures Half(Half(Half(Half(c)))) == c >> 4
  {
  }

  lemma ShiftAgain(c: bv32)
    ensures (c >> 4) >> 4 == c >> 8
    ensures c < 0x100 ==> c >> 8 == 0
    ensures (((c >> 8) >> 8) >> 8) >> 8 == 0
  {
  }

  lemma DropFour(c: bv32)
    ensures Drop(c, 4) == c >> 4
  {
    var c1 := Half(c);
    var c2 := Half(c1);
    var c3 := Half(c2);
    assert Drop(c, 4) == Drop(c1, 3) == Drop(c2, 2) == Drop(c3, 1) == Drop(Half(c3), 0);
    HalveFour(c);
  }

  lemma DropEight(c: bv32)
    ensures Drop(c, 8) == c >> 8
  {
    var d := c >> 4;
    DropFour(c);
    DropFour(d);
    DropDrop(c, 4, 4);
    ShiftAgain(c);
  }

  lemma DropAll(c: bv32)
    ensures Drop(c, 32) == 0
  {
    var c1 := c >> 8;
    var c2 := c1 >> 8;
    var c3 := c2 >> 8;
    DropEight(c);
    DropEight(c1);
    DropEight(c2);
    DropEight(c3);
    DropDrop(c, 8, 8);
    DropDrop(c, 16, 8);
    DropDrop(c, 24, 8);
    ShiftAgain(c);
  }

  /** Once the register is exhausted, the next bit is zero. */
  lemma {:induction false} BitsPast(c: bv32, k: nat)
    requires Drop(c, k) == 0
    ensures BitsOf(c, k + 1) == BitsOf(c, k) + [false]
    decreases k
  {
    if k == 0 {
    } else {
      BitsPast(Half(c), k - 1);
    }
  }

  /** A shift moves every bit one place and brings in a zero. */
  lemma ShiftBits(c: bv32)
    ensures BitsOf(Half(c), 32) == BitsOf(c, 32)[1..] + [false]
  {
    DropAll(c);
    assert Drop(c, 32) == Drop(Half(c), 31);
    BitsPast(Half(c), 31);
  }

  // --- one shift is one clock of the bit-serial register ---

  function LowTerms(): (b: Bits)
    ensures |b| == 32
  {
    BitsOf(POLYNOMIAL, 32)
  }

  /** The degree-32 polynomial: its leading coefficient, then the register form of the rest. */
  function GeneratorPolynomial(): (g: Generator)
    ensures Degree(g) == 32
  {
    [true] + LowTerms()
  }

  lemma StepAdds(c: bv32)
    ensures BitsOf(Step(c), 32) == Xor(BitsOf(Half(c), 32), Scaled(Low(c), LowTerms()))
  {
    if Low(c) {
      BitsOfXor(POLYNOMIAL, Half(c), 32);
      XorLaws(BitsOf(Half(c), 32), LowTerms());
    } else {
      XorLaws(BitsOf(Half(c), 32), Zeros(32));
    }
  }

  lemma StepClocks(c: bv32)
    ensures BitsOf(Step(c), 32) == Clock(BitsOf(c, 32), false, LowTerms())
  {
    StepAdds(c);
    ShiftBits(c);
  }

  lemma {:induction false} StepsClock(c: bv32, n: nat)
    ensures BitsOf(Steps(c, n), 32) == ClockAll(BitsOf(c, 32), Zeros(n), LowTerms())
    decreases n
  {
    if n == 0 {
    } else {
      StepClocks(c);
      StepsClock(Step(c), n - 1);
      ClockZero(BitsOf(c, 32), n, LowTerms());
    }
  }

  // --- one byte through the table ---

  function Ones(n: nat): (b: Bits)
    ensures |b| == n && forall i :: 0 <= i < n ==> b[i]
  {
    Flip(Zeros(n))
  }

  lemma LowsOf(c: bv32)
    requires c & 0xff == 0xff
    ensures Low(c) && Low(Half(c)) && Low(Half(Half(c))) && Low(Half(Half(Half(c))))
    ensures (c >> 4) & 0xf == 0xf
  {
  }

  lemma OneBit(c: bv32, n: nat)
    ensures BitsOf(c, n + 1) == [Low(c)] + BitsOf(Half(c), n)
  {
  }

  lemma FourBits(c: bv32)
    ensures BitsOf(c, 4) == [Low(c)] + ([Low(Half(c))] + ([Low(Half(Half(c)))] + ([Low(Half(Half(Half(c))))] + [])))
  {
    var c1 := Half(c);
    var c2 := Half(c1);
    var c3 := Half(c2);
    OneBit(c, 3);
    OneBit(c1, 2);
    OneBit(c2, 1);
    OneBit(c3, 0);
  }

  lemma FourOnes(c: bv32)
    requires Low(c) && Low(Half(c)) && Low(Half(Half(c))) && Low(Half(Half(Half(c))))
    ensures BitsOf(c, 4) == Ones(4)
  {
    FourBits(c);
  }

  /** The bits of c in two parts. */
  lemma {:induction false} BitsSplit(c: bv32, m: nat, n: nat)
    ensures BitsOf(c, m + n) == BitsOf(c, m) + BitsOf(Drop(c, m), n)
    decreases m
  {
    if m == 0 {
    } else {
      BitsSplit(Half(c), m - 1, n);
    }
  }

  lemma NibbleOnes(c: bv32)
    requires c & 0xf == 0xf
    ensures Low(c) && Low(Half(c)) && Low(Half(Half(c))) && Low(Half(Half(Half(c))))
  {
  }

  lemma EightOnes(c: bv32)
    requires c & 0xff == 0xff
    ensures BitsOf(c, 8) == Ones(8)
  {
    LowsOf(c);
    FourOnes(c);
    NibbleOnes(c >> 4);
    FourOnes(c >> 4);
    DropFour(c);
    BitsSplit(c, 4, 4);
  }

  lemma AllOnes()
    ensures BitsOf(0xffff_ffff, 32) == Ones(32)
  {
    var c: bv32, c1: bv32, c2: bv32, c3: bv32 := 0xffff_ffff, 0x00ff_ffff, 0x0000_ffff, 0x0000_00ff;
    EightOnes(c);
    EightOnes(c1);
    EightOnes(c2);
    EightOnes(c3);
    DropEight(c);
    DropEight(c1);
    DropEight(c2);
    BitsSplit(c2, 8, 8);
    BitsSplit(c1, 8, 16);
    BitsSplit(c, 8, 24);
  }

  lemma MaskShift(x: bv32, m: bv32)
    ensures Half(x & m) == Half(x) & Half(m)
    ensures Low(x & m) == (Low(x) && Low(m))
  {
  }

  lemma FirstOne(m: bv32, n: nat)
    requires n > 0 && BitsOf(m, n) == Ones(n)
    ensures Low(m) && BitsOf(Half(m), n - 1) == Ones(n - 1)
  {
    var rest := BitsOf(Half(m), n - 1);
    assert BitsOf(m, n)[0] && BitsOf(m, n)[1..] == rest;
    assert rest == Ones(n - 1);
  }

  lemma {:induction false} MaskBits(x: bv32, m: bv32, n: nat)
    requires BitsOf(m, n) == Ones(n)
    ensures BitsOf(x & m, n) == BitsOf(x, n)
    decreases n
  {
    if n == 0 {
    } else {
      FirstOne(m, n);
      MaskShift(x, m);
      MaskBits(Half(x), Half(m), n - 1);
    }
  }

  lemma {:induction false} DropBits(c: bv32, n: nat)
    requires n <= 32
    ensures BitsOf(Drop(c, n), 32) == BitsOf(c, 32)[n..] + Zeros(n)
    decreases n
  {
    if n == 0 {
    } else {
      ShiftBits(c);
      DropBits(Half(c), n - 1);
      ShiftOnce(BitsOf(c, 32), n);
    }
  }

  function ByteBits(b: bv8): (m: Bits)
    ensures |m| == 8
  {
    BitsOf(b as bv32, 8)
  }

  lemma LoadedByte(b: bv8)
    ensures BitsOf(b as bv32, 32) == ByteBits(b) + Zeros(24)
  {
    var c := b as bv32;
    DropEight(c);
    ShiftAgain(c);
    BitsSplit(c, 8, 24);
    BitsOfZero(24);
  }

  /** A table entry is what its byte leaves in an empty register. */
  lemma EntryClocks(b: bv8)
    ensures BitsOf(Entry(b), 32) == ClockAll(Zeros(32), ByteBits(b), LowTerms())
  {
    StepsClock(b as bv32, 8);
    LoadedByte(b);
    Preload(ByteBits(b), LowTerms());
  }

  /** The table's index for the register c and the byte b. */
  function Index(c: bv32, b: bv8): bv8 { ((c ^ (b as bv32)) & 0xff) as bv8 }

  lemma LowEight(c: bv32)
    ensures BitsOf(c, 32)[..8] == BitsOf(c, 8)
    ensures BitsOf(c & 0xff, 8) == BitsOf(c, 8)
  {
    BitsSplit(c, 8, 24);
    EightOnes(0xff);
    MaskBits(c, 0xff, 8);
  }

  lemma IndexWide(c: bv32, b: bv8)
    ensures Index(c, b) as bv32 == (c ^ (b as bv32)) & 0xff
  {
  }

  lemma IndexBits(c: bv32, b: bv8)
    ensures ByteBits(Index(c, b)) == Xor(BitsOf(c, 32)[..8], ByteBits(b))
  {
    var wide := b as bv32;
    IndexWide(c, b);
    LowEight(c);
    LowEight(c ^ wide);
    BitsOfXor(c, wide, 8);
  }

  /** The loop body of the checksum. */
  function TableStep(entries: Entries, c: bv32, b: bv8): bv32 { entries(Index(c, b)) ^ (c >> 8) }

  lemma MovedUp(c: bv32)
    ensures BitsOf(c >> 8, 32) == BitsOf(c, 32)[8..] + Zeros(8)
  {
    DropEight(c);
    DropBits(c, 8);
  }

  lemma TableStepBits(c: bv32, b: bv8)
    ensures BitsOf(TableStep(Entry, c, b), 32) == Xor(BitsOf(Entry(Index(c, b)), 32), BitsOf(c >> 8, 32))
  {
    BitsOfXor(Entry(Index(c, b)), c >> 8, 32);
  }

  lemma TableStepClocks(c: bv32, b: bv8)
    ensures BitsOf(TableStep(Entry, c, b), 32) == ClockAll(BitsOf(c, 32), ByteBits(b), LowTerms())
  {
    TableStepBits(c, b);
    EntryClocks(Index(c, b));
    IndexBits(c, b);
    MovedUp(c);
    TableLookup(BitsOf(c, 32), ByteBits(b), LowTerms());
  }

  lemma HighTerms()
    ensures BitsOf(0xedb8_8320, 16) == [false, false, false, false, false, true, false, false,
                                        true, true, false, false, false, false, false, true]
  {
    var c: bv32, c1: bv32, c2: bv32, c3: bv32 := 0xedb8_8320, 0x0edb_8832, 0x00ed_b883, 0x000e_db88;
    FourBits(c);
    FourBits(c1);
    FourBits(c2);
    FourBits(c3);
    DropFour(c);
    DropFour(c1);
    DropFour(c2);
    BitsSplit(c2, 4, 4);
    BitsSplit(c1, 4, 8);
    BitsSplit(c, 4, 12);
  }

  lemma BottomTerms()
    ensures BitsOf(0x0000_edb8, 16) == [false, false, false, true, true, true, false, true,
                                        true, false, true, true, false, true, true, true]
  {
    var c: bv32, c1: bv32, c2: bv32, c3: bv32 := 0x0000_edb8, 0x0000_0edb, 0x0000_00ed, 0x0000_000e;
    FourBits(c);
    FourBits(c1);
    FourBits(c2);
    FourBits(c3);
    DropFour(c);
    DropFour(c1);
    DropFour(c2);
    BitsSplit(c2, 4, 4);
    BitsSplit(c1, 4, 8);
    BitsSplit(c, 4, 12);
  }

  /** The terms that section 5.5 of the PNG Specification (Third Edition) lists. */
  const POWERS: set<nat> := {32, 26, 23, 22, 16, 12, 11, 10, 8, 7, 5, 4, 2, 1, 0}

  lemma ListedTerms(high: Bits, bottom: Bits, e: nat)
    requires e <= 32
    requires high == [false, false, false, false, false, true, false, false,
                      true, true, false, false, false, false, false, true]
    requires bottom == [false, false, false, true, true, true, false, true,
                        true, false, true, true, false, true, true, true]
    ensures ([true] + (high + bottom))[32 - e] <==> e in POWERS
  {
  }

  lemma DropSixteen(c: bv32)
    ensures Drop(c, 16) == (c >> 8) >> 8
  {
    var d := c >> 8;
    DropEight(c);
    DropEight(d);
    DropDrop(c, 8, 8);
  }

  /** The divisor is the polynomial of the format. */
  lemma GeneratorIsStandard(e: nat)
    requires e <= 32
    ensures GeneratorPolynomial()[32 - e] <==> e in POWERS
  {
    HighTerms();
    BottomTerms();
    DropSixteen(POLYNOMIAL);
    BitsSplit(POLYNOMIAL, 16, 16);
    ListedTerms(BitsOf(POLYNOMIAL, 16), BitsOf(0x0000_edb8, 16), e);
  }

  // --- the checksum ---

  function Register(entries: Entries, bytes: Bytes): bv32
    decreases |bytes|
  {
    if bytes == [] then 0xffff_ffff
    else TableStep(entries, Register(entries, bytes[..|bytes| - 1]), bytes[|bytes| - 1])
  }

  function Checksum(bytes: Bytes): bv32 { Register(Entry, bytes) ^ 0xffff_ffff }

  lemma RegisterNext(entries: Entries, bytes: Bytes, i: nat)
    requires i < |bytes|
    ensures Register(entries, bytes[..i + 1]) == TableStep(entries, Register(entries, bytes[..i]), bytes[i])
  {
    assert bytes[..i + 1][..i] == bytes[..i];
  }

  method LookUp(table: array<bv32>, ghost entries: Entries, k: bv8) returns (entry: bv32)
    requires Holds(table[..], entries)
    ensures entry == entries(k)
  {
    entry := table[k as int];
    assert table[..][k as int] == entries(k);
  }

  /** One byte through the table, at the index k it gives. */
  method StepBy(table: array<bv32>, ghost entries: Entries, c: bv32, k: bv8) returns (next: bv32)
    requires Holds(table[..], entries)
    ensures next == entries(k) ^ (c >> 8)
  {
    var entry := LookUp(table, entries, k);
    next := entry ^ (c >> 8);
  }

  /** The loop body of the checksum. */
  method Advance(table: array<bv32>, ghost entries: Entries, bytes: Bytes, i: nat, c: bv32) returns (next: bv32)
    requires Holds(table[..], entries) && i < |bytes|
    requires c == Register(entries, bytes[..i])
    ensures next == Register(entries, bytes[..i + 1])
  {
    RegisterNext(entries, bytes, i);
    next := StepBy(table, entries, c, Index(c, bytes[i]));
  }

  method Accumulate(table: array<bv32>, ghost entries: Entries, bytes: Bytes) returns (c: bv32)
    requires Holds(table[..], entries)
    ensures c == Register(entries, bytes)
  {
    c := 0xffff_ffff;
    for i := 0 to |bytes|
      invariant c == Register(entries, bytes[..i])
    {
      c := Advance(table, entries, bytes, i, c);
    }
    assert bytes[..|bytes|] == bytes;
  }

  /** The loop and the final complement, over the table of any entries. */
  method CrcBy(table: array<bv32>, ghost entries: Entries, bytes: Bytes) returns (r: bv32)
    requires Holds(table[..], entries)
    ensures r == Register(entries, bytes) ^ 0xffff_ffff
  {
    var c := Accumulate(table, entries, bytes);
    r := c ^ 0xffff_ffff;
  }

  method Crc32(table: array<bv32>, bytes: Bytes) returns (r: bv32)
    requires Holds(table[..], Entry)
    ensures r == Checksum(bytes)
  {
    r := CrcBy(table, Entry, bytes);
  }

  /** The bits the checksum covers, each byte's lowest bit first. */
  function MessageBits(bytes: Bytes): Bits {
    if bytes == [] then []
    else MessageBits(bytes[..|bytes| - 1]) + ByteBits(bytes[|bytes| - 1])
  }

  lemma {:induction false} RegisterClocks(bytes: Bytes)
    ensures BitsOf(Register(Entry, bytes), 32) == ClockAll(Ones(32), MessageBits(bytes), LowTerms())
  {
    if bytes == [] {
      AllOnes();
    } else {
      var init, last := bytes[..|bytes| - 1], bytes[|bytes| - 1];
      RegisterClocks(init);
      TableStepClocks(Register(Entry, init), last);
      ClockAllConcat(Ones(32), MessageBits(init), ByteBits(last), LowTerms());
    }
  }

  lemma XorOnes(a: Bits)
    ensures Xor(a, Ones(|a|)) == Flip(a)
  {
  }

  lemma ChecksumClocks(bytes: Bytes)
    ensures BitsOf(Checksum(bytes), 32) == Flip(ClockAll(Ones(32), MessageBits(bytes), LowTerms()))
  {
    RegisterClocks(bytes);
    BitsOfXor(Register(Entry, bytes), 0xffff_ffff, 32);
    AllOnes();
    XorOnes(BitsOf(Register(Entry, bytes), 32));
  }

  /**
   * The table-driven checksum is the complemented remainder of bit-by-bit division: the message
   * times x^32, its first 32 coefficients complemented, divided by the generator polynomial.
   */
  lemma ChecksumIsDivision(bytes: Bytes)
    ensures BitsOf(Checksum(bytes), 32)
         == Flip(Remainder(Dividend(Ones(32), MessageBits(bytes)), GeneratorPolynomial()))
  {
    ChecksumClocks(bytes);
    ClockAllDivides(Ones(32), MessageBits(bytes), LowTerms());
  }

  /** Each table entry is the remainder of its byte times x^32. */
  lemma EntryIsRemainder(b: bv8)
    ensures BitsOf(Entry(b), 32) == Remainder(ByteBits(b) + Zeros(32), GeneratorPolynomial())
  {
    EntryClocks(b);
    ClockAllDivides(Zeros(32), ByteBits(b), LowTerms());
    assert Dividend(Zeros(32), ByteBits(b)) == ByteBits(b) + Zeros(32);
  }

  lemma TopNibble()
    ensures Drop(POLYNOMIAL, 28) == 0xe
  {
    var c: bv32, c1: bv32, c2: bv32, c3: bv32 := 0xedb8_8320, 0x00ed_b883, 0x0000_edb8, 0x0000_00ed;
    DropEight(c);
    DropEight(c1);
    DropEight(c2);
    DropFour(c3);
    DropDrop(c, 8, 8);
    DropDrop(c, 16, 8);
    DropDrop(c, 24, 4);
  }

  lemma LastOfNibble()
    ensures Drop(0xe, 3) == 1
  {
    assert Drop(0xe, 3) == Drop(0x7, 2) == Drop(0x3, 1);
  }

  lemma ConstantTerm()
    ensures LowTerms()[31]
  {
    TopNibble();
    LastOfNibble();
    DropDrop(POLYNOMIAL, 28, 3);
    BitsSplit(POLYNOMIAL, 31, 1);
  }

  lemma SameFlip(a: Bits, b: Bits)
    requires Flip(a) == Flip(b)
    ensures a == b
  {
    assert |a| == |Flip(a)| == |b|;
    assert forall i :: 0 <= i < |a| ==> a[i] == !Flip(a)[i] && b[i] == !Flip(b)[i];
  }

  lemma SharedTerms(x: Bytes, y: Bytes) returns (low: Bits)
    requires Checksum(x) == Checksum(y)
    ensures |low| == 32 && low[31]
    ensures ClockAll(Ones(32), MessageBits(x), low) == ClockAll(Ones(32), MessageBits(y), low)
  {
    low := LowTerms();
    ChecksumClocks(x);
    ChecksumClocks(y);
    SameFlip(ClockAll(Ones(32), MessageBits(x), low), ClockAll(Ones(32), MessageBits(y), low));
    ConstantTerm();
  }

  /** Two messages that differ only within 32 consecutive bits have different checksums. */
  lemma BurstsAreDetected(x: Bytes, y: Bytes, a: Bits, u: Bits, v: Bits, z: Bits)
    requires MessageBits(x) == a + u + z && MessageBits(y) == a + v + z
    requires |u| == |v| <= 32 && u != v
    ensures Checksum(x) != Checksum(y)
  {
    if Checksum(x) == Checksum(y) {
      var low := SharedTerms(x, y);
      BurstChangesRegister(Ones(32), a, u, v, z, low);
    }
  }
}
