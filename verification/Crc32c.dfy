/** CRC32C as section 12.1 of RFC 3720 defines it, and the table-driven form that computes it
    (util/crc32c.cc, util/crc32c.h). */
module Crc32c {
  import opened Wrappers

  type Byte = bv8

  /** The Castagnoli polynomial, bits reversed. */
  const POLYNOMIAL: bv32 := 0x82f6_3b78

  /** Divide by the polynomial, one bit. */
  function DivideBit(x: bv32): bv32 {
    (x >> 1) ^ (if x & 1 == 1 then POLYNOMIAL else 0)
  }

  // The functions below are given by guarded definitions, so that proofs that only move them about
  // do not see the single bits.

  ghost predicate IsShift(x: bv32, r: bv32) {
    forall k {:trigger Unfold(k)} :: k == IN_SHIFT && Unfold(k) ==> r == DivideBit(x)
  }

  ghost function Shift(x: bv32): (r: bv32)
    ensures IsShift(x, r)
  {
    assert IsShift(x, DivideBit(x));
    var r :| IsShift(x, r);
    r
  }

  function Times<T>(f: T -> T, x: T, n: nat): T {
    if n == 0 then x else f(Times(f, x, n - 1))
  }

  /** r is x divided by eight bits. */
  ghost predicate IsByteShift(x: bv32, r: bv32) {
    forall k {:trigger Unfold(k)} :: k == IN_BYTE_SHIFT && Unfold(k) ==> r == Times(Shift, x, 8)
  }

  ghost function ByteShift(x: bv32): (r: bv32)
    ensures IsByteShift(x, r)
  {
    assert IsByteShift(x, Times(Shift, x, 8));
    var r :| IsByteShift(x, r);
    r
  }

  ghost predicate IsXor(x: bv32, y: bv32, r: bv32) {
    forall k {:trigger Unfold(k)} :: k == IN_XOR && Unfold(k) ==> r == x ^ y
  }

  ghost function Xor(x: bv32, y: bv32): (r: bv32)
    ensures IsXor(x, y, r)
  {
    assert IsXor(x, y, x ^ y);
    var r :| IsXor(x, y, r);
    r
  }

  ghost function ByteStep(l: bv32, b: Byte): bv32 {
    ByteShift(Xor(l, b as bv32))
  }

  /** The register after the bytes of data. */
  ghost function Register(l: bv32, data: seq<Byte>): bv32
    decreases |data|
  {
    if data == [] then l else Register(ByteStep(l, data[0]), data[1..])
  }

  /** The checksum of A + data, given the checksum of A: the bits of data are divided one by one. */
  ghost function Extended(crc: bv32, data: seq<Byte>): bv32 {
    Flip(Register(Flip(crc), data))
  }

  function Flip(x: bv32): bv32 {
    x ^ 0xffff_ffff
  }

  lemma {:induction false} RegisterSplits(l: bv32, a: seq<Byte>, b: seq<Byte>)
    ensures Register(l, a + b) == Register(Register(l, a), b)
    decreases |a|
  {
    if a == [] {
      assert a + b == b;
    } else {
      assert (a + b)[1..] == a[1..] + b;
      RegisterSplits(ByteStep(l, a[0]), a[1..], b);
    }
  }

  lemma Twice(x: bv32)
    ensures Flip(Flip(x)) == x
  {
  }

  /** Extending over a and then b is extending over both. */
  lemma ExtendSplits(crc: bv32, a: seq<Byte>, b: seq<Byte>)
    ensures Extended(Extended(crc, a), b) == Extended(crc, a + b)
  {
    Twice(Register(Flip(crc), a));
    RegisterSplits(Flip(crc), a, b);
  }

  // ----- the register is linear -----

  ghost predicate Linear(f: bv32 -> bv32) {
    forall x, y {:trigger f(Xor(x, y))} :: f(Xor(x, y)) == Xor(f(x), f(y))
  }

  lemma {:induction false} TimesLinear(f: bv32 -> bv32, x: bv32, y: bv32, n: nat)
    requires Linear(f)
    ensures Times(f, Xor(x, y), n) == Xor(Times(f, x, n), Times(f, y, n))
  {
    if n > 0 {
      TimesLinear(f, x, y, n - 1);
    }
  }

  lemma XorBits(x: bv32, y: bv32)
    ensures (x ^ y) & 1 == (x & 1) ^ (y & 1) && (x ^ y) >> 1 == (x >> 1) ^ (y >> 1)
    ensures (x & 1 == 1 || x & 1 == 0) && (y & 1 == 1 || y & 1 == 0)
  {
  }

  lemma Regroup(a: bv32, b: bv32, p: bv32, q: bv32)
    ensures (a ^ b) ^ (p ^ q) == (a ^ p) ^ (b ^ q)
  {
  }

  lemma DivideBitLinear(x: bv32, y: bv32)
    ensures DivideBit(x ^ y) == DivideBit(x) ^ DivideBit(y)
  {
    XorBits(x, y);
    var p: bv32 := if x & 1 == 1 then POLYNOMIAL else 0;
    var q: bv32 := if y & 1 == 1 then POLYNOMIAL else 0;
    assert (if (x ^ y) & 1 == 1 then POLYNOMIAL else 0) == p ^ q;
    Regroup(x >> 1, y >> 1, p, q);
  }

  lemma IsShiftLinear(x: bv32, y: bv32, rx: bv32, ry: bv32, r: bv32)
    requires IsShift(x, rx) && IsShift(y, ry) && IsShift(x ^ y, r)
    ensures r == rx ^ ry
  {
    assert Unfold(IN_SHIFT);
    DivideBitLinear(x, y);
  }

  lemma ShiftOfXor(x: bv32, y: bv32)
    ensures Shift(x ^ y) == Shift(x) ^ Shift(y)
  {
    IsShiftLinear(x, y, Shift(x), Shift(y), Shift(x ^ y));
  }

  lemma XorIs(x: bv32, y: bv32)
    ensures Xor(x, y) == x ^ y
  {
    assert Unfold(IN_XOR);
  }

  lemma ShiftLinear(x: bv32, y: bv32)
    ensures Shift(Xor(x, y)) == Xor(Shift(x), Shift(y))
  {
    XorIs(x, y);
    ShiftOfXor(x, y);
    XorIs(Shift(x), Shift(y));
  }

  lemma ByteShiftLinear(x: bv32, y: bv32)
    ensures ByteShift(Xor(x, y)) == Xor(ByteShift(x), ByteShift(y))
  {
    assert Unfold(IN_BYTE_SHIFT);
    forall x, y ensures Shift(Xor(x, y)) == Xor(Shift(x), Shift(y)) {
      ShiftLinear(x, y);
    }
    TimesLinear(Shift, x, y, 8);
  }

  lemma ShiftEven(x: bv32)
    requires x & 1 == 0
    ensures Shift(x) == x >> 1
  {
    assert Unfold(IN_SHIFT);
  }

  lemma {:induction false} TimesAdd<T>(f: T -> T, x: T, m: nat, n: nat)
    ensures Times(f, Times(f, x, m), n) == Times(f, x, m + n)
  {
    if n > 0 {
      TimesAdd(f, x, m, n - 1);
    }
  }

  lemma TwoHalves(x: bv32)
    requires x & 3 == 0
    ensures Times(Shift, x, 2) == x >> 2
  {
    assert x & 1 == 0 && (x >> 1) & 1 == 0 && (x >> 1) >> 1 == x >> 2;
    ShiftEven(x);
    ShiftEven(x >> 1);
    assert Times(Shift, x, 1) == x >> 1;
  }

  lemma FourHalves(x: bv32)
    requires x & 0xf == 0
    ensures Times(Shift, x, 4) == x >> 4
  {
    assert x & 3 == 0 && (x >> 2) & 3 == 0 && (x >> 2) >> 2 == x >> 4;
    TwoHalves(x);
    TwoHalves(x >> 2);
    TimesAdd(Shift, x, 2, 2);
  }

  /** With the low byte clear, eight divisions only move the bits down. */
  lemma ByteShiftHigh(x: bv32)
    requires x & 0xff == 0
    ensures ByteShift(x) == x >> 8
  {
    assert x & 0xf == 0 && (x >> 4) & 0xf == 0 && (x >> 4) >> 4 == x >> 8;
    FourHalves(x);
    FourHalves(x >> 4);
    TimesAdd(Shift, x, 4, 4);
    assert Unfold(IN_BYTE_SHIFT);
  }

  // ----- four bytes at a time -----

  /** Divided by n bytes. */
  ghost function ByteShifts(x: bv32, n: nat): bv32 {
    Times(ByteShift, x, n)
  }

  lemma ByteShiftsLinear(x: bv32, y: bv32, n: nat)
    ensures ByteShifts(Xor(x, y), n) == Xor(ByteShifts(x, n), ByteShifts(y, n))
  {
    forall x, y ensures ByteShift(Xor(x, y)) == Xor(ByteShift(x), ByteShift(y)) {
      ByteShiftLinear(x, y);
    }
    TimesLinear(ByteShift, x, y, n);
  }

  lemma MoveDown(c: bv32)
    requires c <= 0xff
    ensures ByteShift(c << 8) == c && ByteShift(c << 16) == c << 8 && ByteShift(c << 24) == c << 16
  {
    assert (c << 8) & 0xff == 0 && (c << 16) & 0xff == 0 && (c << 24) & 0xff == 0;
    assert (c << 8) >> 8 == c && (c << 16) >> 8 == c << 8 && (c << 24) >> 8 == c << 16;
    ByteShiftHigh(c << 8);
    ByteShiftHigh(c << 16);
    ByteShiftHigh(c << 24);
  }

  lemma TimesBegins<T>(f: T -> T, x: T, n: nat)
    ensures Times(f, x, n + 1) == Times(f, f(x), n)
  {
    TimesAdd(f, x, 1, n);
    assert Times(f, x, 1) == f(x);
  }

  lemma SkipBytes(c: bv32)
    requires c <= 0xff
    ensures ByteShifts(c << 8, 4) == ByteShifts(c, 3)
    ensures ByteShifts(c << 16, 4) == ByteShifts(c, 2)
    ensures ByteShifts(c << 24, 4) == ByteShifts(c, 1)
  {
    MoveDown(c);
    TimesBegins(ByteShift, c << 8, 3);
    TimesBegins(ByteShift, c << 16, 3);
    TimesBegins(ByteShift, c << 8, 2);
    TimesBegins(ByteShift, c << 24, 3);
    TimesBegins(ByteShift, c << 16, 2);
    TimesBegins(ByteShift, c << 8, 1);
  }

  ghost function Word(c0: bv32, c1: bv32, c2: bv32, c3: bv32): bv32 {
    Xor(Xor(Xor(c0, c1 << 8), c2 << 16), c3 << 24)
  }

  /** Dividing a word by four bytes is dividing each of its bytes by as many bytes as follow it. */
  lemma WordShifts(c0: bv32, c1: bv32, c2: bv32, c3: bv32)
    requires c1 <= 0xff && c2 <= 0xff && c3 <= 0xff
    ensures ByteShifts(Word(c0, c1, c2, c3), 4) ==
            Xor(Xor(Xor(ByteShifts(c0, 4), ByteShifts(c1, 3)), ByteShifts(c2, 2)), ByteShifts(c3, 1))
  {
    ByteShiftsLinear(Xor(Xor(c0, c1 << 8), c2 << 16), c3 << 24, 4);
    ByteShiftsLinear(Xor(c0, c1 << 8), c2 << 16, 4);
    ByteShiftsLinear(c0, c1 << 8, 4);
    SkipBytes(c1);
    SkipBytes(c2);
    SkipBytes(c3);
  }

  /** Four single steps, byte by byte. */
  lemma FourSteps(l: bv32, b0: bv32, b1: bv32, b2: bv32, b3: bv32)
    ensures ByteShift(Xor(ByteShift(Xor(ByteShift(Xor(ByteShift(Xor(l, b0)), b1)), b2)), b3)) ==
            Xor(Xor(Xor(ByteShifts(Xor(l, b0), 4), ByteShifts(b1, 3)), ByteShifts(b2, 2)), ByteShifts(b3, 1))
  {
    var r0 := ByteShift(Xor(l, b0));
    var r1 := ByteShift(Xor(r0, b1));
    var r2 := ByteShift(Xor(r1, b2));
    TimesBegins(ByteShift, Xor(l, b0), 3);
    ByteShiftsLinear(r0, b1, 3);
    TimesBegins(ByteShift, Xor(r0, b1), 2);
    ByteShiftsLinear(r1, b2, 2);
    TimesBegins(ByteShift, Xor(r1, b2), 1);
    ByteShiftsLinear(r2, b3, 1);
  }

  // ----- the tables -----

  /** table0_ .. table3_: a word for each byte. */
  datatype Tables = Tables(t0: seq<bv32>, t1: seq<bv32>, t2: seq<bv32>, t3: seq<bv32>)

  function Low(x: bv32): Byte {
    (x & 0xff) as Byte
  }

  /** The word for byte number i: that byte divided n times by eight bits. */
  ghost function EntryFor(i: int, n: nat): bv32
    requires 0 <= i < 256
  {
    ByteShifts((i as Byte) as bv32, n)
  }

  ghost predicate IsTable(t: seq<bv32>, n: nat) {
    |t| == 256 && forall k {:trigger Unfold(k)} :: k == IN_CRC_TABLE && Unfold(k) ==> forall i :: 0 <= i < 256 ==>
        t[i] == EntryFor(i, n)
  }

  function TableAt(t: seq<bv32>, c: Byte): bv32
    requires |t| == 256
  {
    t[c as int]
  }

  ghost predicate AreTables(t: Tables) {
    IsTable(t.t0, 1) && IsTable(t.t1, 2) && IsTable(t.t2, 3) && IsTable(t.t3, 4)
  }

  /** DecodeFixed32. */
  function Load32(b0: Byte, b1: Byte, b2: Byte, b3: Byte): bv32 {
    (b0 as bv32) | (b1 as bv32 << 8) | (b2 as bv32 << 16) | (b3 as bv32 << 24)
  }

  lemma SplitLow(x: bv32)
    ensures (x & 0xff) ^ (x & 0xffff_ff00) == x && (x & 0xffff_ff00) & 0xff == 0 && (x & 0xffff_ff00) >> 8 == x >> 8
    ensures Low(x) as bv32 == x & 0xff
  {
  }

  lemma ShiftParts(x: bv32, low: bv32, high: bv32, moved: bv32)
    requires x == Xor(low, high) && ByteShift(high) == moved
    ensures ByteShift(x) == Xor(ByteShift(low), moved)
  {
    ByteShiftLinear(low, high);
  }

  lemma LowAndRest(x: bv32, low: bv32, high: bv32)
    requires low == x & 0xff && high == x & 0xffff_ff00
    ensures Xor(low, high) == x
  {
    XorIs(low, high);
  }

  lemma RestMoves(x: bv32, high: bv32, moved: bv32)
    requires high == x & 0xffff_ff00 && moved == x >> 8
    ensures ByteShift(high) == moved
  {
    SplitLow(x);
    ByteShiftHigh(high);
  }

  /** One byte through the table. */
  lemma TableShift(x: bv32, low: bv32, high: bv32, moved: bv32)
    requires low == x & 0xff && high == x & 0xffff_ff00 && moved == x >> 8
    ensures ByteShift(x) == Xor(ByteShift(low), moved)
  {
    LowAndRest(x, low, high);
    RestMoves(x, high, moved);
    ShiftParts(x, low, high, moved);
  }

  lemma StepBits(l: bv32, b: Byte)
    ensures (l ^ (b as bv32)) >> 8 == l >> 8 && Low(l ^ (b as bv32)) as bv32 == (l ^ (b as bv32)) & 0xff
  {
  }

  lemma ByteBack(c: Byte)
    ensures (c as int) as Byte == c
  {
  }

  lemma TableEntry(t: seq<bv32>, n: nat, c: Byte, x: bv32)
    requires IsTable(t, n) && x == c as bv32
    ensures TableAt(t, c) == ByteShifts(x, n)
  {
    EntryAt(t, n, c as int);
    EntryForByte(c, n);
  }

  lemma EntryAt(t: seq<bv32>, n: nat, i: nat)
    requires IsTable(t, n) && i < 256
    ensures t[i] == EntryFor(i, n)
  {
    assert Unfold(IN_CRC_TABLE);
  }

  lemma EntryForByte(c: Byte, n: nat)
    ensures EntryFor(c as int, n) == ByteShifts(c as bv32, n)
  {
    ByteBack(c);
    EntryForSame(c as int, c, n);
  }

  lemma EntryForSame(i: nat, c: Byte, n: nat)
    requires i < 256 && i as Byte == c
    ensures EntryFor(i, n) == ByteShifts(c as bv32, n)
  {
  }

  // STEP1, from the bits outwards

  lemma Step1Shifts(t0: seq<bv32>, x: bv32, c: Byte, low: bv32, moved: bv32)
    requires IsTable(t0, 1) && low == c as bv32 && low == x & 0xff && moved == x >> 8
    ensures Xor(TableAt(t0, c), moved) == ByteShift(x)
  {
    TableEntry(t0, 1, c, low);
    TimesBegins(ByteShift, low, 0);
    TableShift(x, low, x & 0xffff_ff00, moved);
  }

  lemma Step1Bits(l: bv32, b: Byte, x: bv32, c: Byte, low: bv32, moved: bv32)
    requires x == l ^ (b as bv32) && c == Low(x) && low == c as bv32 && moved == l >> 8
    ensures x == Xor(l, b as bv32) && low == x & 0xff && moved == x >> 8
  {
    XorIs(l, b as bv32);
    StepBits(l, b);
  }

  lemma Step1Words(t0: seq<bv32>, l: bv32, b: Byte, x: bv32, c: Byte, low: bv32, moved: bv32, r: bv32)
    requires x == l ^ (b as bv32) && c == Low(x) && low == c as bv32 && moved == l >> 8
    requires IsTable(t0, 1) && r == Xor(TableAt(t0, c), moved)
    ensures r == ByteStep(l, b)
  {
    Step1Bits(l, b, x, c, low, moved);
    Step1Shifts(t0, x, c, low, moved);
  }

  lemma Step1Right(t0: seq<bv32>, l: bv32, b: Byte, x: bv32, c: Byte, moved: bv32, y: bv32, r: bv32)
    requires x == l ^ (b as bv32) && c == Low(x) && moved == l >> 8
    requires IsTable(t0, 1) && y == TableAt(t0, c) && r == y ^ moved
    ensures r == ByteStep(l, b)
  {
    XorIs(y, moved);
    Step1Words(t0, l, b, x, c, c as bv32, moved, r);
  }

  /** STEP1. */
  method Step1(t0: seq<bv32>, l: bv32, b: Byte) returns (r: bv32)
    requires IsTable(t0, 1)
    ensures r == ByteStep(l, b)
  {
    var x := l ^ (b as bv32);
    var c := Low(x);
    var y := TableAt(t0, c);
    r := y ^ (l >> 8);
    Step1Right(t0, l, b, x, c, l >> 8, y, r);
  }

  // STEP4

  lemma XorsAre(a: bv32, b: bv32, c: bv32, d: bv32, ab: bv32, abc: bv32, abcd: bv32)
    requires ab == a ^ b && abc == ab ^ c && abcd == abc ^ d
    ensures Xor(Xor(Xor(a, b), c), d) == abcd
  {
    XorIs(a, b);
    XorIs(ab, c);
    XorIs(abc, d);
  }

  lemma WordIs(a: bv32, c1: bv32, c2: bv32, c3: bv32, b: bv32, c: bv32, d: bv32, w: bv32)
    requires b == c1 << 8 && c == c2 << 16 && d == c3 << 24 && w == ((a ^ b) ^ c) ^ d
    ensures Word(a, c1, c2, c3) == w
  {
    XorsAre(a, b, c, d, a ^ b, (a ^ b) ^ c, w);
  }

  lemma BytesOfWord(c: bv32, c0: bv32, c1: bv32, c2: bv32, c3: bv32)
    requires c0 == c & 0xff && c1 == (c >> 8) & 0xff && c2 == (c >> 16) & 0xff && c3 == (c >> 24) & 0xff
    ensures ((c0 ^ (c1 << 8)) ^ (c2 << 16)) ^ (c3 << 24) == c && c1 <= 0xff && c2 <= 0xff && c3 <= 0xff
  {
  }

  lemma WordOfBytes(c: bv32, c0: bv32, c1: bv32, c2: bv32, c3: bv32)
    requires c0 == c & 0xff && c1 == (c >> 8) & 0xff && c2 == (c >> 16) & 0xff && c3 == (c >> 24) & 0xff
    ensures Word(c0, c1, c2, c3) == c && c1 <= 0xff && c2 <= 0xff && c3 <= 0xff
  {
    BytesOfWord(c, c0, c1, c2, c3);
    WordIs(c0, c1, c2, c3, c1 << 8, c2 << 16, c3 << 24, c);
  }

  lemma LoadedWord(l: bv32, b0: bv32, b1: bv32, b2: bv32, b3: bv32)
    requires b0 <= 0xff && b1 <= 0xff && b2 <= 0xff && b3 <= 0xff
    ensures (((l ^ b0) ^ (b1 << 8)) ^ (b2 << 16)) ^ (b3 << 24) == l ^ (b0 | (b1 << 8) | (b2 << 16) | (b3 << 24))
  {
  }

  lemma WordOfLoad(l: bv32, b0: bv32, b1: bv32, b2: bv32, b3: bv32, c: bv32)
    requires b0 <= 0xff && b1 <= 0xff && b2 <= 0xff && b3 <= 0xff
    requires c == l ^ (b0 | (b1 << 8) | (b2 << 16) | (b3 << 24))
    ensures Word(Xor(l, b0), b1, b2, b3) == c
  {
    LoadedWord(l, b0, b1, b2, b3);
    XorIs(l, b0);
    WordIs(l ^ b0, b1, b2, b3, b1 << 8, b2 << 16, b3 << 24, c);
  }

  lemma Step4Words(l: bv32, b0: bv32, b1: bv32, b2: bv32, b3: bv32, c: bv32, c0: bv32, c1: bv32, c2: bv32, c3: bv32,
      r: bv32)
    requires b0 <= 0xff && b1 <= 0xff && b2 <= 0xff && b3 <= 0xff
    requires c == l ^ (b0 | (b1 << 8) | (b2 << 16) | (b3 << 24))
    requires c0 == c & 0xff && c1 == (c >> 8) & 0xff && c2 == (c >> 16) & 0xff && c3 == (c >> 24) & 0xff
    requires r == Xor(Xor(Xor(ByteShifts(c0, 4), ByteShifts(c1, 3)), ByteShifts(c2, 2)), ByteShifts(c3, 1))
    ensures r == ByteShift(Xor(ByteShift(Xor(ByteShift(Xor(ByteShift(Xor(l, b0)), b1)), b2)), b3))
  {
    WordOfBytes(c, c0, c1, c2, c3);
    WordShifts(c0, c1, c2, c3);
    WordOfLoad(l, b0, b1, b2, b3, c);
    WordShifts(Xor(l, b0), b1, b2, b3);
    FourSteps(l, b0, b1, b2, b3);
  }

  lemma ByteSmall(b: Byte)
    ensures b as bv32 <= 0xff
  {
  }

  lemma Step4Right(l: bv32, b0: Byte, b1: Byte, b2: Byte, b3: Byte, c: bv32, c0: bv32, c1: bv32, c2: bv32, c3: bv32,
      r: bv32)
    requires c == l ^ Load32(b0, b1, b2, b3)
    requires c0 == c & 0xff && c1 == (c >> 8) & 0xff && c2 == (c >> 16) & 0xff && c3 == (c >> 24) & 0xff
    requires r == Xor(Xor(Xor(ByteShifts(c0, 4), ByteShifts(c1, 3)), ByteShifts(c2, 2)), ByteShifts(c3, 1))
    ensures r == ByteStep(ByteStep(ByteStep(ByteStep(l, b0), b1), b2), b3)
  {
    ByteSmall(b0);
    ByteSmall(b1);
    ByteSmall(b2);
    ByteSmall(b3);
    Step4Words(l, b0 as bv32, b1 as bv32, b2 as bv32, b3 as bv32, c, c0, c1, c2, c3, r);
  }

  /** One of the four lookups. */
  method Lookup(t: seq<bv32>, ghost n: nat, c: Byte, ghost low: bv32) returns (y: bv32)
    requires IsTable(t, n) && low == c as bv32
    ensures y == ByteShifts(low, n)
  {
    TableEntry(t, n, c, low);
    y := TableAt(t, c);
  }

  method Combine(y3: bv32, y2: bv32, y1: bv32, y0: bv32) returns (r: bv32)
    ensures r == Xor(Xor(Xor(y3, y2), y1), y0)
  {
    r := ((y3 ^ y2) ^ y1) ^ y0;
    XorsAre(y3, y2, y1, y0, y3 ^ y2, (y3 ^ y2) ^ y1, r);
  }

  method FourLookups(t: Tables, k0: Byte, k1: Byte, k2: Byte, k3: Byte,
                     ghost c0: bv32, ghost c1: bv32, ghost c2: bv32, ghost c3: bv32) returns (r: bv32)
    requires AreTables(t)
    requires c0 == k0 as bv32 && c1 == k1 as bv32 && c2 == k2 as bv32 && c3 == k3 as bv32
    ensures r == Xor(Xor(Xor(ByteShifts(c0, 4), ByteShifts(c1, 3)), ByteShifts(c2, 2)), ByteShifts(c3, 1))
  {
    var y3 := Lookup(t.t3, 4, k0, c0);
    var y2 := Lookup(t.t2, 3, k1, c1);
    var y1 := Lookup(t.t1, 2, k2, c2);
    var y0 := Lookup(t.t0, 1, k3, c3);
    r := Combine(y3, y2, y1, y0);
  }

  /** STEP4. */
  method Step4(t: Tables, l: bv32, b0: Byte, b1: Byte, b2: Byte, b3: Byte) returns (r: bv32)
    requires AreTables(t)
    ensures r == ByteStep(ByteStep(ByteStep(ByteStep(l, b0), b1), b2), b3)
  {
    var c := l ^ Load32(b0, b1, b2, b3);
    var k0, k1, k2, k3 := Low(c), Low(c >> 8), Low(c >> 16), Low(c >> 24);
    r := FourLookups(t, k0, k1, k2, k3, k0 as bv32, k1 as bv32, k2 as bv32, k3 as bv32);
    Step4Right(l, b0, b1, b2, b3, c, k0 as bv32, k1 as bv32, k2 as bv32, k3 as bv32, r);
  }

  // ----- Extend -----

  lemma OneMore(l: bv32, data: seq<Byte>, p: nat)
    requires p < |data|
    ensures Register(l, data[p..]) == Register(ByteStep(l, data[p]), data[p + 1..])
  {
    assert data[p..][1..] == data[p + 1..];
  }

  lemma FourMore(l: bv32, data: seq<Byte>, p: nat)
    requires p + 4 <= |data|
    ensures Register(l, data[p..]) ==
            Register(ByteStep(ByteStep(ByteStep(ByteStep(l, data[p]), data[p + 1]), data[p + 2]), data[p + 3]),
                data[p + 4..])
  {
    var l1 := ByteStep(l, data[p]);
    var l2 := ByteStep(l1, data[p + 1]);
    OneMore(l, data, p);
    OneMore(l1, data, p + 1);
    OneMore(l2, data, p + 2);
    OneMore(ByteStep(l2, data[p + 2]), data, p + 3);
  }

  method FourBytes(t: Tables, l: bv32, data: seq<Byte>, p: nat) returns (r: bv32)
    requires AreTables(t) && p + 4 <= |data|
    ensures Register(l, data[p..]) == Register(r, data[p + 4..])
  {
    FourMore(l, data, p);
    r := Step4(t, l, data[p], data[p + 1], data[p + 2], data[p + 3]);
  }

  method SixteenBytes(t: Tables, l: bv32, data: seq<Byte>, p: nat) returns (r: bv32)
    requires AreTables(t) && p + 16 <= |data|
    ensures Register(l, data[p..]) == Register(r, data[p + 16..])
  {
    r := FourBytes(t, l, data, p);
    r := FourBytes(t, r, data, p + 4);
    r := FourBytes(t, r, data, p + 8);
    r := FourBytes(t, r, data, p + 12);
  }

  /** The loops that go byte by byte. */
  method SingleBytes(t0: seq<bv32>, l0: bv32, data: seq<Byte>, p0: nat, end: nat) returns (l: bv32)
    requires IsTable(t0, 1) && p0 <= end <= |data|
    ensures Register(l, data[end..]) == Register(l0, data[p0..])
  {
    l := l0;
    var p := p0;
    while p != end
      invariant p <= end && Register(l, data[p..]) == Register(l0, data[p0..])
      decreases end - p
    {
      OneMore(l, data, p);
      l := Step1(t0, l, data[p]);
      p := p + 1;
    }
  }

  /** The bytes of data lie at address and on.  Whatever the alignment, the result is the bit-by-bit checksum. */
  method Extend(t: Tables, crc: bv32, data: seq<Byte>, address: nat) returns (r: bv32)
    requires AreTables(t)
    ensures r == Extended(crc, data)
  {
    var p, e := 0, |data|;
    var l := Flip(crc);
    ghost var result := Register(l, data);
    var x := (address + 3) / 4 * 4 - address;
    assert data[0..] == data;
    if x <= e {
      l := SingleBytes(t.t0, l, data, p, x);
      p := x;
    }
    while e - p >= 16
      invariant p <= e && Register(l, data[p..]) == result
    {
      l := SixteenBytes(t, l, data, p);
      p := p + 16;
    }
    while e - p >= 4
      invariant p <= e && Register(l, data[p..]) == result
    {
      l := FourBytes(t, l, data, p);
      p := p + 4;
    }
    l := SingleBytes(t.t0, l, data, p, e);
    r := Flip(l);
  }

  // ----- the hypothesis on the tables, and the masked form -----

  lemma EightDivisions(x: bv32)
    ensures ByteShift(x) == DivideBit(DivideBit(DivideBit(DivideBit(DivideBit(DivideBit(DivideBit(DivideBit(x))))))))
  {
    assert Unfold(IN_BYTE_SHIFT) && Unfold(IN_SHIFT);
    var y := Times(Shift, x, 4);
    TimesAdd(Shift, x, 4, 4);
  }

  method DivideByte(x: bv32) returns (r: bv32)
    ensures r == ByteShift(x)
  {
    r := DivideBit(DivideBit(DivideBit(DivideBit(DivideBit(DivideBit(DivideBit(DivideBit(x))))))));
    EightDivisions(x);
  }

  lemma ShiftedOnceMore(x: bv32, n: nat)
    ensures ByteShifts(x, n + 1) == ByteShift(ByteShifts(x, n))
  {
  }

  method DivideBytes(x: bv32, n: nat) returns (r: bv32)
    ensures r == ByteShifts(x, n)
  {
    r := x;
    for i := 0 to n
      invariant r == ByteShifts(x, i)
    {
      ShiftedOnceMore(x, i);
      r := DivideByte(r);
    }
  }

  /** A table by the recurrence: every byte divided n times by eight bits. */
  method BuildTable(n: nat) returns (t: seq<bv32>)
    ensures IsTable(t, n)
  {
    t := [];
    for k := 0 to 256
      invariant |t| == k && forall i :: 0 <= i < k ==> t[i] == EntryFor(i, n)
    {
      var b := k as Byte;
      var r := DivideBytes(b as bv32, n);
      t := t + [r];
    }
  }

  /** The tables of the program. */
  method BuildTables() returns (t: Tables)
    ensures AreTables(t)
  {
    var t0 := BuildTable(1);
    var t1 := BuildTable(2);
    var t2 := BuildTable(3);
    var t3 := BuildTable(4);
    t := Tables(t0, t1, t2, t3);
  }

  /** Tables built by the recurrence start with the words the program has there. */
  lemma TableSamples(t: Tables)
    requires AreTables(t)
    ensures TableAt(t.t0, 1) == 0xf26b8303 && TableAt(t.t1, 1) == 0x13a29877 && TableAt(t.t2, 1) == 0xa541927e
        && TableAt(t.t3, 1) == 0xdd45aab8
  {
    TableEntry(t.t0, 1, 1, 1);
    TableEntry(t.t1, 2, 1, 1);
    TableEntry(t.t2, 3, 1, 1);
    TableEntry(t.t3, 4, 1, 1);
    EightDivisions(1);
    EightDivisions(0xf26b8303);
    EightDivisions(0x13a29877);
    EightDivisions(0xa541927e);
  }

  const MASK_DELTA: bv32 := 0xa282_ead8

  function Mask(crc: bv32): bv32 {
    ((crc >> 15) | (crc << 17)) + MASK_DELTA
  }

  function Unmask(masked: bv32): bv32 {
    var rot := masked - MASK_DELTA;
    (rot >> 17) | (rot << 15)
  }

  lemma UnmaskUndoesMask(crc: bv32)
    ensures Unmask(Mask(crc)) == crc && Mask(Unmask(crc)) == crc
  {
  }
}
