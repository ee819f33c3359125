/** Variable-length and fixed-width integers as bytes (util/coding.cc, util/coding.h). */
module Varints {
  import opened Wrappers
  import opened Coding

  type Bytes = seq<Octet>

  const LIMIT32: nat := 0x1_0000_0000

  const LIMIT64: nat := 0x1_0000_0000_0000_0000

  /** Seven bits a byte, low bits first; the top bit says that more follow. */
  function Varint(v: nat): (r: Bytes)
    ensures |r| >= 1
    decreases v
  {
    if v < 128 then [v] else [v % 128 + 128] + Varint(v / 128)
  }

  lemma VarintLength(v: nat)
    requires v < LIMIT32
    ensures |Varint(v)| <= 5
  {
    Unroll(v);
    Unroll(v / 128);
    Unroll(v / 128 / 128);
    Unroll(v / 128 / 128 / 128);
    assert v / 128 < 0x200_0000 && v / 128 / 128 < 0x4_0000 && v / 128 / 128 / 128 < 0x800;
    assert v / 128 / 128 / 128 / 128 < 16;
    assert |Varint(v / 128 / 128 / 128 / 128)| == 1;
  }

  lemma VarintLength64(v: nat)
    requires v < LIMIT64
    ensures |Varint(v)| <= 10
  {
    var a := v / 128 / 128 / 128 / 128 / 128;
    Unroll(v);
    Unroll(v / 128);
    Unroll(v / 128 / 128);
    Unroll(v / 128 / 128 / 128);
    Unroll(v / 128 / 128 / 128 / 128);
    assert a < 0x2000_0000;
    VarintLength(a);
  }

  /** EncodeVarint32, case by case. */
  method EncodeVarint32(v: nat) returns (r: Bytes)
    requires v < LIMIT32
    ensures r == Varint(v)
  {
    if v < 0x80 {
      r := [v];
    } else if v < 0x4000 {
      r := [v % 128 + 128, v / 0x80];
    } else if v < 0x20_0000 {
      r := [v % 128 + 128, v / 0x80 % 128 + 128, v / 0x4000];
    } else if v < 0x1000_0000 {
      r := [v % 128 + 128, v / 0x80 % 128 + 128, v / 0x4000 % 128 + 128, v / 0x20_0000];
    } else {
      r := [v % 128 + 128, v / 0x80 % 128 + 128, v / 0x4000 % 128 + 128, v / 0x20_0000 % 128 + 128, v / 0x1000_0000];
    }
    ShiftsAre(v);
    Unroll(v);
    Unroll(v / 128);
    Unroll(v / 128 / 128);
    Unroll(v / 128 / 128 / 128);
  }

  lemma ShiftsAre(v: nat)
    ensures v / 128 / 128 == v / 0x4000 && v / 128 / 128 / 128 == v / 0x20_0000
        && v / 128 / 128 / 128 / 128 == v / 0x1000_0000
  {
  }

  lemma Unroll(v: nat)
    ensures v >= 128 ==> Varint(v) == [v % 128 + 128] + Varint(v / 128)
  {
  }

  method EncodeVarint64(v: nat) returns (r: Bytes)
    requires v < LIMIT64
    ensures r == Varint(v)
  {
    r := [];
    var rest := v;
    while rest >= 128
      invariant r + Varint(rest) == Varint(v)
    {
      assert r + Varint(rest) == (r + [rest % 128 + 128]) + Varint(rest / 128);
      r := r + [rest % 128 + 128];
      rest := rest / 128;
    }
    r := r + [rest];
  }

  /** The bytes code lie in data at p. */
  ghost predicate At(data: Bytes, p: nat, code: Bytes) {
    p + |code| <= |data| && data[p..p + |code|] == code
  }

  lemma AtSplits(data: Bytes, p: nat, a: Bytes, b: Bytes)
    ensures At(data, p, a + b) <==> At(data, p, a) && At(data, p + |a|, b)
  {
    if At(data, p, a + b) {
      assert data[p..p + |a|] == (a + b)[..|a|] && data[p + |a|..p + |a| + |b|] == (a + b)[|a|..];
    }
    if At(data, p, a) && At(data, p + |a|, b) {
      assert data[p..p + |a + b|] == data[p..p + |a|] + data[p + |a|..p + |a| + |b|];
    }
  }

  /** A number, and where the bytes after it begin. */
  datatype Numeral = Numeral(value: nat, next: nat)

  /** The number in the groups of seven bits from p on; the last group is the first without the top bit. */
  function Groups(data: Bytes, p: nat, end: nat): (r: Option<Numeral>)
    requires end <= |data|
    ensures r.Some? ==> p < r.value.next <= end
    decreases end - p
  {
    if p >= end then None else
    if data[p] < 128 then Some(Numeral(data[p], p + 1)) else
    var rest := Groups(data, p + 1, end);
    if rest.None? then None else Some(Numeral(data[p] % 128 + 128 * rest.value.value, rest.value.next))
  }

  /** A 32-bit number is looked for in five bytes. */
  function Window(p: nat, limit: nat): nat {
    if limit <= p + 5 then limit else p + 5
  }

  /** r is the number at p: the low 32 bits of its groups. */
  ghost predicate IsNumber32(data: Bytes, p: nat, limit: nat, r: Option<Numeral>)
    requires limit <= |data|
  {
    forall k {:trigger Unfold(k)} :: k == IN_NUMBER && Unfold(k) ==>
      var g := Groups(data, p, Window(p, limit));
      r == if g.None? then None else Some(Numeral(g.value.value % LIMIT32, g.value.next))
  }

  ghost function Number32(data: Bytes, p: nat, limit: nat): (r: Option<Numeral>)
    requires limit <= |data|
    ensures IsNumber32(data, p, limit, r)
    ensures r.Some? ==> p < r.value.next <= limit && r.value.value < LIMIT32
  {
    var g := Groups(data, p, Window(p, limit));
    assert IsNumber32(data, p, limit, if g.None? then None else Some(Numeral(g.value.value % LIMIT32, g.value.next)));
    assert Unfold(IN_NUMBER);
    var r :| IsNumber32(data, p, limit, r);
    r
  }

  /** The code of v is read as v. */
  lemma {:induction false} GroupsOfCode(data: Bytes, p: nat, end: nat, v: nat)
    requires At(data, p, Varint(v)) && p + |Varint(v)| <= end <= |data|
    ensures Groups(data, p, end) == Some(Numeral(v, p + |Varint(v)|))
    decreases v
  {
    FirstByte(data, p, v);
    if v >= 128 {
      GroupsOfCode(data, p + 1, end, v / 128);
    }
  }

  lemma NumberOfCode(data: Bytes, p: nat, limit: nat, v: nat)
    requires v < LIMIT32 && At(data, p, Varint(v)) && p + |Varint(v)| <= limit <= |data|
    ensures Number32(data, p, limit) == Some(Numeral(v, p + |Varint(v)|))
  {
    assert Unfold(IN_NUMBER);
    VarintLength(v);
    GroupsOfCode(data, p, Window(p, limit), v);
  }

  /** The weight of the i-th group of a 32-bit number. */
  predicate Weight(i: nat, w: nat) {
    (i == 0 && w == 1) || (i == 1 && w == 0x80) || (i == 2 && w == 0x4000) || (i == 3 && w == 0x20_0000)
    || (i == 4 && w == 0x1000_0000)
  }

  /** Only the fifth group reaches beyond 32 bits, and what does is lost. */
  lemma PartFits(i: nat, w: nat, value: nat, digit: nat)
    requires Weight(i, w) && value < w && digit < 128
    ensures value + digit * w % LIMIT32 == (value + digit * w) % LIMIT32
    ensures i < 4 ==> digit * w % LIMIT32 == digit * w && value + digit * w < w * 128 && Weight(i + 1, w * 128)
  {
  }

  lemma CarryOn(value: nat, digit: nat, w: nat, rest: nat)
    ensures value + w * (digit + 128 * rest) == value + digit * w + (w * 128) * rest
  {
  }

  /** g is the number of which value, the groups below weight w, has been read, and h is still to come. */
  predicate HalfRead(g: Option<Numeral>, h: Option<Numeral>, w: nat, value: nat) {
    (g.Some? <==> h.Some?) && (g.Some? ==> g.value.next == h.value.next && g.value.value == value + w * h.value.value)
  }

  lemma LastGroup(data: Bytes, at: nat, end: nat, g: Option<Numeral>, i: nat, w: nat, value: nat)
    requires at < end <= |data| && Weight(i, w) && value < w && HalfRead(g, Groups(data, at, end), w, value)
    requires data[at] < 128
    ensures g.Some? && g.value.next == at + 1 && value + data[at] * w % LIMIT32 == g.value.value % LIMIT32
  {
    PartFits(i, w, value, data[at]);
  }

  lemma OneMoreGroup(data: Bytes, at: nat, end: nat, g: Option<Numeral>, w: nat, value: nat)
    requires at < end <= |data| && HalfRead(g, Groups(data, at, end), w, value) && data[at] >= 128
    ensures HalfRead(g, Groups(data, at + 1, end), w * 128, value + data[at] % 128 * w)
  {
    var h := Groups(data, at + 1, end);
    if h.Some? {
      CarryOn(value, data[at] % 128, w, h.value.value);
    }
  }

  /** GetVarint32Ptr: the number at p, on any bytes, and the position after it. */
  method GetVarint32(data: Bytes, p: nat, limit: nat) returns (value: nat, q: Option<nat>)
    requires p <= limit <= |data|
    ensures q.Some? ==> p < q.value <= limit && value < LIMIT32
    ensures Number32(data, p, limit) == if q.Some? then Some(Numeral(value, q.value)) else None
  {
    assert Unfold(IN_NUMBER);
    ghost var end := Window(p, limit);
    ghost var g := Groups(data, p, end);
    value := 0;
    var i, w, at := 0, 1, p;
    while i < 5 && at < limit
      invariant i <= 5 && at == p + i <= end && 0 <= w
      invariant if i < 5 then Weight(i, w) && value < w && HalfRead(g, Groups(data, at, end), w, value) else g.None?
    {
      var byte := data[at];
      PartFits(i, w, value, byte % 128);
      if byte < 128 {
        LastGroup(data, at, end, g, i, w, value);
        return value + byte * w % LIMIT32, Some(at + 1);
      }
      OneMoreGroup(data, at, end, g, w, value);
      value := value + byte % 128 * w % LIMIT32;
      i, w, at := i + 1, w * 128, at + 1;
    }
    return value, None;
  }

  lemma FirstByte(data: Bytes, at: nat, rest: nat)
    requires At(data, at, Varint(rest))
    ensures data[at] % 128 == rest % 128 && (data[at] < 128 <==> rest < 128)
    ensures rest < 128 ==> |Varint(rest)| == 1
    ensures rest >= 128 ==> At(data, at + 1, Varint(rest / 128)) && |Varint(rest)| == 1 + |Varint(rest / 128)|
  {
    assert data[at] == Varint(rest)[0];
    if rest >= 128 {
      AtSplits(data, at, [rest % 128 + 128], Varint(rest / 128));
    }
  }

  // ----- fixed width -----

  function Fixed(x: nat): Bytes {
    [x % 256, x / 256 % 256, x / 0x1_0000 % 256, x / 0x100_0000 % 256]
  }

  function Unfixed(b0: Octet, b1: Octet, b2: Octet, b3: Octet): nat {
    b0 + b1 * 256 + b2 * 0x1_0000 + b3 * 0x100_0000
  }

  lemma DividedTwice(x: nat)
    ensures x / 256 / 256 == x / 0x1_0000
  {
  }

  lemma DividedThrice(x: nat)
    ensures x / 0x1_0000 / 256 == x / 0x100_0000
  {
  }

  lemma Digits(x: nat, a: nat, b: nat, c: nat)
    requires x < LIMIT32 && a == x / 256 && b == a / 256 && c == b / 256
    ensures x == x % 256 + a % 256 * 256 + b % 256 * 0x1_0000 + c * 0x100_0000 && c < 256
  {
  }

  lemma FixedRoundTrip(x: nat)
    requires x < LIMIT32
    ensures Unfixed(Fixed(x)[0], Fixed(x)[1], Fixed(x)[2], Fixed(x)[3]) == x
  {
    DividedTwice(x);
    DividedThrice(x);
    Digits(x, x / 256, x / 0x1_0000, x / 0x100_0000);
  }

  lemma WordBack(x: nat, w: Bytes)
    requires x < LIMIT32 && w == Fixed(x)
    ensures Unfixed(w[0], w[1], w[2], w[3]) == x
  {
    FixedRoundTrip(x);
  }

  function Fixed64(x: nat): (r: Bytes)
    ensures |r| == 8
  {
    Fixed(x % LIMIT32) + Fixed(x / LIMIT32)
  }

  lemma DoubleBack(x: nat, w: Bytes)
    requires x < LIMIT64 && w == Fixed64(x)
    ensures Unfixed(w[0], w[1], w[2], w[3]) + Unfixed(w[4], w[5], w[6], w[7]) * LIMIT32 == x
  {
    WordBack(x % LIMIT32, w[..4]);
    WordBack(x / LIMIT32, w[4..]);
  }

  // ----- reading from the front of a slice -----

  /** A 64-bit number is looked for in ten bytes. */
  function Window64(p: nat, limit: nat): nat {
    if limit <= p + 10 then limit else p + 10
  }

  /** r is the number at p: the low 64 bits of its groups. */
  ghost predicate IsNumber64(data: Bytes, p: nat, limit: nat, r: Option<Numeral>)
    requires limit <= |data|
  {
    forall k {:trigger Unfold(k)} :: k == IN_NUMBER && Unfold(k) ==>
      var g := Groups(data, p, Window64(p, limit));
      r == if g.None? then None else Some(Numeral(g.value.value % LIMIT64, g.value.next))
  }

  /** The code of v comes next. */
  ghost predicate NumberAt(data: Bytes, p: nat, limit: nat, v: nat) {
    v < LIMIT64 && At(data, p, Varint(v)) && p + |Varint(v)| <= limit <= |data|
  }

  lemma NumberOfCode64(data: Bytes, p: nat, limit: nat, v: nat, r: Option<Numeral>)
    requires NumberAt(data, p, limit, v) && IsNumber64(data, p, limit, r)
    ensures r == Some(Numeral(v, p + |Varint(v)|))
  {
    assert Unfold(IN_NUMBER);
    VarintLength64(v);
    GroupsOfCode(data, p, Window64(p, limit), v);
  }

  /** The weight of the i-th group of a 64-bit number. */
  predicate Weight64(i: nat, w: nat) {
    || (i < 5 && Weight(i, w))
    || (i == 5 && w == 0x8_0000_0000) || (i == 6 && w == 0x400_0000_0000) || (i == 7 && w == 0x2_0000_0000_0000)
    || (i == 8 && w == 0x100_0000_0000_0000) || (i == 9 && w == 0x8000_0000_0000_0000)
  }

  /** Only the tenth group reaches beyond 64 bits, and what does is lost. */
  lemma PartFits64(i: nat, w: nat, value: nat, digit: nat)
    requires Weight64(i, w) && value < w && digit < 128
    ensures value + digit * w % LIMIT64 == (value + digit * w) % LIMIT64
    ensures i < 9 ==> digit * w % LIMIT64 == digit * w && value + digit * w < w * 128 && Weight64(i + 1, w * 128)
  {
    if i < 9 {
      assert digit * w <= 127 * w && w <= 0x100_0000_0000_0000;
    }
  }

  lemma LastGroup64(data: Bytes, at: nat, end: nat, g: Option<Numeral>, i: nat, w: nat, value: nat)
    requires at < end <= |data| && Weight64(i, w) && value < w && HalfRead(g, Groups(data, at, end), w, value)
    requires data[at] < 128
    ensures g.Some? && g.value.next == at + 1 && value + data[at] * w % LIMIT64 == g.value.value % LIMIT64
  {
    PartFits64(i, w, value, data[at]);
  }

  /** The number of g is value and one more byte. */
  lemma Number64Ends(data: Bytes, p: nat, limit: nat, at: nat, i: nat, w: nat, value: nat)
    requires p <= at < Window64(p, limit) && limit <= |data| && Weight64(i, w) && value < w && data[at] < 128
    requires HalfRead(Groups(data, p, Window64(p, limit)), Groups(data, at, Window64(p, limit)), w, value)
    ensures value + data[at] % 128 * w % LIMIT64 < LIMIT64
    ensures IsNumber64(data, p, limit, Some(Numeral(value + data[at] % 128 * w % LIMIT64, at + 1)))
  {
    LastGroup64(data, at, Window64(p, limit), Groups(data, p, Window64(p, limit)), i, w, value);
  }

  /** GetVarint64Ptr: the number at p, on any bytes, and the position after it. */
  method GetVarint64Ptr(data: Bytes, p: nat, limit: nat) returns (value: nat, q: Option<nat>)
    requires p <= limit <= |data|
    ensures q.Some? ==> p < q.value <= limit && value < LIMIT64
    ensures IsNumber64(data, p, limit, if q.Some? then Some(Numeral(value, q.value)) else None)
  {
    ghost var end := Window64(p, limit);
    ghost var g := Groups(data, p, end);
    value := 0;
    var i, w, at := 0, 1, p;
    while i < 10 && at < limit
      invariant i <= 10 && at == p + i <= end && 0 <= w
      invariant if i < 10 then Weight64(i, w) && value < w && HalfRead(g, Groups(data, at, end), w, value) else g.None?
    {
      var byte := data[at];
      PartFits64(i, w, value, byte % 128);
      if byte < 128 {
        Number64Ends(data, p, limit, at, i, w, value);
        return value + byte % 128 * w % LIMIT64, Some(at + 1);
      }
      OneMoreGroup(data, at, end, g, w, value);
      value := value + byte % 128 * w % LIMIT64;
      i, w, at := i + 1, w * 128, at + 1;
    }
    return value, None;
  }

  /** The 64-bit number v comes at p, and q is the place after it. */
  ghost predicate VarintAt(data: Bytes, p: nat, v: nat, q: nat) {
    IsNumber64(data, p, |data|, Some(Numeral(v, q)))
  }

  lemma OneNumberAt(data: Bytes, p: nat, r: Option<Numeral>)
    requires IsNumber64(data, p, |data|, r)
    ensures forall v, q :: VarintAt(data, p, v, q) <==> r == Some(Numeral(v, q))
  {
    assert Unfold(IN_NUMBER);
  }

  lemma VarintOfCode(data: Bytes, p: nat, v: nat)
    requires v < LIMIT64 && At(data, p, Varint(v))
    ensures VarintAt(data, p, v, p + |Varint(v)|)
    ensures forall x, q :: VarintAt(data, p, x, q) ==> x == v && q == p + |Varint(v)|
  {
    VarintLength64(v);
    GroupsOfCode(data, p, Window64(p, |data|), v);
    OneNumberAt(data, p, Some(Numeral(v, p + |Varint(v)|)));
  }

  /** GetVarint64 */
  method GetVarint64(data: Bytes, p: nat) returns (value: nat, q: Option<nat>)
    requires p <= |data|
    ensures q.Some? ==> p < q.value <= |data| && value < LIMIT64 && VarintAt(data, p, value, q.value)
    ensures q.None? ==> forall v, e :: !VarintAt(data, p, v, e)
  {
    value, q := GetVarint64Ptr(data, p, |data|);
    OneNumberAt(data, p, if q.Some? then Some(Numeral(value, q.value)) else None);
  }

  /** PutLengthPrefixedSlice */
  function Prefixed(s: Bytes): (r: Bytes)
    ensures |r| > |s|
  {
    Varint(|s|) + s
  }

  /** A length-prefixed string s comes at p, and q is the place after it. */
  ghost predicate SliceAt(data: Bytes, p: nat, s: Bytes, q: nat) {
    var n := Number32(data, p, |data|);
    n.Some? && q == n.value.next + n.value.value <= |data| && s == data[n.value.next..q]
  }

  lemma SliceOfCode(data: Bytes, p: nat, s: Bytes)
    requires |s| < LIMIT32 && At(data, p, Prefixed(s))
    ensures SliceAt(data, p, s, p + |Prefixed(s)|)
  {
    AtSplits(data, p, Varint(|s|), s);
    NumberOfCode(data, p, |data|, |s|);
  }

  /** GetLengthPrefixedSlice: the string that comes at p, on any bytes. */
  method GetPrefixed(data: Bytes, p: nat) returns (r: Bytes, q: Option<nat>)
    requires p <= |data|
    ensures q.Some? ==> p < q.value <= |data| && SliceAt(data, p, r, q.value)
    ensures q.None? ==> forall x, e :: !SliceAt(data, p, x, e)
  {
    var size, start := GetVarint32(data, p, |data|);
    if start == None || |data| - start.value < size {
      return [], None;
    }
    return data[start.value..start.value + size], Some(start.value + size);
  }

  // ----- codes one after the other -----

  /** The codes of the items from k on. */
  function Joined<T>(code: T -> Bytes, items: seq<T>, k: nat): Bytes
    decreases |items| - k
  {
    if k >= |items| then [] else code(items[k]) + Joined(code, items, k + 1)
  }

  lemma {:induction false} JoinedBoth<T>(code: T -> Bytes, a: seq<T>, b: seq<T>, k: nat)
    requires k <= |a|
    ensures Joined(code, a + b, k) == Joined(code, a, k) + Joined(code, b, 0)
    decreases |a| - k
  {
    if k < |a| {
      JoinedBoth(code, a, b, k + 1);
      assert (a + b)[k] == a[k];
    } else {
      JoinedShift(code, a, b, 0);
    }
  }

  lemma {:induction false} JoinedShift<T>(code: T -> Bytes, a: seq<T>, b: seq<T>, k: nat)
    requires k <= |b|
    ensures Joined(code, a + b, |a| + k) == Joined(code, b, k)
    decreases |b| - k
  {
    if k < |b| {
      JoinedShift(code, a, b, k + 1);
      assert (a + b)[|a| + k] == b[k];
    }
  }

  /** The codes end where the bytes end. */
  lemma StepOver<T>(code: T -> Bytes, data: Bytes, p: nat, items: seq<T>, k: nat)
    requires p < |data| && k <= |items| && data[p..] == Joined(code, items, k)
    ensures k < |items| && At(data, p, code(items[k])) && data[p + |code(items[k])|..] == Joined(code, items, k + 1)
  {
    var a, b := code(items[k]), Joined(code, items, k + 1);
    assert data[p..p + |a|] == data[p..][..|a|] == a;
    assert data[p + |a|..] == data[p..][|a|..] == b;
  }

  lemma {:induction false} Exhausted<T>(code: T -> Bytes, items: seq<T>, k: nat)
    requires k <= |items| && Joined(code, items, k) == [] && forall x :: |code(x)| > 0
    ensures k == |items|
  {
  }
}
