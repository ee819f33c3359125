/** Decoding a message (nanopb: pb_decode.c, pb_common.c). */
module PbDecode {
  import opened Wrappers
  import opened Varints
  import opened PbCommon

  /** pb_istream_t over a buffer: what lies from pos up to end is left. */
  datatype RawStream = Stream(data: Bytes, pos: nat, end: nat)

  type IStream = s: RawStream | s.pos <= s.end <= |s.data| witness Stream([], 0, 0)

  /** e comes next. */
  ghost predicate Next(s: IStream, e: Bytes) {
    At(s.data, s.pos, e) && s.pos + |e| <= s.end
  }

  /** s' is s with bytes consumed. */
  ghost predicate Forward(s: IStream, s': IStream) {
    s'.data == s.data && s'.end == s.end && s.pos <= s'.pos
  }

  ghost predicate Past(s: IStream, e: Bytes, s': IStream) {
    Forward(s, s') && s'.pos == s.pos + |e|
  }

  lemma NextSplits(s: IStream, a: Bytes, b: Bytes)
    requires Next(s, a + b)
    ensures Next(s, a) && forall s' :: Past(s, a, s') ==> Next(s', b)
  {
    AtSplits(s.data, s.pos, a, b);
  }

  /** pb_read */
  method Read(s: IStream, count: nat) returns (ok: bool, bytes: Bytes, s': IStream)
    ensures Forward(s, s') && (ok <==> count <= s.end - s.pos)
    ensures ok ==> s'.pos == s.pos + count && bytes == s.data[s.pos..s'.pos]
  {
    if s.end - s.pos < count {
      return false, [], s;
    }
    return true, s.data[s.pos..s.pos + count], s.(pos := s.pos + count);
  }

  /** pb_decode_varint: the number that comes next, whatever the bytes; in particular v, where its code comes next. */
  method DecodeVarint(s: IStream, ghost v: nat) returns (ok: bool, value: nat, s': IStream)
    ensures Forward(s, s') && (ok ==> s'.pos > s.pos && value < LIMIT64)
    ensures IsNumber64(s.data, s.pos, s.end, if ok then Some(Numeral(value, s'.pos)) else None)
    ensures v < LIMIT64 && Next(s, Varint(v)) ==> ok && value == v && Past(s, Varint(v), s')
  {
    ok, value, s' := ReadVarint(s);
    if NumberAt(s.data, s.pos, s.end, v) {
      NumberOfCode64(s.data, s.pos, s.end, v, if ok then Some(Numeral(value, s'.pos)) else None);
    }
  }

  method ReadVarint(s: IStream) returns (ok: bool, value: nat, s': IStream)
    ensures Forward(s, s') && (ok ==> s'.pos > s.pos && value < LIMIT64)
    ensures IsNumber64(s.data, s.pos, s.end, if ok then Some(Numeral(value, s'.pos)) else None)
  {
    ghost var end := Window64(s.pos, s.end);
    ghost var g := Groups(s.data, s.pos, end);
    value, s' := 0, s;
    var i, w := 0, 1;
    while true
      invariant i <= 10 && Forward(s, s') && s'.pos == s.pos + i <= end && 0 <= w
      invariant if i < 10 then Weight64(i, w) && value < w && HalfRead(g, Groups(s.data, s'.pos, end), w, value)
        else g.None?
      decreases 10 - i
    {
      if i >= 10 || s'.pos == s'.end {
        return false, value, s';
      }
      var byte := s'.data[s'.pos];
      PartFits64(i, w, value, byte % 128);
      if byte < 128 {
        Number64Ends(s.data, s.pos, s.end, s'.pos, i, w, value);
        return true, value + byte % 128 * w % LIMIT64, s'.(pos := s'.pos + 1);
      }
      OneMoreGroup(s.data, s'.pos, end, g, w, value);
      value := value + byte % 128 * w % LIMIT64;
      s' := s'.(pos := s'.pos + 1);
      i, w := i + 1, w * 128;
    }
  }

  /** Of the number g, low, the groups below weight w, has been read, and of that the low 32 bits are value. */
  ghost predicate Reading(s: IStream, g: Option<Numeral>, i: nat, w: nat, low: nat, value: nat) {
    && HalfRead(g, Groups(s.data, s.pos, s.end), w, low) && low < w && value == low % LIMIT32
    && if i < 5 then Weight(i, w) else w % LIMIT32 == 0 && w >= LIMIT32
  }

  /** The number g has been read.  Five bytes may have held more than 32 bits. */
  ghost predicate Finished(s: IStream, g: Option<Numeral>, i: nat, low: nat, value: nat, byte: nat) {
    g == Some(Numeral(low, s.pos)) && value == low % LIMIT32 && (i == 5 ==> (low >= LIMIT32 <==> byte >= 16))
  }

  /** pb_decode_varint32: the low 32 bits of the number that comes next.  Every code of a number of 32 bits is
      accepted, even with zeros behind it; a larger number is accepted only if its other bits are a sign. */
  method DecodeVarint32(s: IStream, ghost v: nat) returns (ok: bool, value: nat, eof: bool, s': IStream)
    ensures Forward(s, s') && (ok ==> s'.pos > s.pos && value < LIMIT32)
    ensures var g := Groups(s.data, s.pos, s.end);
      && (ok ==> g.Some? && value == g.value.value % LIMIT32 && s'.pos == g.value.next)
      && (g.Some? && g.value.value < LIMIT32 ==> ok)
    ensures v < LIMIT32 && Next(s, Varint(v)) ==> ok && value == v && Past(s, Varint(v), s')
  {
    ok, value, eof, s' := ReadVarint32(s);
    if v < LIMIT32 && Next(s, Varint(v)) {
      GroupsOfCode(s.data, s.pos, s.end, v);
    }
  }

  method ReadVarint32(s: IStream) returns (ok: bool, value: nat, eof: bool, s': IStream)
    ensures Forward(s, s') && (ok ==> s'.pos > s.pos && value < LIMIT32)
    ensures var g := Groups(s.data, s.pos, s.end);
      && (ok ==> g.Some? && value == g.value.value % LIMIT32 && s'.pos == g.value.next)
      && (g.Some? && g.value.value < LIMIT32 ==> ok)
  {
    ghost var g := Groups(s.data, s.pos, s.end);
    if s.pos == s.end {
      return false, 0, true, s;
    }
    value, eof, s' := 0, false, s;
    var i: nat, byte: nat := 0, 0x80;
    ghost var w: nat, low: nat := 1, 0;
    while byte >= 0x80
      invariant Forward(s, s') && value < LIMIT32 && byte < 256 && (s'.pos == s.pos ==> byte >= 0x80)
      invariant if byte >= 0x80 then Reading(s', g, i, w, low, value) else Finished(s', g, i, low, value, byte)
      decreases s'.end - s'.pos
    {
      if s'.pos == s'.end {
        return false, value, false, s';
      }
      byte := s'.data[s'.pos];
      ReadsOn(s', g, i, w, low, value, byte);
      ok, value := AddByte(i, value, byte);
      if !ok {
        return false, value, false, s';
      }
      s' := s'.(pos := s'.pos + 1);
      i, low, w := i + 1, low + byte % 128 * w, w * 128;
    }
    if i == 5 && byte / 16 % 8 != 0 {
      return false, value, false, s';
    }
    return true, value, false, s';
  }

  /** One more byte; from the sixth on a byte that is not zero makes the number larger than 32 bits. */
  lemma ReadsOn(s: IStream, g: Option<Numeral>, i: nat, w: nat, low: nat, value: nat, byte: nat)
    requires Reading(s, g, i, w, low, value) && s.pos < s.end && byte == s.data[s.pos]
    ensures var next := s.(pos := s.pos + 1);
      var r := if i < 5 then value + byte % 128 * Power128(i) % LIMIT32 else value;
      if byte >= 128 then Reading(next, g, i + 1, w * 128, low + byte % 128 * w, r)
      else Finished(next, g, i + 1, low + byte % 128 * w, r, byte)
    ensures i >= 5 && byte % 128 != 0 && g.Some? ==> g.value.value >= LIMIT32
  {
    TakesGroup(s, g, w, low, byte);
    if i < 5 {
      Weight32(i, w, low, byte % 128);
    } else {
      HighGroups(w, low, byte % 128);
    }
  }

  lemma TakesGroup(s: IStream, g: Option<Numeral>, w: nat, low: nat, byte: nat)
    requires HalfRead(g, Groups(s.data, s.pos, s.end), w, low) && s.pos < s.end && byte == s.data[s.pos]
    ensures byte >= 128 ==> HalfRead(g, Groups(s.data, s.pos + 1, s.end), w * 128, low + byte % 128 * w)
    ensures byte < 128 ==> g == Some(Numeral(low + byte % 128 * w, s.pos + 1))
    ensures byte % 128 != 0 && g.Some? ==> g.value.value >= w
  {
    if byte >= 128 {
      OneMoreGroup(s.data, s.pos, s.end, g, w, low);
    }
    if g.Some? && byte % 128 != 0 {
      AtLeast(w, Groups(s.data, s.pos, s.end).value.value);
    }
  }

  lemma AtLeast(w: nat, h: nat)
    requires h >= 1
    ensures w * h >= w
  {
  }

  /** The fifth group holds four bits of a 32-bit number. */
  lemma Weight32(i: nat, w: nat, low: nat, digit: nat)
    requires i < 5 && Weight(i, w) && low < w && digit < 128
    ensures w == Power128(i) && low % LIMIT32 == low && low + digit * w < w * 128
    ensures low + digit * w % LIMIT32 == (low + digit * w) % LIMIT32
    ensures if i < 4 then Weight(i + 1, w * 128) && low + digit * w < LIMIT32
      else (w * 128) % LIMIT32 == 0 && (low + digit * w >= LIMIT32 <==> digit >= 16)
  {
    PartFits(i, w, low, digit);
  }

  /** Groups from the sixth on do not touch the low 32 bits. */
  lemma HighGroups(w: nat, low: nat, digit: nat)
    requires w % LIMIT32 == 0 && low < w && digit < 128
    ensures (low + digit * w) % LIMIT32 == low % LIMIT32 && low + digit * w < w * 128 && (w * 128) % LIMIT32 == 0
  {
    var q := w / LIMIT32;
    assert w == q * LIMIT32;
    Multiple(low, digit * q, digit * w);
    Multiple(0, 128 * q, 128 * w);
    assert digit * w <= 127 * w;
  }

  lemma Multiple(low: nat, q: nat, x: nat)
    requires x == q * LIMIT32
    ensures (low + x) % LIMIT32 == low % LIMIT32
  {
  }

  /** The effect of byte i on the number: later bytes may only be zeros or a sign. */
  method AddByte(i: nat, value: nat, byte: nat) returns (ok: bool, r: nat)
    requires value < LIMIT32 && byte < 256
    ensures i < 5 ==> ok && r == value + byte % 128 * Power128(i) % LIMIT32
    ensures i >= 5 ==> r == value
    ensures i >= 5 ==>
      (ok <==> byte % 128 == 0 || (value >= 0x8000_0000 && byte == if i < 9 then 0xff else 0x01))
  {
    if i >= 5 {
      var signExtension := if i < 9 then 0xff else 0x01;
      return !(byte % 128 != 0 && (value / 0x8000_0000 == 0 || byte != signExtension)), value;
    }
    return true, value + byte % 128 * Power128(i) % LIMIT32;
  }

  function Power128(i: nat): nat {
    if i == 0 then 1 else if i == 1 then 0x80 else if i == 2 then 0x4000 else if i == 3 then 0x20_0000 else 0x1000_0000
  }

  // ----- what a destination structure has room for -----

  /** A value that fits its place in the structure: a number of the field's width, no more bytes than the array has,
      with one left for the end of a string. */
  predicate ShapeOk(lt: LType, v: Value)
    decreases lt
  {
    match lt
    case VarintT(size) => v.Number? && FitsSigned(v.n, size)
    case SvarintT(size) => v.Number? && FitsSigned(v.n, size)
    case UvarintT(size) => v.Number? && 0 <= v.n < Limit(size)
    case Fixed32T => v.Number? && 0 <= v.n < LIMIT32
    case Fixed64T => v.Number? && 0 <= v.n < LIMIT64
    case BytesT(max) => v.Data? && |v.bytes| <= max
    case StringT(max) => v.Data? && (|v.bytes| < max || v.bytes == [])
    case FixedBytesT(length) => v.Data? && |v.bytes| == length
    case SubmessageT(fields) => v.Message? && ShapesOk(fields, v.slots)
  }

  /** Every field has as many items as it may have, and at most one field of a oneof is set. */
  predicate ShapesOk(fields: seq<Field>, slots: seq<Slot>)
    decreases fields
  {
    && |slots| == |fields| && (forall i :: 0 <= i < |fields| ==> SlotShapeOk(fields[i], slots[i]))
    && (forall i, j :: 0 <= i < j < |fields| && fields[i].htype.Oneof? && fields[j].htype == fields[i].htype ==>
        slots[i] == [] || slots[j] == [])
  }

  predicate SlotShapeOk(f: Field, items: Slot)
    decreases f
  {
    && (forall k :: 0 <= k < |items| ==> ShapeOk(f.ltype, items[k]))
    && match f.htype
    case Required => |items| == 1
    case Optional => |items| <= 1
    case Oneof(_) => |items| <= 1
    case Repeated(max) => |items| <= max
  }

  lemma {:induction false} DefaultShape(lt: LType)
    requires TypeOk(lt)
    ensures ShapeOk(lt, Default(lt))
    decreases lt
  {
    if lt.SubmessageT? {
      DefaultsShape(lt.fields);
    }
  }

  lemma {:induction false} DefaultsShape(fields: seq<Field>)
    requires FieldsOk(fields)
    ensures ShapesOk(fields, Defaults(fields))
    decreases fields
  {
    forall i | 0 <= i < |fields| ensures SlotShapeOk(fields[i], Defaults(fields)[i]) {
      FieldDefaultShape(fields[i]);
    }
  }

  lemma {:induction false} FieldDefaultShape(f: Field)
    requires TypeOk(f.ltype)
    ensures SlotShapeOk(f, FieldDefault(f))
    decreases f
  {
    DefaultShape(f.ltype);
  }

  // ----- numbers -----

  function Signed64(value: nat): int {
    if value < LIMIT64 / 2 then value else value - LIMIT64
  }

  function Signed32(value: nat): int {
    if value % LIMIT32 < LIMIT32 / 2 then value % LIMIT32 else value % LIMIT32 - LIMIT32
  }

  /** A signed number fits in that many bytes. */
  predicate FitsSigned(n: int, size: nat) {
    -(Limit(size) as int / 2) <= n < Limit(size) / 2
  }

  function UnZigZag(value: nat): int {
    if value % 2 == 1 then -(value as int / 2) - 1 else value / 2
  }

  /** pb_dec_varint: fields of up to 32 bits take the low 32 bits with their sign. */
  function VarintValue(value: nat, size: nat): Option<int> {
    var n := if size == 8 then Signed64(value) else Signed32(value);
    if FitsSigned(n, size) then Some(n) else None
  }

  lemma VarintBack(n: int, size: nat)
    requires Limit(size) > 0 && FitsSigned(n, size)
    ensures Unsigned(n) < LIMIT64 && VarintValue(Unsigned(n), size) == Some(n)
  {
    if size != 8 && n < 0 {
      assert Unsigned(n) == (LIMIT32 - 1) * LIMIT32 + (LIMIT32 + n);
      assert Unsigned(n) % LIMIT32 == LIMIT32 + n;
    }
  }

  lemma ZigZagBack(n: int, size: nat)
    requires Limit(size) > 0 && FitsSigned(n, size)
    ensures ZigZag(n) < LIMIT64 && UnZigZag(ZigZag(n)) == n
  {
  }

  /** What DecodeItem makes of a number of the given type; none if it is too large for its field. */
  function NumberFrom(lt: LType, value: nat): Option<Value>
    requires lt.VarintT? || lt.UvarintT? || lt.SvarintT?
  {
    match lt
    case VarintT(size) => (match VarintValue(value, size) case None => None case Some(n) => Some(Number(n)))
    case UvarintT(size) => if value < Limit(size) then Some(Number(value)) else None
    case SvarintT(size) => if FitsSigned(UnZigZag(value), size) then Some(Number(UnZigZag(value))) else None
  }

  /** The number that the encoder writes for an item. */
  function NumberOf(lt: LType, v: Value): nat
    requires (lt.VarintT? || lt.UvarintT? || lt.SvarintT?) && v.Number? && (lt.UvarintT? ==> v.n >= 0)
  {
    match lt
    case VarintT(_) => Unsigned(v.n)
    case UvarintT(_) => v.n
    case SvarintT(_) => ZigZag(v.n)
  }

  lemma NumberBack(lt: LType, v: Value)
    requires (lt.VarintT? || lt.UvarintT? || lt.SvarintT?) && TypeOk(lt) && ValueOk(lt, v)
    ensures Payload(lt, v) == Varint(NumberOf(lt, v)) && NumberOf(lt, v) < LIMIT64
    ensures NumberFrom(lt, NumberOf(lt, v)) == Some(v)
  {
    if lt.VarintT? {
      VarintBack(v.n, lt.size);
    } else if lt.SvarintT? {
      ZigZagBack(v.n, lt.size);
    }
  }

  method DecodeNumber(s: IStream, lt: LType, ghost v: Value) returns (ok: bool, r: Value, s': IStream)
    requires (lt.VarintT? || lt.UvarintT? || lt.SvarintT?) && TypeOk(lt)
    ensures Forward(s, s') && (ok ==> s'.pos > s.pos) && ShapeOk(lt, r)
    ensures ValueOk(lt, v) && Next(s, Payload(lt, v)) ==> ok && r == v && Past(s, Payload(lt, v), s')
  {
    ghost var good := ValueOk(lt, v) && Next(s, Payload(lt, v));
    if good { NumberBack(lt, v); }
    var value;
    ok, value, s' := DecodeVarint(s, if good then NumberOf(lt, v) else 0);
    r := Number(0);
    if ok {
      var n := NumberFrom(lt, value);
      ok := n.Some?;
      if ok {
        r := n.value;
      }
    }
  }

  // ----- fixed width -----

  method DecodeFixed(s: IStream, lt: LType, ghost v: Value) returns (ok: bool, r: Value, s': IStream)
    requires lt.Fixed32T? || lt.Fixed64T?
    ensures Forward(s, s') && (ok ==> s'.pos > s.pos) && ShapeOk(lt, r)
    ensures ValueOk(lt, v) && Next(s, Payload(lt, v)) ==> ok && r == v && Past(s, Payload(lt, v), s')
  {
    ghost var good := ValueOk(lt, v) && Next(s, Payload(lt, v));
    var bytes;
    r := Number(0);
    if lt.Fixed32T? {
      ok, bytes, s' := Read(s, 4);
      if ok {
        if good { WordBack(v.n, bytes); }
        r := Number(Unfixed(bytes[0], bytes[1], bytes[2], bytes[3]));
      }
    } else {
      ok, bytes, s' := Read(s, 8);
      if ok {
        if good { DoubleBack(v.n, bytes); }
        r := Number(Unfixed(bytes[0], bytes[1], bytes[2], bytes[3])
            + Unfixed(bytes[4], bytes[5], bytes[6], bytes[7]) * LIMIT32);
      }
    }
  }

  // ----- length-delimited -----

  /** A string, bytes or fixed-length bytes field. */
  method DecodeData(s: IStream, lt: LType, ghost v: Value) returns (ok: bool, r: Value, s': IStream)
    requires lt.BytesT? || lt.StringT? || lt.FixedBytesT?
    ensures Forward(s, s') && (ok ==> s'.pos > s.pos) && ShapeOk(lt, r)
    ensures ValueOk(lt, v) && Next(s, Payload(lt, v)) ==>
        if ValueEnds(lt, v) then ok && r == v && Past(s, Payload(lt, v), s') else !ok
  {
    ghost var good := ValueOk(lt, v) && Next(s, Payload(lt, v));
    ghost var bytes0 := if v.Data? then v.bytes else [];
    if good { NextSplits(s, Varint(|bytes0|), bytes0); }
    var size, eof, s1, bytes;
    r := Default(lt);
    ok, size, eof, s1 := DecodeVarint32(s, |bytes0|);
    if !ok {
      return false, r, s1;
    }
    if lt.FixedBytesT? && size == 0 {
      return true, r, s1;
    }
    if (lt.BytesT? && size > lt.max) || (lt.StringT? && size + 1 > lt.max) || (lt.FixedBytesT? && size != lt.length) {
      return false, r, s1;
    }
    ok, bytes, s' := Read(s1, size);
    if ok {
      r := Data(bytes);
    }
  }
}
