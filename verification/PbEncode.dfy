/** Encoding a message into a stream, or only measuring it (nanopb: pb_encode.c). */
module PbEncode {
  import opened Wrappers
  import opened Varints
  import opened PbCommon

  /** pb_ostream_t: a sizing stream only counts; another one fails when max_size is not enough. */
  datatype Stream = Stream(sizing: bool, buffer: Bytes, maxSize: nat, written: nat)

  type OStream = s: Stream | s.sizing || s.written <= s.maxSize witness Stream(true, [], 0, 0)

  /** Writing e succeeds exactly if it fits, and then it is e that is written. */
  ghost predicate Wrote(s: OStream, e: Bytes, ok: bool, s': OStream) {
    && s'.sizing == s.sizing && s'.maxSize == s.maxSize
    && (ok <==> s.sizing || s.written + |e| <= s.maxSize)
    && (ok ==> s'.written == s.written + |e| && s'.buffer == if s.sizing then s.buffer else s.buffer + e)
  }

  /** So it is if the value can be encoded at all, and otherwise it fails. */
  ghost predicate WroteIf(fits: bool, s: OStream, e: Bytes, ok: bool, s': OStream) {
    if fits then Wrote(s, e, ok, s') else !ok
  }

  lemma WroteBoth(s: OStream, a: Bytes, s1: OStream, b: Bytes, ok: bool, s2: OStream)
    requires Wrote(s, a, true, s1) && Wrote(s1, b, ok, s2)
    ensures Wrote(s, a + b, ok, s2)
  {
  }

  method Write(s: OStream, bytes: Bytes) returns (ok: bool, s': OStream)
    ensures Wrote(s, bytes, ok, s')
  {
    if !s.sizing && s.written + |bytes| > s.maxSize {
      return false, s;
    }
    return true, s.(written := s.written + |bytes|, buffer := if s.sizing then s.buffer else s.buffer + bytes);
  }

  /** The code of v with the flag that more follow on its last byte, too. */
  function Flagged(v: nat): Bytes {
    if v < 128 then [v + 128] else [v % 128 + 128] + Flagged(v / 128)
  }

  lemma {:induction false} ClearLast(v: nat)
    ensures |Flagged(v)| > 0 && Flagged(v)[|Flagged(v)| - 1] >= 128
    ensures Flagged(v)[|Flagged(v)| - 1 := Flagged(v)[|Flagged(v)| - 1] - 128] == Varint(v)
  {
    if v >= 128 {
      ClearLast(v / 128);
      var f, w := Flagged(v), Flagged(v / 128);
      assert f[|f| - 1 := f[|f| - 1] - 128] == [v % 128 + 128] + w[|w| - 1 := w[|w| - 1] - 128];
    }
  }

  method EncodeVarint(s: OStream, v: nat) returns (ok: bool, s': OStream)
    ensures Wrote(s, Varint(v), ok, s')
  {
    if v <= 0x7f {
      ok, s' := Write(s, [v]);
      return;
    }
    var buffer: Bytes := [];
    var rest: nat := v;
    while rest > 0
      invariant if rest > 0 then buffer + Flagged(rest) == Flagged(v) else buffer == Flagged(v)
    {
      assert rest >= 128 ==> buffer + Flagged(rest) == (buffer + [rest % 128 + 128]) + Flagged(rest / 128);
      buffer := buffer + [rest % 128 + 128];
      rest := rest / 128;
    }
    ClearLast(v);
    buffer := buffer[|buffer| - 1 := buffer[|buffer| - 1] - 128];
    ok, s' := Write(s, buffer);
  }

  method EncodeTag(s: OStream, wireType: nat, tag: nat) returns (ok: bool, s': OStream)
    ensures Wrote(s, TagBytes(tag, wireType), ok, s')
  {
    ok, s' := EncodeVarint(s, tag * 8 + wireType);
  }

  method EncodeString(s: OStream, bytes: Bytes) returns (ok: bool, s': OStream)
    ensures Wrote(s, Varint(|bytes|) + bytes, ok, s')
  {
    ok, s' := EncodeVarint(s, |bytes|);
    if ok {
      var s1 := s';
      ok, s' := Write(s1, bytes);
      WroteBoth(s, Varint(|bytes|), s1, bytes, ok, s');
    }
  }

  /** Measure the message, write its size, then the message itself into a stream of just that size. */
  method EncodeSubmessage(s: OStream, fields: seq<Field>, slots: seq<Slot>) returns (ok: bool, s': OStream)
    requires SlotsTyped(fields, slots)
    ensures WroteIf(SlotsFit(fields, slots), s, Varint(|Encoding(fields, slots)|) + Encoding(fields, slots), ok, s')
    decreases fields, 1
  {
    ghost var e := Encoding(fields, slots);
    var status, sub := Encode(Stream(true, [], 0, 0), fields, slots);
    if !status {
      return false, s;
    }
    var size := sub.written;
    var s1: OStream;
    ok, s1 := EncodeVarint(s, size);
    if !ok {
      return false, s1;
    }
    if s.sizing {
      s' := s1.(written := s1.written + size);
      WroteBoth(s, Varint(size), s1, e, true, s');
      return true, s';
    }
    if s1.written + size > s1.maxSize {
      WroteBoth(s, Varint(size), s1, e, false, s1);
      return false, s1;
    }
    status, sub := Encode(Stream(false, s1.buffer, size, 0), fields, slots);
    s' := s1.(written := s1.written + sub.written, buffer := sub.buffer);
    ok := status && sub.written == size;
    WroteBoth(s, Varint(size), s1, e, ok, s');
  }

  /** The encoder for one item, by its type. */
  method EncodeItem(s: OStream, lt: LType, v: Value) returns (ok: bool, s': OStream)
    requires ValueTyped(lt, v)
    ensures WroteIf(ValueFits(lt, v), s, Payload(lt, v), ok, s')
    decreases lt, 0
  {
    match lt {
      case VarintT(_) => ok, s' := EncodeVarint(s, Unsigned(v.n));
      case UvarintT(_) => ok, s' := EncodeVarint(s, v.n);
      case SvarintT(_) => ok, s' := EncodeVarint(s, ZigZag(v.n));
      case Fixed32T => ok, s' := Write(s, Fixed(v.n));
      case Fixed64T => ok, s' := Write(s, Fixed64(v.n));
      case SubmessageT(fields) => ok, s' := EncodeSubmessage(s, fields, v.slots);
      case BytesT(max) =>
        if |v.bytes| > max {
          return false, s;
        }
        ok, s' := EncodeString(s, v.bytes);
      case _ => ok, s' := EncodeString(s, v.bytes);
    }
  }

  lemma PayloadsStep(lt: LType, items: Slot, k: nat, done: Bytes)
    requires k < |items|
    ensures done + Payloads(lt, items, k) == (done + Payload(lt, items[k])) + Payloads(lt, items, k + 1)
  {
  }

  lemma SlotStep(f: Field, items: Slot, k: nat, done: Bytes)
    requires k < |items| && !(f.htype.Repeated? && Packable(f.ltype))
    ensures done + SlotBytes(f, items, k) ==
            (done + (TagBytes(f.tag, WireType(f.ltype)) + Payload(f.ltype, items[k]))) + SlotBytes(f, items, k + 1)
  {
    var e := TagBytes(f.tag, WireType(f.ltype)) + Payload(f.ltype, items[k]);
    assert SlotBytes(f, items, k) == e + SlotBytes(f, items, k + 1);
  }

  lemma FieldStep(fields: seq<Field>, slots: seq<Slot>, i: nat, done: Bytes)
    requires i < |fields| && i < |slots|
    ensures done + EncodeFrom(fields, slots, i) == (done + SlotBytes(fields[i], slots[i], 0))
        + EncodeFrom(fields, slots, i + 1)
  {
  }

  /** Nothing after what did not fit can make it fit. */
  lemma WroteStops(s: OStream, a: Bytes, b: Bytes, s': OStream)
    requires Wrote(s, a, false, s')
    ensures Wrote(s, a + b, false, s')
  {
  }

  /** The items of an array without tags. */
  method EncodeItems(s: OStream, lt: LType, items: Slot) returns (ok: bool, s': OStream)
    requires Packable(lt) && forall k :: 0 <= k < |items| ==> ValueTyped(lt, items[k])
    ensures Wrote(s, Payloads(lt, items, 0), ok, s')
    decreases lt, 1
  {
    ok, s' := true, s;
    ghost var done: Bytes := [];
    var k := 0;
    while k < |items|
      invariant k <= |items| && Wrote(s, done, true, s') && ok
      invariant done + Payloads(lt, items, k) == Payloads(lt, items, 0)
    {
      var s1 := s';
      ok, s' := EncodeItem(s1, lt, items[k]);
      WroteBoth(s, done, s1, Payload(lt, items[k]), ok, s');
      PayloadsStep(lt, items, k, done);
      if !ok {
        WroteStops(s, done + Payload(lt, items[k]), Payloads(lt, items, k + 1), s');
        return;
      }
      done := done + Payload(lt, items[k]);
      k := k + 1;
    }
    assert done + [] == done;
  }

  /** Size and items of a packed array.  Fixed-width types need no measuring pass. */
  method EncodePacked(s: OStream, lt: LType, items: Slot) returns (ok: bool, s': OStream)
    requires Packable(lt) && forall k :: 0 <= k < |items| ==> ValueTyped(lt, items[k])
    ensures Wrote(s, Varint(|Payloads(lt, items, 0)|) + Payloads(lt, items, 0), ok, s')
    decreases lt, 2
  {
    ghost var e := Payloads(lt, items, 0);
    var size;
    if lt.Fixed32T? {
      FixedSize(lt, items, 0, 4);
      size := 4 * |items|;
    } else if lt.Fixed64T? {
      FixedSize(lt, items, 0, 8);
      size := 8 * |items|;
    } else {
      var status, sub := EncodeItems(Stream(true, [], 0, 0), lt, items);
      size := sub.written;
    }
    var s1: OStream;
    ok, s1 := EncodeVarint(s, size);
    if !ok {
      return false, s1;
    }
    if s.sizing {
      s' := s1.(written := s1.written + size);
      WroteBoth(s, Varint(size), s1, e, true, s');
      return true, s';
    }
    ok, s' := EncodeItems(s1, lt, items);
    WroteBoth(s, Varint(size), s1, e, ok, s');
  }

  lemma {:induction false} FixedSize(lt: LType, items: Slot, k: nat, size: nat)
    requires (lt.Fixed32T? && size == 4) || (lt.Fixed64T? && size == 8)
    requires k <= |items| && forall j :: 0 <= j < |items| ==> ValueTyped(lt, items[j])
    ensures |Payloads(lt, items, k)| == size * (|items| - k)
    decreases |items| - k
  {
    if k < |items| {
      FixedSize(lt, items, k + 1, size);
      assert |Payload(lt, items[k])| == size;
    }
  }

  /** A tag and an item. */
  method EncodeTagged(s: OStream, f: Field, v: Value) returns (ok: bool, s': OStream)
    requires ValueTyped(f.ltype, v)
    ensures WroteIf(ValueFits(f.ltype, v), s, TagBytes(f.tag, WireType(f.ltype)) + Payload(f.ltype, v), ok, s')
    decreases f, 0
  {
    var s1: OStream;
    ok, s1 := EncodeTag(s, WireType(f.ltype), f.tag);
    if !ok {
      WroteStops(s, TagBytes(f.tag, WireType(f.ltype)), Payload(f.ltype, v), s1);
      return false, s1;
    }
    ok, s' := EncodeItem(s1, f.ltype, v);
    if ValueFits(f.ltype, v) { WroteBoth(s, TagBytes(f.tag, WireType(f.ltype)), s1, Payload(f.ltype, v), ok, s'); }
  }

  /** encode_array */
  method EncodeArray(s: OStream, f: Field, items: Slot) returns (ok: bool, s': OStream)
    requires f.htype.Repeated? && SlotTyped(f, items)
    ensures WroteIf(SlotFits(f, items), s, SlotBytes(f, items, 0), ok, s')
    decreases f, 2
  {
    if |items| == 0 {
      return true, s;
    }
    if |items| > f.htype.max {
      return false, s;
    }
    if Packable(f.ltype) {
      var s1: OStream;
      ok, s1 := EncodeTag(s, WT_STRING, f.tag);
      ghost var packed := Varint(|Payloads(f.ltype, items, 0)|) + Payloads(f.ltype, items, 0);
      assert SlotBytes(f, items, 0) == TagBytes(f.tag, WT_STRING) + packed;
      if !ok {
        WroteStops(s, TagBytes(f.tag, WT_STRING), packed, s1);
        return false, s1;
      }
      ok, s' := EncodePacked(s1, f.ltype, items);
      WroteBoth(s, TagBytes(f.tag, WT_STRING), s1, packed, ok, s');
    } else {
      ok, s' := EncodeUnpacked(s, f, items);
    }
  }

  method EncodeUnpacked(s: OStream, f: Field, items: Slot) returns (ok: bool, s': OStream)
    requires !(f.htype.Repeated? && Packable(f.ltype)) && forall k :: 0 <= k < |items| ==> ValueTyped(f.ltype, items[k])
    ensures WroteIf(forall k :: 0 <= k < |items| ==> ValueFits(f.ltype, items[k]), s, SlotBytes(f, items, 0), ok, s')
    decreases f, 1
  {
    ok, s' := true, s;
    ghost var done: Bytes := [];
    var k := 0;
    while k < |items|
      invariant k <= |items| && Wrote(s, done, true, s') && ok
      invariant done + SlotBytes(f, items, k) == SlotBytes(f, items, 0)
      invariant forall j :: 0 <= j < k ==> ValueFits(f.ltype, items[j])
    {
      var s1 := s';
      ok, s' := EncodeTagged(s1, f, items[k]);
      ghost var e := TagBytes(f.tag, WireType(f.ltype)) + Payload(f.ltype, items[k]);
      if ValueFits(f.ltype, items[k]) {
        WroteBoth(s, done, s1, e, ok, s');
        SlotStep(f, items, k, done);
      }
      if !ok {
        if ValueFits(f.ltype, items[k]) { WroteStops(s, done + e, SlotBytes(f, items, k + 1), s'); }
        return;
      }
      done := done + e;
      k := k + 1;
    }
    assert done + [] == done;
  }

  /** encode_basic_field */
  method EncodeField(s: OStream, f: Field, items: Slot) returns (ok: bool, s': OStream)
    requires SlotTyped(f, items)
    ensures WroteIf(SlotFits(f, items), s, SlotBytes(f, items, 0), ok, s')
    decreases f, 3
  {
    match f.htype {
      case Repeated(_) =>
        ok, s' := EncodeArray(s, f, items);
      case _ =>
        if |items| == 0 {
          return true, s;
        }
        ok, s' := EncodeTagged(s, f, items[0]);
        ghost var e := TagBytes(f.tag, WireType(f.ltype)) + Payload(f.ltype, items[0]);
        assert SlotBytes(f, items, 0) == e + SlotBytes(f, items, 1) == e;
    }
  }

  /** pb_encode: field by field.  It succeeds exactly if sizes and counts are within what the fields allow and the
      stream has room for the whole encoding. */
  method Encode(s: OStream, fields: seq<Field>, slots: seq<Slot>) returns (ok: bool, s': OStream)
    requires SlotsTyped(fields, slots)
    ensures WroteIf(SlotsFit(fields, slots), s, Encoding(fields, slots), ok, s')
    decreases fields, 0
  {
    ok, s' := true, s;
    ghost var done: Bytes := [];
    var i := 0;
    while i < |fields|
      invariant i <= |fields| && Wrote(s, done, true, s') && ok
      invariant done + EncodeFrom(fields, slots, i) == Encoding(fields, slots)
      invariant forall j :: 0 <= j < i ==> SlotFits(fields[j], slots[j])
    {
      var s1 := s';
      ok, s' := EncodeField(s1, fields[i], slots[i]);
      ghost var e := SlotBytes(fields[i], slots[i], 0);
      if SlotFits(fields[i], slots[i]) {
        WroteBoth(s, done, s1, e, ok, s');
        FieldStep(fields, slots, i, done);
      }
      if !ok {
        if SlotFits(fields[i], slots[i]) { WroteStops(s, done + e, EncodeFrom(fields, slots, i + 1), s'); }
        return;
      }
      done := done + e;
      i := i + 1;
    }
    assert done + [] == done;
  }

  /** pb_get_encoded_size */
  method GetEncodedSize(fields: seq<Field>, slots: seq<Slot>) returns (size: Option<nat>)
    requires SlotsTyped(fields, slots)
    ensures size == if SlotsFit(fields, slots) then Some(|Encoding(fields, slots)|) else None
  {
    var ok, s := Encode(Stream(true, [], 0, 0), fields, slots);
    size := if ok then Some(s.written) else None;
  }
}
