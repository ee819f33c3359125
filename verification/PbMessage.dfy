/** The decoding loop over a message's fields, and the round trip (nanopb: pb_decode.c, pb_common.c). */
module PbMessage {
  import opened Wrappers
  import opened Varints
  import opened PbCommon
  import opened PbPartial
  import PbEncode
  import opened PbDecode

  // ----- the field iterator -----

  /** pb_field_iter_t: a place in the field table and the number of required fields before it. */
  datatype Iter = Iter(pos: nat, required: nat)

  ghost predicate IterOk(fields: seq<Field>, it: Iter) {
    if fields == [] then it == Iter(0, 0) else it.pos < |fields| && it.required == RequiredBefore(fields, it.pos)
  }

  /** pb_field_iter_next: at the end it wraps to the first field and says so. */
  method IterNext(fields: seq<Field>, it: Iter) returns (more: bool, it': Iter)
    requires IterOk(fields, it)
    ensures IterOk(fields, it') && (more <==> it.pos + 1 < |fields|)
        && it'.pos == if it.pos + 1 < |fields| then it.pos + 1 else 0
  {
    if it.pos + 1 >= |fields| {
      return false, Iter(0, 0);
    }
    return true, Iter(it.pos + 1, it.required + if fields[it.pos].htype.Required? then 1 else 0);
  }

  /** pb_field_iter_find: look from here on, around the end, and back to here. */
  method IterFind(fields: seq<Field>, it: Iter, tag: nat) returns (found: bool, it': Iter)
    requires IterOk(fields, it)
    ensures IterOk(fields, it') && (found ==> it'.pos < |fields| && fields[it'.pos].tag == tag)
    ensures !found ==> forall i :: 0 <= i < |fields| ==> fields[i].tag != tag
  {
    it' := it;
    var steps := 0;
    while true
      invariant IterOk(fields, it') && steps <= |fields|
      invariant fields != [] && steps > 0 ==>
          it'.pos == if it.pos + steps < |fields| then it.pos + steps else it.pos + steps - |fields|
      invariant steps == 0 ==> it' == it
      invariant forall i :: 0 <= i < |fields| && (it.pos <= i < it.pos + steps || i < it.pos + steps - |fields|) ==>
          fields[i].tag != tag
      invariant steps < |fields| || fields == []
      decreases |fields| - steps
    {
      if it'.pos < |fields| && fields[it'.pos].tag == tag {
        return true, it';
      }
      var more;
      more, it' := IterNext(fields, it');
      steps := steps + 1;
      if it'.pos == it.pos {
        return false, it';
      }
    }
  }

  // ----- one field -----

  /** e is all that is left in the stream. */
  ghost predicate Exactly(s: IStream, e: Bytes) {
    Next(s, e) && s.pos + |e| == s.end
  }

  method MakeSubstream(s: IStream, ghost size0: nat) returns (ok: bool, sub: IStream, s': IStream)
    ensures Forward(s, s') && (ok ==> s'.pos > s.pos && sub.data == s.data && sub.end == s'.pos && s.pos < sub.pos)
    ensures size0 < LIMIT32 && Next(s, Varint(size0)) && s.pos + |Varint(size0)| + size0 <= s.end ==>
      ok && sub.pos == s.pos + |Varint(size0)| && s'.pos == sub.pos + size0
  {
    var size, eof, s1;
    ok, size, eof, s1 := DecodeVarint32(s, size0);
    if !ok || s1.end - s1.pos < size {
      return false, s, s1;
    }
    return true, Stream(s1.data, s1.pos, s1.pos + size), s1.(pos := s1.pos + size);
  }

  /** The decoder for one item, by its type; base is what a submessage is merged into. */
  method DecodeItem(s: IStream, lt: LType, base: Value, ghost v: Value) returns (ok: bool, r: Value, s': IStream)
    requires TypeOk(lt) && ShapeOk(lt, base)
    ensures Forward(s, s') && (ok ==> s'.pos > s.pos) && ShapeOk(lt, r)
    ensures ValuePartial(lt, v) && Next(s, Payload(lt, v)) && (lt.SubmessageT? ==> base == Default(lt)) ==>
      if ValueReads(lt, v) then ok && r == ValueFilled(lt, v) && Past(s, Payload(lt, v), s') else !ok
    decreases lt, 0
  {
    match lt {
      case VarintT(_) => ok, r, s' := DecodeNumber(s, lt, v);
      case UvarintT(_) => ok, r, s' := DecodeNumber(s, lt, v);
      case SvarintT(_) => ok, r, s' := DecodeNumber(s, lt, v);
      case Fixed32T => ok, r, s' := DecodeFixed(s, lt, v);
      case Fixed64T => ok, r, s' := DecodeFixed(s, lt, v);
      case SubmessageT(fields) =>
        var slots;
        ok, slots, s' := DecodeSubmessage(s, fields, base.slots, if v.Message? then v.slots else []);
        r := Message(slots);
      case _ => ok, r, s' := DecodeData(s, lt, v);
    }
  }

  /** pb_dec_submessage */
  method DecodeSubmessage(s: IStream, fields: seq<Field>, base: seq<Slot>, ghost m: seq<Slot>)
    returns (ok: bool, slots: seq<Slot>, s': IStream)
    requires FieldsOk(fields) && ShapesOk(fields, base)
    ensures Forward(s, s') && (ok ==> s'.pos > s.pos) && ShapesOk(fields, slots)
    ensures var e := Encoding(fields, m);
      SlotsPartial(fields, m) && |e| < LIMIT32 && Next(s, Varint(|e|) + e) && base == Defaults(fields) ==>
        if SlotsRead(fields, m) && NoneMissing(fields, m)
          then ok && slots == SlotsFilled(fields, m) && Past(s, Varint(|e|) + e, s') else !ok
    decreases fields, 3
  {
    ghost var e := Encoding(fields, m);
    ghost var good := SlotsPartial(fields, m) && |e| < LIMIT32 && Next(s, Varint(|e|) + e) && base == Defaults(fields);
    if good { NextSplits(s, Varint(|e|), e); }
    var sub, rest;
    ok, sub, s' := MakeSubstream(s, |e|);
    slots := base;
    if ok {
      if good {
        assert Past(s, Varint(|e|), s.(pos := sub.pos));
        HoldsEncoding(sub, fields, m);
      }
      ok, slots, rest := Decode(sub, fields, base, m, []);
    }
  }

  /** Everything of a packed array. */
  method DecodePacked(s: IStream, f: Field, items0: Slot, ghost all: Slot) returns (ok: bool, items: Slot, s': IStream)
    requires f.htype.Repeated? && Packable(f.ltype) && TypeOk(f.ltype)
    requires SlotShapeOk(f, items0)
    ensures Forward(s, s') && (ok ==> s'.pos > s.pos) && SlotShapeOk(f, items)
    ensures var p := Payloads(f.ltype, all, 0);
      SlotPartial(f, all) && items0 == [] && Next(s, Varint(|p|) + p) ==>
        ok && items == all && Past(s, Varint(|p|) + p, s')
    decreases f, 1
  {
    ghost var p := Payloads(f.ltype, all, 0);
    ghost var good := SlotPartial(f, all) && items0 == [] && Next(s, Varint(|p|) + p);
    if good { NextSplits(s, Varint(|p|), p); }
    var sub;
    ok, sub, s' := MakeSubstream(s, |p|);
    items := items0;
    if !ok {
      return;
    }
    if good { assert Past(s, Varint(|p|), s.(pos := sub.pos)); }
    ok, items, sub := PackedItems(sub, f, items0, all);
    ok := ok && sub.pos == sub.end;
  }

  /** Items until the substream or the room for them ends. */
  method PackedItems(s: IStream, f: Field, items0: Slot, ghost all: Slot) returns (ok: bool, items: Slot, s': IStream)
    requires f.htype.Repeated? && Packable(f.ltype) && TypeOk(f.ltype) && SlotShapeOk(f, items0)
    ensures Forward(s, s') && SlotShapeOk(f, items)
    ensures SlotPartial(f, all) && items0 == [] && Exactly(s, Payloads(f.ltype, all, 0)) ==>
      ok && items == all && s'.pos == s.end
    decreases f, 0
  {
    ghost var good := SlotPartial(f, all) && items0 == [] && Next(s, Payloads(f.ltype, all, 0))
        && s.pos + |Payloads(f.ltype, all, 0)| == s.end;
    ok, items, s' := true, items0, s;
    while s'.pos < s'.end && |items| < f.htype.max
      invariant Forward(s, s') && ok && SlotShapeOk(f, items)
      invariant good ==> |items| <= |all| && items == all[..|items|] && Next(s', Payloads(f.ltype, all, |items|))
      invariant good ==> s'.pos + |Payloads(f.ltype, all, |items|)| == s'.end
      decreases s'.end - s'.pos
    {
      ghost var k := |items|;
      if good { NextSplits(s', Payload(f.ltype, all[k]), Payloads(f.ltype, all, k + 1)); }
      ghost var s1 := s';
      var r;
      ok, r, s' := DecodeItem(s', f.ltype, Default(f.ltype), if good then all[k] else Number(0));
      if !ok {
        return;
      }
      items := items + [r];
    }
    if good { PayloadsLeft(f.ltype, all, |items|); }
  }

  lemma PayloadsLeft(lt: LType, items: Slot, k: nat)
    requires Packable(lt) && k <= |items| && forall j :: 0 <= j < |items| ==> ValuePartial(lt, items[j])
    ensures k < |items| ==> |Payloads(lt, items, k)| > 0
  {
  }

  /** decode_static_field: what the slot of field f becomes.  all is the slot to arrive at; k items of it are there. */
  method DecodeField(s: IStream, f: Field, wireType: nat, items: Slot, ghost all: Slot, ghost k: nat)
    returns (ok: bool, items': Slot, s': IStream)
    requires TypeOk(f.ltype) && SlotShapeOk(f, items)
    ensures Forward(s, s') && (ok ==> s'.pos > s.pos) && SlotShapeOk(f, items')
    ensures SingleNext(s, f, wireType, items, all, k) ==>
      if ValueReads(f.ltype, all[k]) then
        ok && items' == SlotFilled(f, all[..k + 1]) && Past(s, Payload(f.ltype, all[k]), s') else !ok
    ensures PackedNext(s, f, wireType, items, all) ==>
      ok && items' == all && Past(s, Varint(|Payloads(f.ltype, all, 0)|) + Payloads(f.ltype, all, 0), s')
    decreases f, 2
  {
    ghost var v := if k < |all| then all[k] else Number(0);
    if k < |all| { FilledAppend(f, all, k); }
    var r;
    items' := items;
    match f.htype {
      case Required =>
        ok, r, s' := DecodeItem(s, f.ltype, items[0], v);
        items' := [r];
      case Repeated(max) =>
        if wireType == WT_STRING && Packable(f.ltype) {
          ok, items', s' := DecodePacked(s, f, items, all);
        } else {
          if |items| >= max {
            return false, items, s;
          }
          DefaultShape(f.ltype);
          ok, r, s' := DecodeItem(s, f.ltype, Default(f.ltype), v);
          items' := items + [r];
        }
      case Optional =>
        DefaultShape(f.ltype);
        ok, r, s' := DecodeItem(s, f.ltype, if items == [] then Default(f.ltype) else items[0], v);
        items' := [r];
      case Oneof(_) =>
        DefaultShape(f.ltype);
        ok, r, s' := DecodeItem(s, f.ltype, Default(f.ltype), v);
        items' := [r];
    }
  }

  /** Item k of all comes next, on its own, and the items before it are there. */
  ghost predicate SingleNext(s: IStream, f: Field, wireType: nat, items: Slot, all: Slot, k: nat) {
    && !(f.htype.Repeated? && Packable(f.ltype)) && wireType == WireType(f.ltype) && SlotPartial(f, all) && k < |all|
    && items == SlotFilled(f, all[..k]) && Next(s, Payload(f.ltype, all[k]))
  }

  ghost predicate PackedNext(s: IStream, f: Field, wireType: nat, items: Slot, all: Slot) {
    && f.htype.Repeated? && Packable(f.ltype) && wireType == WT_STRING && SlotPartial(f, all) && items == []
    && Next(s, Varint(|Payloads(f.ltype, all, 0)|) + Payloads(f.ltype, all, 0))
  }

  // ----- the whole message -----

  /** The fields before i are complete, those after i untouched; of field i the first k items are there. */
  ghost predicate Mid(fields: seq<Field>, m: seq<Slot>, i: nat, k: nat, dest: seq<Slot>) {
    && |dest| == |fields| == |m| && i <= |fields| && (i < |fields| ==> k <= |m[i]|)
    && (forall j :: 0 <= j < i ==> dest[j] == SlotFilled(fields[j], m[j]))
    && (forall j :: i < j < |fields| ==> dest[j] == FieldDefault(fields[j]))
    && (i < |fields| ==> dest[i] == SlotFilled(fields[i], m[i][..k]))
    && (i < |fields| && k > 0 ==> !(fields[i].htype.Repeated? && Packable(fields[i].ltype)))
  }

  /** What is still to be read then. */
  function Rest(fields: seq<Field>, m: seq<Slot>, i: nat, k: nat): Bytes {
    if i < |fields| && i < |m| then SlotBytes(fields[i], m[i], k) + EncodeFrom(fields, m, i + 1) else []
  }

  lemma RestDone(fields: seq<Field>, m: seq<Slot>, i: nat, k: nat)
    requires i < |fields| == |m| && k == |m[i]|
    ensures Rest(fields, m, i, k) == Rest(fields, m, i + 1, 0)
  {
    assert SlotBytes(fields[i], m[i], k) == [] && [] + EncodeFrom(fields, m, i + 1) == EncodeFrom(fields, m, i + 1);
    assert Rest(fields, m, i + 1, 0) == EncodeFrom(fields, m, i + 1);
  }

  lemma MidDone(fields: seq<Field>, m: seq<Slot>, i: nat, k: nat, dest: seq<Slot>)
    requires SlotsPartial(fields, m) && Mid(fields, m, i, k, dest) && i < |fields| && k == |m[i]|
    ensures Mid(fields, m, i + 1, 0, dest)
  {
    assert SlotPartial(fields[i], m[i]);
    assert m[i][..k] == m[i];
  }

  /** The next item at or after item k of field i. */
  function Place(fields: seq<Field>, m: seq<Slot>, i: nat, k: nat): (nat, nat)
    requires |fields| == |m|
    decreases |fields| - i
  {
    if i < |fields| && k >= |m[i]| then Place(fields, m, i + 1, 0) else (i, k)
  }

  /** On to the field that the next bytes are for. */
  lemma {:induction false} SkipDone(fields: seq<Field>, m: seq<Slot>, i: nat, k: nat, dest: seq<Slot>, seen: set<nat>)
      returns (i': nat, k': nat)
    requires SlotsPartial(fields, m) && Mid(fields, m, i, k, dest) && SeenUpTo(fields, m, i, k, seen)
        && EndsUpTo(fields, m, i, k)
    ensures Mid(fields, m, i', k', dest) && Rest(fields, m, i', k') == Rest(fields, m, i, k)
        && SeenUpTo(fields, m, i', k', seen)
    ensures EndsUpTo(fields, m, i', k') && (i', k') == Place(fields, m, i, k)
    ensures if i' < |fields| then k' < |m[i']| else dest == SlotsFilled(fields, m) && Rest(fields, m, i', k') == []
    decreases |fields| - i
  {
    i', k' := i, k;
    if i < |fields| && k == |m[i]| {
      RestDone(fields, m, i, k);
      MidDone(fields, m, i, k, dest);
      SeenNext(fields, m, i, k, seen);
      EndsNext(fields, m, i, k);
      i', k' := SkipDone(fields, m, i + 1, 0, dest, seen);
    }
  }

  predicate IsPacked(f: Field) {
    f.htype.Repeated? && Packable(f.ltype)
  }

  function FieldWire(f: Field): nat {
    if IsPacked(f) then WT_STRING else WireType(f.ltype)
  }

  function Content(f: Field, all: Slot, k: nat): Bytes
    requires k < |all|
  {
    if IsPacked(f) then Varint(|Payloads(f.ltype, all, 0)|) + Payloads(f.ltype, all, 0) else Payload(f.ltype, all[k])
  }

  /** What is still to be read after that. */
  function After(fields: seq<Field>, m: seq<Slot>, i: nat, k: nat): Bytes
    requires i < |fields| == |m|
  {
    if IsPacked(fields[i]) then EncodeFrom(fields, m, i + 1) else Rest(fields, m, i, k + 1)
  }

  lemma Regroup(a: Bytes, b: Bytes, c: Bytes, d: Bytes)
    ensures a + b + c + d == a + ((b + c) + d) && a + b + c + d == a + (b + (c + d))
  {
  }

  lemma PackedSplits(f: Field, items: Slot)
    requires IsPacked(f) && items != []
    ensures SlotBytes(f, items, 0) == TagBytes(f.tag, WT_STRING) + Varint(|Payloads(f.ltype, items, 0)|)
        + Payloads(f.ltype, items, 0)
  {
  }

  lemma SingleSplits(f: Field, items: Slot, k: nat)
    requires !IsPacked(f) && k < |items|
    ensures SlotBytes(f, items, k) == TagBytes(f.tag, WireType(f.ltype)) + Payload(f.ltype, items[k])
        + SlotBytes(f, items, k + 1)
  {
  }

  /** A tag, the content of a field, and what follows them. */
  lemma RestSplits(fields: seq<Field>, m: seq<Slot>, i: nat, k: nat)
    requires i < |fields| == |m| && k < |m[i]| && (IsPacked(fields[i]) ==> k == 0)
    ensures Rest(fields, m, i, k) == TagBytes(fields[i].tag, FieldWire(fields[i]))
        + (Content(fields[i], m[i], k) + After(fields, m, i, k))
  {
    var f, items, e := fields[i], m[i], EncodeFrom(fields, m, i + 1);
    if IsPacked(f) {
      PackedSplits(f, items);
      Regroup(TagBytes(f.tag, WT_STRING), Varint(|Payloads(f.ltype, items, 0)|), Payloads(f.ltype, items, 0), e);
    } else {
      SingleSplits(f, items, k);
      Regroup(TagBytes(f.tag, WireType(f.ltype)), Payload(f.ltype, items[k]), SlotBytes(f, items, k + 1), e);
    }
  }

  /** Setting a field of a oneof unsets the others. */
  function Assign(fields: seq<Field>, dest: seq<Slot>, i: nat, items: Slot): (r: seq<Slot>)
    requires |dest| == |fields| && i < |fields|
    ensures |r| == |fields|
  {
    seq(|fields|, j requires 0 <= j < |fields| =>
      if j == i then items else if fields[i].htype.Oneof? && fields[j].htype == fields[i].htype then [] else dest[j])
  }

  /** The other fields of the oneof are not set anyway. */
  lemma OthersUnset(fields: seq<Field>, m: seq<Slot>, i: nat, k: nat, dest: seq<Slot>, j: nat)
    requires SlotsPartial(fields, m) && Mid(fields, m, i, k, dest) && i < |fields| && m[i] != []
    requires j < |fields| && j != i && fields[i].htype.Oneof? && fields[j].htype == fields[i].htype
    ensures dest[j] == []
  {
    assert m[j] == [];
  }

  lemma AssignElsewhere(fields: seq<Field>, m: seq<Slot>, i: nat, k: nat, dest: seq<Slot>, items: Slot)
    requires SlotsPartial(fields, m) && Mid(fields, m, i, k, dest) && i < |fields| && m[i] != []
    ensures Assign(fields, dest, i, items) == dest[i := items]
  {
    forall j | 0 <= j < |fields| && j != i ensures Assign(fields, dest, i, items)[j] == dest[j] {
      if fields[i].htype.Oneof? && fields[j].htype == fields[i].htype {
        OthersUnset(fields, m, i, k, dest, j);
      }
    }
  }

  lemma AssignMid(fields: seq<Field>, m: seq<Slot>, i: nat, k: nat, dest: seq<Slot>, items: Slot, k': nat)
    requires SlotsPartial(fields, m) && Mid(fields, m, i, k, dest) && i < |fields| && k < k' <= |m[i]|
        && items == SlotFilled(fields[i], m[i][..k'])
    requires fields[i].htype.Repeated? && Packable(fields[i].ltype) ==> k' == |m[i]|
    ensures fields[i].htype.Repeated? && Packable(fields[i].ltype) ==>
        Mid(fields, m, i + 1, 0, Assign(fields, dest, i, items))
    ensures !(fields[i].htype.Repeated? && Packable(fields[i].ltype)) ==>
        Mid(fields, m, i, k', Assign(fields, dest, i, items))
  {
    AssignElsewhere(fields, m, i, k, dest, items);
    assert m[i][..|m[i]|] == m[i];
  }

  lemma AssignShape(fields: seq<Field>, dest: seq<Slot>, i: nat, items: Slot)
    requires ShapesOk(fields, dest) && i < |fields| && SlotShapeOk(fields[i], items)
    ensures ShapesOk(fields, Assign(fields, dest, i, items))
  {
    forall j | 0 <= j < |fields| ensures SlotShapeOk(fields[j], Assign(fields, dest, i, items)[j]) {
      assert SlotShapeOk(fields[j], dest[j]);
    }
  }

  method DecodeTag(s: IStream, ghost tag0: nat, ghost wireType0: nat)
      returns (ok: bool, tag: nat, wireType: nat, eof: bool, s': IStream)
    ensures Forward(s, s') && (ok ==> s'.pos > s.pos)
    ensures 0 < tag0 < 0x2000_0000 && wireType0 < 8 && Next(s, TagBytes(tag0, wireType0)) ==>
      ok && tag == tag0 && wireType == wireType0 && Past(s, TagBytes(tag0, wireType0), s')
  {
    var temp;
    ok, temp, eof, s' := DecodeVarint32(s, tag0 * 8 + wireType0);
    if ok && temp == 0 {
      ok, eof := false, true;
    }
    tag, wireType := temp / 8, temp % 8;
  }

  /** pb_skip_varint */
  method SkipVarint(s: IStream, ghost v: nat) returns (ok: bool, s': IStream)
    ensures Forward(s, s')
    ensures var g := Groups(s.data, s.pos, s.end); (ok <==> g.Some?) && (ok ==> s'.pos == g.value.next)
    ensures Next(s, Varint(v)) ==> ok && Past(s, Varint(v), s')
  {
    if Next(s, Varint(v)) {
      GroupsOfCode(s.data, s.pos, s.end, v);
    }
    s' := s;
    while s'.pos < s'.end
      invariant Forward(s, s')
      invariant var g, h := Groups(s.data, s.pos, s.end), Groups(s.data, s'.pos, s.end);
        (g.Some? <==> h.Some?) && (g.Some? ==> g.value.next == h.value.next)
      decreases s'.end - s'.pos
    {
      s' := s'.(pos := s'.pos + 1);
      if s'.data[s'.pos - 1] < 128 {
        return true, s';
      }
    }
    return false, s';
  }

  /** What a length-delimited item holds. */
  function Body(lt: LType, v: Value): Bytes {
    if lt.SubmessageT? then if v.Message? then Encoding(lt.fields, v.slots) else [] else if v.Data? then v.bytes else []
  }

  /** pb_skip_field: past an item, whatever its type. */
  method SkipField(s: IStream, wireType: nat, ghost lt: LType, ghost v: Value) returns (ok: bool, s': IStream)
    ensures Forward(s, s')
    ensures wireType == WireType(lt) && TypeOk(lt) && ValueOk(lt, v) && Next(s, Payload(lt, v)) ==>
        ok && Past(s, Payload(lt, v), s')
  {
    ghost var good := wireType == WireType(lt) && TypeOk(lt) && ValueOk(lt, v) && Next(s, Payload(lt, v));
    if wireType == WT_VARINT {
      if good { NumberBack(lt, v); }
      ok, s' := SkipVarint(s, if good then NumberOf(lt, v) else 0);
      return;
    }
    var bytes;
    if wireType == WT_64BIT {
      ok, bytes, s' := Read(s, 8);
    } else if wireType == WT_STRING {
      var sub;
      if good { NextSplits(s, Varint(|Body(lt, v)|), Body(lt, v)); }
      ok, sub, s' := MakeSubstream(s, |Body(lt, v)|);
    } else if wireType == WT_32BIT {
      ok, bytes, s' := Read(s, 4);
    } else {
      return false, s;
    }
  }

  /** Of the required fields that are tracked, those up to here that are not missing have been seen, and no others. */
  ghost predicate SeenUpTo(fields: seq<Field>, m: seq<Slot>, i: nat, k: nat, seen: set<nat>) {
    forall j :: 0 <= j < |fields| && j < |m| && IsTracked(fields, j) ==>
      (RequiredBefore(fields, j) in seen <==> m[j] != [] && (j < i || (j == i && k > 0)))
  }

  /** The strings in what has been read leave room for their ends. */
  ghost predicate EndsUpTo(fields: seq<Field>, m: seq<Slot>, i: nat, k: nat) {
    && |m| == |fields| && i <= |fields| && (i < |fields| ==> k <= |m[i]|)
    && (forall j :: 0 <= j < i ==> SlotReads(fields[j], m[j]))
    && (i < |fields| ==> forall l :: 0 <= l < k ==> ValueReads(fields[i].ltype, m[i][l]))
  }

  lemma EndsNext(fields: seq<Field>, m: seq<Slot>, i: nat, k: nat)
    requires EndsUpTo(fields, m, i, k) && i < |fields| && k == |m[i]|
    ensures EndsUpTo(fields, m, i + 1, 0)
  {
  }

  lemma PackableEnds(f: Field, items: Slot)
    requires Packable(f.ltype)
    ensures SlotReads(f, items)
  {
    forall k | 0 <= k < |items| ensures ValueReads(f.ltype, items[k]) {
    }
  }

  lemma EndsThis(fields: seq<Field>, m: seq<Slot>, i: nat, k: nat)
    requires EndsUpTo(fields, m, i, k) && i < |fields| && k < |m[i]|
    ensures ValueReads(fields[i].ltype, m[i][k]) ==> EndsUpTo(fields, m, i, k + 1)
    ensures !ValueReads(fields[i].ltype, m[i][k]) ==> !SlotsRead(fields, m)
    ensures IsPacked(fields[i]) ==> EndsUpTo(fields, m, i + 1, 0) && ValueReads(fields[i].ltype, m[i][k])
  {
    if !ValueReads(fields[i].ltype, m[i][k]) {
      assert !SlotReads(fields[i], m[i]);
    }
    if IsPacked(fields[i]) {
      PackableEnds(fields[i], m[i]);
    }
  }

  datatype Status = More | Stop | Fail

  /** What the loop has read of message m. */
  ghost predicate Track(fields: seq<Field>, m: seq<Slot>, i: nat, k: nat, dest: seq<Slot>, seen: set<nat>) {
    && SlotsPartial(fields, m) && Mid(fields, m, i, k, dest) && SeenUpTo(fields, m, i, k, seen)
    && EndsUpTo(fields, m, i, k)
  }

  /** Item k of field i comes next, and then tail. */
  ghost predicate AtItem(s: IStream, fields: seq<Field>, m: seq<Slot>, i: nat, k: nat, dest: seq<Slot>,
      seen: set<nat>, tail: Bytes) {
    && Track(fields, m, i, k, dest, seen) && i < |fields| && k < |m[i]|
    && Exactly(s, TagBytes(fields[i].tag, FieldWire(fields[i])) + (Content(fields[i], m[i], k) + tail))
  }

  /** The place after item k of field i. */
  function AfterItem(fields: seq<Field>, i: nat, k: nat): (nat, nat)
    requires i < |fields|
  {
    if IsPacked(fields[i]) then (i + 1, 0) else (i, k + 1)
  }

  /** An item that can be skipped comes next, and n is the place after it. */
  ghost predicate ItemNext(s: IStream, lt: LType, v: Value, n: nat) {
    forall k {:trigger Unfold(k)} :: k == IN_ITEM && Unfold(k) ==>
        TypeOk(lt) && ValueOk(lt, v) && Next(s, Payload(lt, v)) && n == s.pos + |Payload(lt, v)|
  }

  /** A field, its item, and the place in the stream after it. */
  datatype Unknown = Unknown(field: Field, value: Value, end: nat)

  /** Next comes a well-formed field that the table does not have. */
  ghost predicate UnknownNext(s: IStream, fields: seq<Field>, x: Unknown) {
    var tag := TagBytes(x.field.tag, WireType(x.field.ltype));
    && 0 < x.field.tag < 0x2000_0000 && (forall i :: 0 <= i < |fields| ==> fields[i].tag != x.field.tag)
    && Next(s, tag) && forall s1 :: Past(s, tag, s1) ==> ItemNext(s1, x.field.ltype, x.value, x.end)
  }

  lemma IsUnknownNext(s: IStream, fields: seq<Field>, x: Unknown)
    requires FieldOk(x.field) && ValueOk(x.field.ltype, x.value) && forall i :: 0 <= i < |fields| ==>
        fields[i].tag != x.field.tag
    requires var e := TagBytes(x.field.tag, WireType(x.field.ltype)) + Payload(x.field.ltype, x.value);
      Next(s, e) && x.end == s.pos + |e|
    ensures UnknownNext(s, fields, x)
  {
    NextSplits(s, TagBytes(x.field.tag, WireType(x.field.ltype)), Payload(x.field.ltype, x.value));
  }

  /** An unknown field is passed over. */
  method SkipUnknown(s: IStream, wireType: nat, ghost unknown: Option<Unknown>) returns (ok: bool, s': IStream)
    ensures Forward(s, s')
    ensures unknown.Some? ==>
      var x := unknown.value;
      wireType == WireType(x.field.ltype) && ItemNext(s, x.field.ltype, x.value, x.end) ==> ok && s'.pos == x.end
  {
    assert Unfold(IN_ITEM);
    ghost var x := if unknown.Some? then unknown.value else Unknown(Field(1, Optional, Fixed32T), Number(0), 0);
    ok, s' := SkipField(s, wireType, x.field.ltype, x.value);
  }

  /** One round of the loop: a tag, its field, and the field's content. */
  method DecodeOne(s: IStream, fields: seq<Field>, dest: seq<Slot>, it: Iter, seen: set<nat>, ghost m: seq<Slot>,
      ghost i: nat, ghost k: nat, ghost tail: Bytes, ghost unknown: Option<Unknown>)
    returns (status: Status, dest': seq<Slot>, it': Iter, seen': set<nat>, s': IStream)
    requires FieldsOk(fields) && ShapesOk(fields, dest) && IterOk(fields, it) && s.pos < s.end
    ensures Forward(s, s') && (status == More ==> s'.pos > s.pos) && ShapesOk(fields, dest') && IterOk(fields, it')
    ensures unknown.None? && AtItem(s, fields, m, i, k, dest, seen, tail) ==>
      || (status == More && Exactly(s', tail)
          && Track(fields, m, AfterItem(fields, i, k).0, AfterItem(fields, i, k).1, dest', seen'))
      || (status == Fail && !SlotsRead(fields, m))
    ensures unknown.Some? && UnknownNext(s, fields, unknown.value) ==>
        status == More && dest' == dest && seen' == seen && s'.pos == unknown.value.end
    decreases fields, 1
  {
    dest', it', seen', s' := dest, it, seen, s;
    ghost var good := unknown.None? && AtItem(s, fields, m, i, k, dest, seen, tail);
    ghost var tag0, wt0 := 0, 0;
    if good {
      tag0, wt0 := ItemTag(s, fields, m, i, k, dest, seen, tail);
    } else if unknown.Some? {
      tag0, wt0 := unknown.value.field.tag, WireType(unknown.value.field.ltype);
    }
    var ok, tag, wireType, eof, s1 := DecodeTag(s, tag0, wt0);
    s' := s1;
    if !ok {
      return if eof then Stop else Fail, dest, it, seen, s';
    }
    var found;
    found, it' := IterFind(fields, it, tag);
    if !found {
      ok, s' := SkipUnknown(s1, wireType, unknown);
      return if ok then More else Fail, dest, it', seen, s';
    }
    if good { ReachContent(s, s1, fields, m, i, k, dest, it', seen, wireType, tail); }
    ok, dest', seen', s' := DecodeAt(s1, fields, wireType, dest, it', seen, m, i, k, tail);
    status := if ok then More else Fail;
  }

  /** After the tag of a known field. */
  method DecodeAt(s: IStream, fields: seq<Field>, wireType: nat, dest: seq<Slot>, it: Iter, seen: set<nat>,
      ghost m: seq<Slot>, ghost i: nat, ghost k: nat, ghost tail: Bytes)
    returns (ok: bool, dest': seq<Slot>, seen': set<nat>, s': IStream)
    requires FieldsOk(fields) && ShapesOk(fields, dest) && IterOk(fields, it) && it.pos < |fields|
    ensures Forward(s, s') && (ok ==> s'.pos > s.pos) && ShapesOk(fields, dest')
    ensures AtContent(s, fields, wireType, dest, it, seen, m, i, k, tail) ==>
        if ok then Exactly(s', tail)
          && Track(fields, m, AfterItem(fields, i, k).0, AfterItem(fields, i, k).1, dest', seen')
        else !SlotsRead(fields, m)
    decreases fields, 0
  {
    ghost var good := AtContent(s, fields, wireType, dest, it, seen, m, i, k, tail);
    var f := fields[it.pos];
    seen' := seen;
    if f.htype.Required? && it.required < MAX_REQUIRED_FIELDS {
      seen' := seen + {it.required};
    }
    if good {
      ContentNext(s, fields, m, i, k, dest);
      EndsThis(fields, m, i, k);
    }
    assert SlotShapeOk(f, dest[it.pos]);
    var items;
    ok, items, s' := DecodeField(s, f, wireType, dest[it.pos], if good then m[i] else [], k);
    AssignShape(fields, dest, it.pos, items);
    dest' := Assign(fields, dest, it.pos, items);
    if good && ok { FieldDone(fields, m, i, k, dest, items, seen, seen'); }
  }

  /** The content of field i comes next, from item k on. */
  ghost predicate AtContent(s: IStream, fields: seq<Field>, wireType: nat, dest: seq<Slot>, it: Iter, seen: set<nat>,
      m: seq<Slot>, i: nat, k: nat, tail: Bytes) {
    && i == it.pos && Track(fields, m, i, k, dest, seen) && i < |fields| && k < |m[i]|
    && wireType == FieldWire(fields[i]) && Next(s, Content(fields[i], m[i], k))
    && forall s2 :: Past(s, Content(fields[i], m[i], k), s2) ==> Exactly(s2, tail)
  }

  lemma SameField(fields: seq<Field>, i: nat, j: nat)
    requires FieldsOk(fields) && i < |fields| && j < |fields| && fields[i].tag == fields[j].tag
    ensures i == j
  {
  }

  /** Passing over a complete field keeps the account of required ones. */
  lemma SeenNext(fields: seq<Field>, m: seq<Slot>, i: nat, k: nat, seen: set<nat>)
    requires i < |fields| == |m| && k == |m[i]| && SeenUpTo(fields, m, i, k, seen)
    ensures SeenUpTo(fields, m, i + 1, 0, seen)
  {
  }

  lemma TagFollows(s: IStream, t: Bytes, c: Bytes, tail: Bytes)
    requires Exactly(s, t + (c + tail))
    ensures Next(s, t) && forall s1 :: Past(s, t, s1) ==> Next(s1, c) && forall s2 :: Past(s1, c, s2) ==>
        Exactly(s2, tail)
  {
    NextSplits(s, t, c + tail);
    forall s1 | Past(s, t, s1) ensures Next(s1, c) && forall s2 :: Past(s1, c, s2) ==> Exactly(s2, tail) {
      NextSplits(s1, c, tail);
    }
  }

  /** The tag of the next item. */
  lemma ItemTag(s: IStream, fields: seq<Field>, m: seq<Slot>, i: nat, k: nat, dest: seq<Slot>, seen: set<nat>,
      tail: Bytes)
    returns (tag: nat, wireType: nat)
    requires AtItem(s, fields, m, i, k, dest, seen, tail) && FieldsOk(fields)
    ensures tag == fields[i].tag && wireType == FieldWire(fields[i]) && Next(s, TagBytes(tag, wireType))
        && 0 < tag < 0x2000_0000 && wireType < 8
  {
    tag, wireType := fields[i].tag, FieldWire(fields[i]);
    TagFollows(s, TagBytes(tag, wireType), Content(fields[i], m[i], k), tail);
    assert FieldOk(fields[i]);
  }

  lemma ReachContent(s: IStream, s1: IStream, fields: seq<Field>, m: seq<Slot>, i: nat, k: nat, dest: seq<Slot>,
      it: Iter, seen: set<nat>, wireType: nat, tail: Bytes)
    requires AtItem(s, fields, m, i, k, dest, seen, tail) && FieldsOk(fields)
    requires it.pos < |fields| && fields[it.pos].tag == fields[i].tag && wireType == FieldWire(fields[i])
    requires Past(s, TagBytes(fields[i].tag, wireType), s1)
    ensures AtContent(s1, fields, wireType, dest, it, seen, m, i, k, tail)
  {
    SameField(fields, it.pos, i);
    TagFollows(s, TagBytes(fields[i].tag, wireType), Content(fields[i], m[i], k), tail);
  }

  /** At the content of a field, the decoder's expectations are met. */
  lemma ContentNext(s1: IStream, fields: seq<Field>, m: seq<Slot>, i: nat, k: nat, dest: seq<Slot>)
    requires SlotsPartial(fields, m) && Mid(fields, m, i, k, dest) && i < |fields| && k < |m[i]|
        && Next(s1, Content(fields[i], m[i], k))
    ensures var f := fields[i];
      if IsPacked(f) then PackedNext(s1, f, WT_STRING, dest[i], m[i])
          else SingleNext(s1, f, WireType(f.ltype), dest[i], m[i], k)
  {
    assert SlotPartial(fields[i], m[i]);
  }

  lemma FieldDone(fields: seq<Field>, m: seq<Slot>, i: nat, k: nat, dest: seq<Slot>, items: Slot,
      seen: set<nat>, seen': set<nat>)
    requires Track(fields, m, i, k, dest, seen) && i < |fields| && k < |m[i]| && ValueReads(fields[i].ltype, m[i][k])
    requires items == if IsPacked(fields[i]) then m[i] else SlotFilled(fields[i], m[i][..k + 1])
    requires seen' == if IsTracked(fields, i) then seen + {RequiredBefore(fields, i)} else seen
    ensures var (i', k') := AfterItem(fields, i, k);
      Track(fields, m, i', k', Assign(fields, dest, i, items), seen')
  {
    if IsPacked(fields[i]) {
      FilledPackable(fields[i], m[i]);
      assert m[i][..|m[i]|] == m[i];
    }
    AssignMid(fields, m, i, k, dest, items, if IsPacked(fields[i]) then |m[i]| else k + 1);
    SeenThis(fields, m, i, k, seen, seen');
    EndsThis(fields, m, i, k);
  }

  lemma RestAfter(fields: seq<Field>, m: seq<Slot>, i: nat, k: nat)
    requires i < |fields| == |m|
    ensures After(fields, m, i, k) == if IsPacked(fields[i]) then Rest(fields, m, i + 1, 0)
        else Rest(fields, m, i, k + 1)
  {
    assert EncodeFrom(fields, m, |fields|) == [];
  }

  lemma SeenThis(fields: seq<Field>, m: seq<Slot>, i: nat, k: nat, seen: set<nat>, seen': set<nat>)
    requires i < |fields| == |m| && k < |m[i]| && SeenUpTo(fields, m, i, k, seen)
    requires seen' == if IsTracked(fields, i) then seen + {RequiredBefore(fields, i)} else seen
    ensures SeenUpTo(fields, m, i, k + 1, seen') && (IsPacked(fields[i]) ==> SeenUpTo(fields, m, i + 1, 0, seen'))
  {
    forall j | 0 <= j < |fields| && j != i && IsTracked(fields, j) && IsTracked(fields, i)
      ensures RequiredBefore(fields, j) != RequiredBefore(fields, i)
    {
      RequiredDiffer(fields, i, j);
    }
  }

  /** No two required fields have the same number. */
  lemma RequiredDiffer(fields: seq<Field>, i: nat, j: nat)
    requires i < |fields| && j < |fields| && i != j && fields[i].htype.Required? && fields[j].htype.Required?
    ensures RequiredBefore(fields, i) != RequiredBefore(fields, j)
  {
    if i < j {
      RequiredGrows(fields, i + 1, j);
    } else {
      RequiredGrows(fields, j + 1, i);
    }
  }

  // ----- required fields -----

  /** Every required field that is tracked has been seen. */
  ghost predicate AllSeen(fields: seq<Field>, seen: set<nat>) {
    forall j :: 0 <= j < |fields| && IsTracked(fields, j) ==> RequiredBefore(fields, j) in seen
  }

  lemma {:induction false} RequiredGrows(fields: seq<Field>, i: nat, j: nat)
    requires i <= j <= |fields|
    ensures RequiredBefore(fields, i) <= RequiredBefore(fields, j)
    decreases j
  {
    if i < j { RequiredGrows(fields, i, j - 1); }
  }

  /** The required fields are numbered without gaps. */
  lemma {:induction false} Numbered(fields: seq<Field>, i: nat, n: nat) returns (j: nat)
    requires i <= |fields| && n < RequiredBefore(fields, i)
    ensures j < i && fields[j].htype.Required? && RequiredBefore(fields, j) == n
    decreases i
  {
    if n < RequiredBefore(fields, i - 1) {
      j := Numbered(fields, i - 1, n);
    } else {
      j := i - 1;
    }
  }

  /** The end of pb_decode_noinit: count the required fields by going on to the end, then look for each. */
  method CheckRequired(fields: seq<Field>, it: Iter, seen: set<nat>) returns (ok: bool)
    requires IterOk(fields, it)
    ensures ok <==> AllSeen(fields, seen)
  {
    var it' := it;
    var count := it.required;
    var last := it.pos;
    var more := fields != [];
    while more
      invariant IterOk(fields, it') && (more ==> fields != [])
      invariant fields == [] ==> count == 0
      invariant !more && fields != [] ==> last == |fields| - 1 && count == RequiredBefore(fields, last)
      decreases more, |fields| - it'.pos
    {
      count, last := it'.required, it'.pos;
      more, it' := IterNext(fields, it');
    }
    assert fields != [] ==>
        RequiredBefore(fields, |fields|) == RequiredBefore(fields, |fields| - 1) + if fields[last].htype.Required?
        then 1 else 0;
    if fields != [] && fields[last].htype.Required? {
      count := count + 1;
    }
    assert count == RequiredBefore(fields, |fields|);
    if count > MAX_REQUIRED_FIELDS {
      count := MAX_REQUIRED_FIELDS;
    }
    AllCounted(fields, count, seen);
    ok := forall n | 0 <= n < count :: n in seen;
  }

  lemma AllCounted(fields: seq<Field>, count: nat, seen: set<nat>)
    requires var total := RequiredBefore(fields, |fields|); count == if total > MAX_REQUIRED_FIELDS
        then MAX_REQUIRED_FIELDS else total
    ensures (forall n | 0 <= n < count :: n in seen) <==> AllSeen(fields, seen)
  {
    forall j | 0 <= j < |fields|
        && fields[j].htype.Required? ensures RequiredBefore(fields, j) < RequiredBefore(fields, |fields|) {
      RequiredGrows(fields, j + 1, |fields|);
    }
    if AllSeen(fields, seen) {
      forall n | 0 <= n < count ensures n in seen {
        var j := Numbered(fields, |fields|, n);
      }
    }
  }

  // ----- messages with unknown fields in between -----

  /** What comes next in a message with unknown fields: the next item of a known field, or an unknown field. */
  datatype Piece = Known | Extra(field: Field, value: Value)

  /** Unknown fields are well-formed and have tags of their own. */
  ghost predicate PiecesOk(fields: seq<Field>, pieces: seq<Piece>) {
    forall j :: 0 <= j < |pieces| && pieces[j].Extra? ==>
      && FieldOk(pieces[j].field) && ValueOk(pieces[j].field.ltype, pieces[j].value)
      && forall i :: 0 <= i < |fields| ==> fields[i].tag != pieces[j].field.tag
  }

  /** The encoding of m from item k of field i on, with unknown fields in between where pieces has them. */
  function Mixed(fields: seq<Field>, m: seq<Slot>, i: nat, k: nat, pieces: seq<Piece>): Bytes
    requires |fields| == |m|
    decreases |pieces|
  {
    if pieces == [] then Rest(fields, m, i, k) else
    match pieces[0]
    case Extra(f, v) => (TagBytes(f.tag, WireType(f.ltype)) + Payload(f.ltype, v)) + Mixed(fields, m, i, k, pieces[1..])
    case Known =>
      var (i', k') := Place(fields, m, i, k);
      if i' >= |fields| || k' >= |m[i']| then Mixed(fields, m, i', k', pieces[1..]) else
      var (i'', k'') := AfterItem(fields, i', k');
      TagBytes(fields[i'].tag, FieldWire(fields[i']))
      + (Content(fields[i'], m[i'], k') + Mixed(fields, m, i'', k'', pieces[1..]))
  }

  /** Without unknown fields that is the encoding. */
  lemma PlainMix(fields: seq<Field>, m: seq<Slot>)
    requires |fields| == |m|
    ensures Mixed(fields, m, 0, 0, []) == Encoding(fields, m)
  {
  }

  /** Everything that the loop keeps track of when the stream holds message m. */
  ghost predicate OnTrack(s: IStream, fields: seq<Field>, m: seq<Slot>, i: nat, k: nat, dest: seq<Slot>,
      seen: set<nat>, pieces: seq<Piece>) {
    && Track(fields, m, i, k, dest, seen) && PiecesOk(fields, pieces)
    && |fields| == |m| && Exactly(s, Mixed(fields, m, i, k, pieces))
  }

  lemma RestIsItem(s: IStream, fields: seq<Field>, m: seq<Slot>, i: nat, k: nat, dest: seq<Slot>, seen: set<nat>)
    requires OnTrack(s, fields, m, i, k, dest, seen, []) && i < |fields| && k < |m[i]|
    ensures var (i', k') := AfterItem(fields, i, k);
      AtItem(s, fields, m, i, k, dest, seen, Mixed(fields, m, i', k', []))
  {
    RestSplits(fields, m, i, k);
    RestAfter(fields, m, i, k);
  }

  /** An unknown field comes next. */
  lemma ExtraNext(s: IStream, fields: seq<Field>, m: seq<Slot>, i: nat, k: nat, dest: seq<Slot>, seen: set<nat>,
      pieces: seq<Piece>) returns (x: Unknown)
    requires OnTrack(s, fields, m, i, k, dest, seen, pieces) && pieces != [] && pieces[0].Extra?
    ensures UnknownNext(s, fields, x)
    ensures forall s' :: Forward(s, s') && s'.pos == x.end ==> OnTrack(s', fields, m, i, k, dest, seen, pieces[1..])
  {
    var f, v := pieces[0].field, pieces[0].value;
    var e, rest := TagBytes(f.tag, WireType(f.ltype)) + Payload(f.ltype, v), Mixed(fields, m, i, k, pieces[1..]);
    NextSplits(s, e, rest);
    x := Unknown(f, v, s.pos + |e|);
    IsUnknownNext(s, fields, x);
    PiecesTail(fields, pieces);
    forall s' | Forward(s, s') && s'.pos == x.end ensures Exactly(s', rest) {
      assert Past(s, e, s');
    }
  }

  lemma PiecesTail(fields: seq<Field>, pieces: seq<Piece>)
    requires PiecesOk(fields, pieces)
    ensures pieces != [] ==> PiecesOk(fields, pieces[1..])
  {
    if pieces != [] {
      assert forall j :: 0 <= j < |pieces| - 1 ==> pieces[1..][j] == pieces[j + 1];
    }
  }

  /** When no more unknown fields come, something is left only if an item is. */
  lemma LastKnownNext(s: IStream, fields: seq<Field>, m: seq<Slot>, i: nat, k: nat, dest: seq<Slot>, seen: set<nat>)
      returns (i': nat, k': nat)
    requires OnTrack(s, fields, m, i, k, dest, seen, []) && s.pos < s.end
    ensures i' < |fields| == |m|
    ensures var (i'', k'') := AfterItem(fields, i', k');
      AtItem(s, fields, m, i', k', dest, seen, Mixed(fields, m, i'', k'', []))
  {
    i', k' := SkipDone(fields, m, i, k, dest, seen);
    RestIsItem(s, fields, m, i', k', dest, seen);
  }

  /** An item of a known field comes next, or there is none left. */
  lemma KnownNext(s: IStream, fields: seq<Field>, m: seq<Slot>, i: nat, k: nat, dest: seq<Slot>, seen: set<nat>,
      pieces: seq<Piece>) returns (i': nat, k': nat)
    requires OnTrack(s, fields, m, i, k, dest, seen, pieces) && pieces != [] && pieces[0].Known?
    requires PiecesOk(fields, pieces[1..])
    ensures i' < |fields| == |m| ==> var (i'', k'') := AfterItem(fields, i', k');
        AtItem(s, fields, m, i', k', dest, seen, Mixed(fields, m, i'', k'', pieces[1..]))
    ensures i' >= |fields| == |m| ==> OnTrack(s, fields, m, i', k', dest, seen, pieces[1..])
  {
    i', k' := SkipDone(fields, m, i, k, dest, seen);
  }

  /** What the next round of the loop reads: an unknown field, or item k' of field i'; tail comes after that. */
  lemma {:induction false} NextPiece(s: IStream, fields: seq<Field>, m: seq<Slot>, i: nat, k: nat, dest: seq<Slot>,
      seen: set<nat>, pieces: seq<Piece>)
    returns (i': nat, k': nat, pieces': seq<Piece>, x: Option<Unknown>)
    requires OnTrack(s, fields, m, i, k, dest, seen, pieces) && s.pos < s.end
    ensures |fields| == |m| && PiecesOk(fields, pieces')
    ensures x.Some? ==> UnknownNext(s, fields, x.value) && forall s' :: Forward(s, s') && s'.pos == x.value.end ==>
        OnTrack(s', fields, m, i', k', dest, seen, pieces')
    ensures x.None? ==> i' < |fields| && var (i'', k'') := AfterItem(fields, i', k');
        AtItem(s, fields, m, i', k', dest, seen, Mixed(fields, m, i'', k'', pieces'))
    decreases |pieces|
  {
    PiecesTail(fields, pieces);
    i', k', pieces', x := i, k, if pieces == [] then [] else pieces[1..], None;
    if pieces == [] {
      i', k' := LastKnownNext(s, fields, m, i, k, dest, seen);
    } else if pieces[0].Extra? {
      var u := ExtraNext(s, fields, m, i, k, dest, seen, pieces);
      x := Some(u);
    } else {
      i', k' := KnownNext(s, fields, m, i, k, dest, seen, pieces);
      if i' >= |fields| {
        i', k', pieces', x := NextPiece(s, fields, m, i', k', dest, seen, pieces');
      }
    }
  }

  /** When nothing is left to read, everything has been read. */
  lemma {:induction false} Ends(s: IStream, fields: seq<Field>, m: seq<Slot>, i: nat, k: nat, dest: seq<Slot>,
      seen: set<nat>, pieces: seq<Piece>)
    requires OnTrack(s, fields, m, i, k, dest, seen, pieces) && s.pos == s.end
    ensures dest == SlotsFilled(fields, m) && SlotsRead(fields, m)
    ensures AllSeen(fields, seen) <==> NoneMissing(fields, m)
    decreases |pieces|
  {
    var i', k' := SkipDone(fields, m, i, k, dest, seen);
    if pieces != [] {
      assert pieces[0].Known? && i' >= |fields|;
      PiecesTail(fields, pieces);
      Ends(s, fields, m, i', k', dest, seen, pieces[1..]);
    }
  }

  // ----- the loop -----

  lemma Begins(s: IStream, fields: seq<Field>, m: seq<Slot>, pieces: seq<Piece>)
    requires SlotsPartial(fields, m) && PiecesOk(fields, pieces) && Exactly(s, Mixed(fields, m, 0, 0, pieces))
    ensures OnTrack(s, fields, m, 0, 0, Defaults(fields), {}, pieces)
  {
  }

  /** The stream holds message m, with unknown fields in between where pieces has them. */
  ghost predicate HoldsMessage(s: IStream, fields: seq<Field>, m: seq<Slot>, pieces: seq<Piece>) {
    SlotsPartial(fields, m) && PiecesOk(fields, pieces) && Exactly(s, Mixed(fields, m, 0, 0, pieces))
  }

  lemma HoldsEncoding(s: IStream, fields: seq<Field>, m: seq<Slot>)
    requires SlotsPartial(fields, m) && Exactly(s, Encoding(fields, m))
    ensures HoldsMessage(s, fields, m, [])
  {
    PlainMix(fields, m);
  }

  /** pb_decode_noinit: decodes whatever comes; and an encoded message, whatever unknown fields are put in between, to
      that message. */
  method Decode(s: IStream, fields: seq<Field>, base: seq<Slot>, ghost m: seq<Slot>, ghost pieces: seq<Piece>)
      returns (ok: bool, dest: seq<Slot>, s': IStream)
    requires FieldsOk(fields) && ShapesOk(fields, base)
    ensures Forward(s, s') && ShapesOk(fields, dest)
    ensures base == Defaults(fields) && HoldsMessage(s, fields, m, pieces) ==>
      if SlotsRead(fields, m) && NoneMissing(fields, m) then ok && dest == SlotsFilled(fields, m) && s'.pos == s'.end
      else !ok
    decreases fields, 2
  {
    ghost var good := base == Defaults(fields) && HoldsMessage(s, fields, m, pieces);
    if good { Begins(s, fields, m, pieces); }
    dest, s' := base, s;
    var it, seen := Iter(0, 0), {};
    ghost var i, k, left := 0, 0, pieces;
    var status := More;
    while s'.pos < s'.end && status == More
      invariant Forward(s, s') && ShapesOk(fields, dest) && IterOk(fields, it)
      invariant good ==>
          || (status == More && OnTrack(s', fields, m, i, k, dest, seen, left))
          || (status == Fail && !SlotsRead(fields, m))
      decreases s'.end - s'.pos, status == More
    {
      ghost var x: Option<Unknown> := None;
      ghost var tail: Bytes := [];
      if good {
        i, k, left, x := NextPiece(s', fields, m, i, k, dest, seen, left);
        if x.None? { tail := Mixed(fields, m, AfterItem(fields, i, k).0, AfterItem(fields, i, k).1, left); }
      }
      status, dest, it, seen, s' := DecodeOne(s', fields, dest, it, seen, m, i, k, tail, x);
      if good && x.None? { i, k := AfterItem(fields, i, k).0, AfterItem(fields, i, k).1; }
    }
    if status == Fail {
      return false, dest, s';
    }
    if good { Ends(s', fields, m, i, k, dest, seen, left); }
    ok := CheckRequired(fields, it, seen);
  }

  /** Into n bytes a message encodes exactly if it keeps to its field table and n is at least the encoded size.  What
      was written for a well-formed message decodes exactly if no string fills its array, and then to that message. */
  method RoundTrip(fields: seq<Field>, m: seq<Slot>, n: nat) returns (fits: bool, ok: bool, m': seq<Slot>)
    requires FieldsOk(fields) && SlotsTyped(fields, m)
    ensures fits <==> SlotsFit(fields, m) && |Encoding(fields, m)| <= n
    ensures SlotsOk(fields, m) && fits ==> (ok <==> SlotsEnd(fields, m)) && (ok ==> m' == m)
  {
    if SlotsOk(fields, m) {
      OkFits(fields, m);
      OkSlots(fields, m);
    }
    var o;
    fits, o := PbEncode.Encode(PbEncode.Stream(false, [], n, 0), fields, m);
    ok, m' := false, [];
    if fits {
      assert o.buffer == Encoding(fields, m);
      DefaultsShape(fields);
      var rest;
      if SlotsOk(fields, m) { HoldsEncoding(Stream(o.buffer, 0, |o.buffer|), fields, m); }
      ok, m', rest := Decode(Stream(o.buffer, 0, |o.buffer|), fields, Defaults(fields), m, []);
    }
  }

  /** A message that encodes and does not decode: a string of one byte in an array of one byte. */
  lemma FullStringIsLost()
    ensures var fields, m := [Field(1, Required, StringT(1))], [[Data([65])]];
      FieldsOk(fields) && SlotsOk(fields, m) && SlotsTyped(fields, m) && SlotsFit(fields, m) && !SlotsEnd(fields, m)
  {
    var f, v := Field(1, Required, StringT(1)), Data([65]);
    assert FieldOk(f) && ValueOk(f.ltype, v) && SlotOk(f, [v]);
    OkFits([f], [[v]]);
    assert !ValueEnds(f.ltype, [v][0]) && !SlotEnds(f, [v]) && !SlotEnds([f][0], [[v]][0]);
  }
}
