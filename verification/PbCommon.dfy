/** Protocol buffer messages described by field tables, and what they look like encoded
    (nanopb: pb.h, pb_common.c; "Base 128 Varints", "Signed Integers" and "Packed Repeated Fields" of the Protocol
    Buffers Encoding specification). */
module PbCommon {
  import opened Varints

  /** How one item is stored and encoded.  size is data_size in bytes; strings need a byte for their end. */
  datatype LType =
    | VarintT(size: nat) | UvarintT(size: nat) | SvarintT(size: nat) | Fixed32T | Fixed64T
    | BytesT(max: nat) | StringT(max: nat) | FixedBytesT(length: nat) | SubmessageT(fields: seq<Field>)

  datatype HType = Required | Optional | Repeated(max: nat) | Oneof(group: nat)

  datatype Field = Field(tag: nat, htype: HType, ltype: LType)

  datatype Value = Number(n: int) | Data(bytes: Bytes) | Message(slots: seq<Slot>)

  /** What a message holds for one field: no item, one, or as many as there are. */
  type Slot = seq<Value>

  const WT_VARINT: nat := 0
  const WT_64BIT: nat := 1
  const WT_STRING: nat := 2
  const WT_32BIT: nat := 5

  function WireType(lt: LType): nat {
    match lt
    case VarintT(_) | UvarintT(_) | SvarintT(_) => WT_VARINT
    case Fixed32T => WT_32BIT
    case Fixed64T => WT_64BIT
    case _ => WT_STRING
  }

  /** Types whose repeated items share one length-delimited field. */
  predicate Packable(lt: LType) {
    lt.VarintT? || lt.UvarintT? || lt.SvarintT? || lt.Fixed32T? || lt.Fixed64T?
  }

  /** 2^(8 * size) for the sizes there are. */
  function Limit(size: nat): nat {
    if size == 1 then 0x100 else if size == 2 then 0x1_0000 else if size == 4 then LIMIT32
        else if size == 8 then LIMIT64 else 0
  }

  function ZigZag(n: int): nat {
    if n < 0 then -2 * n - 1 else 2 * n
  }

  /** (uint64_t)n */
  function Unsigned(n: int): nat {
    if n < 0 then if n + LIMIT64 >= 0 then n + LIMIT64 else 0 else n
  }

  function Default(lt: LType): Value
    decreases lt
  {
    match lt
    case BytesT(_) | StringT(_) => Data([])
    case FixedBytesT(length) => Data(seq(length, i => 0))
    case SubmessageT(fields) => Message(Defaults(fields))
    case _ => Number(0)
  }

  /** pb_message_set_to_defaults */
  function Defaults(fields: seq<Field>): (r: seq<Slot>)
    ensures |r| == |fields|
    decreases fields
  {
    seq(|fields|, i requires 0 <= i < |fields| => FieldDefault(fields[i]))
  }

  function FieldDefault(f: Field): Slot
    decreases f
  {
    if f.htype.Required? then [Default(f.ltype)] else []
  }

  // ----- well-formed types and messages -----

  predicate TypeOk(lt: LType)
    decreases lt
  {
    match lt
    case VarintT(size) => Limit(size) > 0
    case UvarintT(size) => Limit(size) > 0
    case SvarintT(size) => Limit(size) > 0
    case SubmessageT(fields) => FieldsOk(fields)
    case _ => true
  }

  predicate FieldsOk(fields: seq<Field>)
    decreases fields
  {
    && (forall i :: 0 <= i < |fields| ==> FieldOk(fields[i]))
    && (forall i, j :: 0 <= i < j < |fields| ==> fields[i].tag != fields[j].tag)
  }

  predicate FieldOk(f: Field)
    decreases f
  {
    0 < f.tag < 0x2000_0000 && TypeOk(f.ltype)
  }

  predicate ValueOk(lt: LType, v: Value)
    decreases lt, 0
  {
    match lt
    case VarintT(size) => v.Number? && -(Limit(size) / 2) <= v.n < Limit(size) / 2
    case SvarintT(size) => v.Number? && -(Limit(size) / 2) <= v.n < Limit(size) / 2
    case UvarintT(size) => v.Number? && 0 <= v.n < Limit(size)
    case Fixed32T => v.Number? && 0 <= v.n < LIMIT32
    case Fixed64T => v.Number? && 0 <= v.n < LIMIT64
    case BytesT(max) => v.Data? && |v.bytes| <= max && |v.bytes| < LIMIT32
    case StringT(max) => v.Data? && |v.bytes| <= max && |v.bytes| < LIMIT32 - 1 && forall i :: 0 <= i < |v.bytes| ==>
        v.bytes[i] != 0
    case FixedBytesT(length) => v.Data? && |v.bytes| == length < LIMIT32
    case SubmessageT(fields) => v.Message? && SlotsOk(fields, v.slots) && |EncodeFrom(fields, v.slots, 0)| < LIMIT32
  }

  /** Slots hold what their fields allow, and at most one field of a oneof is set. */
  predicate SlotsOk(fields: seq<Field>, slots: seq<Slot>)
    decreases fields
  {
    && |slots| == |fields|
    && (forall i :: 0 <= i < |fields| ==> SlotOk(fields[i], slots[i]))
    && (forall i, j :: 0 <= i < j < |fields| && fields[i].htype.Oneof? && fields[j].htype == fields[i].htype ==>
        slots[i] == [] || slots[j] == [])
  }

  predicate SlotOk(f: Field, items: Slot)
    decreases f
  {
    && (forall k :: 0 <= k < |items| ==> ValueOk(f.ltype, items[k]))
    && match f.htype
    case Required => |items| == 1
    case Optional => |items| <= 1
    case Oneof(_) => |items| <= 1
    case Repeated(max) => |items| <= max && (Packable(f.ltype) ==> |Payloads(f.ltype, items, 0)| < LIMIT32)
  }

  // ----- what structures can hold, and what the encoder accepts of that -----

  /** The values that the C types have room for: an array of bytes may say any size, an array of items any count. */
  predicate ValueTyped(lt: LType, v: Value)
    decreases lt
  {
    match lt
    case VarintT(size) => v.Number? && -(Limit(size) / 2) <= v.n < Limit(size) / 2
    case SvarintT(size) => v.Number? && -(Limit(size) / 2) <= v.n < Limit(size) / 2
    case UvarintT(size) => v.Number? && 0 <= v.n < Limit(size)
    case Fixed32T => v.Number? && 0 <= v.n < LIMIT32
    case Fixed64T => v.Number? && 0 <= v.n < LIMIT64
    case BytesT(_) => v.Data?
    case StringT(max) => v.Data? && |v.bytes| <= max && forall i :: 0 <= i < |v.bytes| ==> v.bytes[i] != 0
    case FixedBytesT(length) => v.Data? && |v.bytes| == length
    case SubmessageT(fields) => v.Message? && SlotsTyped(fields, v.slots)
  }

  predicate SlotsTyped(fields: seq<Field>, slots: seq<Slot>)
    decreases fields
  {
    |slots| == |fields| && forall i :: 0 <= i < |fields| ==> SlotTyped(fields[i], slots[i])
  }

  predicate SlotTyped(f: Field, items: Slot)
    decreases f
  {
    && (forall k :: 0 <= k < |items| ==> ValueTyped(f.ltype, items[k]))
    && (f.htype.Required? ==> |items| == 1) && (f.htype.Optional? || f.htype.Oneof? ==> |items| <= 1)
  }

  /** Sizes and counts are within what the field allows, here and in submessages. */
  predicate ValueFits(lt: LType, v: Value)
    decreases lt
  {
    match lt
    case BytesT(max) => v.Data? ==> |v.bytes| <= max
    case SubmessageT(fields) => v.Message? ==> SlotsFit(fields, v.slots)
    case _ => true
  }

  predicate SlotsFit(fields: seq<Field>, slots: seq<Slot>)
    decreases fields
  {
    forall i :: 0 <= i < |fields| && i < |slots| ==> SlotFits(fields[i], slots[i])
  }

  predicate SlotFits(f: Field, items: Slot)
    decreases f
  {
    (f.htype.Repeated? ==> |items| <= f.htype.max) && forall k :: 0 <= k < |items| ==> ValueFits(f.ltype, items[k])
  }

  lemma {:induction false} OkValueFits(lt: LType, v: Value)
    requires ValueOk(lt, v)
    ensures ValueTyped(lt, v) && ValueFits(lt, v)
    decreases lt
  {
    if lt.SubmessageT? {
      OkFits(lt.fields, v.slots);
    }
  }

  lemma {:induction false} OkSlotFits(f: Field, items: Slot)
    requires SlotOk(f, items)
    ensures SlotTyped(f, items) && SlotFits(f, items)
    decreases f
  {
    forall k | 0 <= k < |items| ensures ValueTyped(f.ltype, items[k]) && ValueFits(f.ltype, items[k]) {
      OkValueFits(f.ltype, items[k]);
    }
  }

  /** A well-formed message can be encoded. */
  lemma {:induction false} OkFits(fields: seq<Field>, slots: seq<Slot>)
    requires SlotsOk(fields, slots)
    ensures SlotsTyped(fields, slots) && SlotsFit(fields, slots)
    decreases fields
  {
    forall i | 0 <= i < |fields| ensures SlotTyped(fields[i], slots[i]) && SlotFits(fields[i], slots[i]) {
      OkSlotFits(fields[i], slots[i]);
    }
  }

  // ----- strings must leave room for their end -----

  /** The encoder takes a string that fills its array, the decoder wants a place for the byte that ends it. */
  predicate ValueEnds(lt: LType, v: Value)
    decreases lt
  {
    match lt
    case StringT(max) => v.Data? ==> |v.bytes| < max
    case SubmessageT(fields) => v.Message? ==> SlotsEnd(fields, v.slots)
    case _ => true
  }

  predicate SlotsEnd(fields: seq<Field>, slots: seq<Slot>)
    decreases fields
  {
    forall i :: 0 <= i < |fields| && i < |slots| ==> SlotEnds(fields[i], slots[i])
  }

  predicate SlotEnds(f: Field, items: Slot)
    decreases f
  {
    forall k :: 0 <= k < |items| ==> ValueEnds(f.ltype, items[k])
  }

  // ----- the encoding -----

  function Payload(lt: LType, v: Value): Bytes
    decreases lt, 0
  {
    match lt
    case VarintT(_) => if v.Number? then Varint(Unsigned(v.n)) else []
    case UvarintT(_) => if v.Number? && v.n >= 0 then Varint(v.n) else []
    case SvarintT(_) => if v.Number? then Varint(ZigZag(v.n)) else []
    case Fixed32T => if v.Number? && v.n >= 0 then Fixed(v.n) else []
    case Fixed64T => if v.Number? && v.n >= 0 then Fixed64(v.n) else []
    case SubmessageT(fields) => if v.Message?
        then Varint(|EncodeFrom(fields, v.slots, 0)|) + EncodeFrom(fields, v.slots, 0) else []
    case _ => if v.Data? then Varint(|v.bytes|) + v.bytes else []
  }

  /** Payloads of the items from k on. */
  function Payloads(lt: LType, items: Slot, k: nat): Bytes
    decreases lt, 1, |items| - k
  {
    if k >= |items| then [] else Payload(lt, items[k]) + Payloads(lt, items, k + 1)
  }

  function TagBytes(tag: nat, wireType: nat): Bytes {
    Varint(tag * 8 + wireType)
  }

  /** A field from item k on: one length-delimited run if its items can be packed, else a tag for each. */
  function SlotBytes(f: Field, items: Slot, k: nat): Bytes
    decreases f, 0, |items| - k
  {
    if k >= |items| then []
    else if f.htype.Repeated? && Packable(f.ltype) then
      TagBytes(f.tag, WT_STRING) + Varint(|Payloads(f.ltype, items, k)|) + Payloads(f.ltype, items, k)
    else TagBytes(f.tag, WireType(f.ltype)) + Payload(f.ltype, items[k]) + SlotBytes(f, items, k + 1)
  }

  /** The fields from i on, in the order of the table. */
  function EncodeFrom(fields: seq<Field>, slots: seq<Slot>, i: nat): Bytes
    decreases fields, |fields| - i
  {
    if i >= |fields| || i >= |slots| then [] else SlotBytes(fields[i], slots[i], 0) + EncodeFrom(fields, slots, i + 1)
  }

  function Encoding(fields: seq<Field>, slots: seq<Slot>): Bytes {
    EncodeFrom(fields, slots, 0)
  }
}
