/** Messages in which required fields may be missing, and what the decoder makes of them (nanopb: pb_decode.c). */
module PbPartial {
  import opened Varints
  import opened PbCommon

  const MAX_REQUIRED_FIELDS: nat := 64

  function RequiredBefore(fields: seq<Field>, i: nat): nat
    requires i <= |fields|
  {
    if i == 0 then 0 else RequiredBefore(fields, i - 1) + if fields[i - 1].htype.Required? then 1 else 0
  }

  /** Only the first required fields are tracked. */
  predicate IsTracked(fields: seq<Field>, j: nat)
    requires j < |fields|
  {
    fields[j].htype.Required? && RequiredBefore(fields, j) < MAX_REQUIRED_FIELDS
  }

  // ----- well-formed but for required fields that are missing, here or in submessages -----

  predicate ValuePartial(lt: LType, v: Value)
    decreases lt, 0
  {
    match lt
    case SubmessageT(fields) =>
      v.Message? && SlotsPartial(fields, v.slots) && |EncodeFrom(fields, v.slots, 0)| < LIMIT32
    case _ => ValueOk(lt, v)
  }

  predicate SlotsPartial(fields: seq<Field>, slots: seq<Slot>)
    decreases fields
  {
    && |slots| == |fields|
    && (forall i :: 0 <= i < |fields| ==> SlotPartial(fields[i], slots[i]))
    && (forall i, j :: 0 <= i < j < |fields| && fields[i].htype.Oneof? && fields[j].htype == fields[i].htype ==>
        slots[i] == [] || slots[j] == [])
  }

  predicate SlotPartial(f: Field, items: Slot)
    decreases f
  {
    && (forall k :: 0 <= k < |items| ==> ValuePartial(f.ltype, items[k]))
    && match f.htype
    case Required => |items| <= 1
    case Optional => |items| <= 1
    case Oneof(_) => |items| <= 1
    case Repeated(max) => |items| <= max && (Packable(f.ltype) ==> |Payloads(f.ltype, items, 0)| < LIMIT32)
  }

  // ----- with defaults for what is missing -----

  function ValueFilled(lt: LType, v: Value): Value
    decreases lt
  {
    if lt.SubmessageT? && v.Message? then Message(SlotsFilled(lt.fields, v.slots)) else v
  }

  function SlotsFilled(fields: seq<Field>, slots: seq<Slot>): (r: seq<Slot>)
    ensures |r| == |fields|
    decreases fields
  {
    seq(|fields|, i requires 0 <= i < |fields| => SlotFilled(fields[i], if i < |slots| then slots[i] else []))
  }

  function SlotFilled(f: Field, items: Slot): Slot
    decreases f
  {
    if items == [] then FieldDefault(f)
    else seq(|items|, k requires 0 <= k < |items| => ValueFilled(f.ltype, items[k]))
  }

  lemma FilledAppend(f: Field, items: Slot, k: nat)
    requires k < |items|
    ensures SlotFilled(f, items[..k + 1]) ==
      (if k == 0 then [] else SlotFilled(f, items[..k])) + [ValueFilled(f.ltype, items[k])]
  {
    assert forall j :: 0 <= j < k ==> items[..k + 1][j] == items[..k][j];
  }

  lemma FilledPackable(f: Field, items: Slot)
    requires Packable(f.ltype) && !f.htype.Required?
    ensures SlotFilled(f, items) == items
  {
  }

  // ----- what the decoder accepts -----

  /** Strings leave room for their ends, and in submessages no required field is missing of those that are tracked. */
  predicate ValueReads(lt: LType, v: Value)
    decreases lt
  {
    match lt
    case StringT(max) => v.Data? ==> |v.bytes| < max
    case SubmessageT(fields) => v.Message? ==> SlotsRead(fields, v.slots) && NoneMissing(fields, v.slots)
    case _ => true
  }

  predicate SlotsRead(fields: seq<Field>, slots: seq<Slot>)
    decreases fields
  {
    forall i :: 0 <= i < |fields| && i < |slots| ==> SlotReads(fields[i], slots[i])
  }

  predicate SlotReads(f: Field, items: Slot)
    decreases f
  {
    forall k :: 0 <= k < |items| ==> ValueReads(f.ltype, items[k])
  }

  /** Of the required fields that are tracked, all are there. */
  predicate NoneMissing(fields: seq<Field>, slots: seq<Slot>) {
    forall j :: 0 <= j < |fields| && j < |slots| && IsTracked(fields, j) ==> slots[j] != []
  }

  // ----- nothing is missing in a well-formed message -----

  lemma {:induction false} OkValue(lt: LType, v: Value)
    requires ValueOk(lt, v)
    ensures ValuePartial(lt, v) && ValueFilled(lt, v) == v && (ValueReads(lt, v) <==> ValueEnds(lt, v))
    decreases lt
  {
    if lt.SubmessageT? {
      OkSlots(lt.fields, v.slots);
    }
  }

  lemma {:induction false} OkSlot(f: Field, items: Slot)
    requires SlotOk(f, items)
    ensures SlotPartial(f, items) && SlotFilled(f, items) == items && (SlotReads(f, items) <==> SlotEnds(f, items))
    decreases f
  {
    forall k | 0 <= k < |items|
      ensures ValuePartial(f.ltype, items[k]) && ValueFilled(f.ltype, items[k]) == items[k]
      ensures ValueReads(f.ltype, items[k]) <==> ValueEnds(f.ltype, items[k])
    {
      OkValue(f.ltype, items[k]);
    }
  }

  /** A well-formed message lacks nothing, and the decoder accepts it if its strings leave room for their ends. */
  lemma {:induction false} OkSlots(fields: seq<Field>, slots: seq<Slot>)
    requires SlotsOk(fields, slots)
    ensures SlotsPartial(fields, slots) && NoneMissing(fields, slots) && SlotsFilled(fields, slots) == slots
    ensures SlotsRead(fields, slots) <==> SlotsEnd(fields, slots)
    decreases fields
  {
    forall i | 0 <= i < |fields|
      ensures SlotPartial(fields[i], slots[i]) && SlotFilled(fields[i], slots[i]) == slots[i]
      ensures SlotReads(fields[i], slots[i]) <==> SlotEnds(fields[i], slots[i])
    {
      OkSlot(fields[i], slots[i]);
    }
  }
}
