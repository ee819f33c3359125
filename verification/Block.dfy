/** Reading a block: decoding entries, and a cursor that seeks and moves both ways (table/block.cc). */
module Block {
  import opened Wrappers
  import opened Varints
  import opened BlockFormat

  /** The three lengths at the start of an entry, and the position after them. */
  datatype Decoded = Decoded(shared: nat, nonShared: nat, valueLength: nat, pos: nat)

  /** The bytes at p are the code of entry i. */
  ghost predicate CodeAt(data: Bytes, p: nat, limit: nat, shared: nat, key: Bytes, value: Bytes) {
    && shared <= |key| < LIMIT32 && |value| < LIMIT32 && At(data, p, Code(shared, key, value))
    && p + |Code(shared, key, value)| <= limit
  }

  /** What DecodeEntry should make of it. */
  ghost predicate DecodesTo(data: Bytes, p: nat, shared: nat, key: Bytes, value: Bytes, d: Decoded) {
    && d.shared == shared && d.nonShared == |key| - shared && d.valueLength == |value|
    && At(data, d.pos, key[shared..] + value) && d.pos + d.nonShared + d.valueLength == p + |Code(shared, key, value)|
  }

  lemma HeaderSplits(data: Bytes, p: nat, limit: nat, shared: nat, key: Bytes, value: Bytes)
    requires CodeAt(data, p, limit, shared, key, value)
    ensures At(data, p, Varint(shared)) && At(data, p + |Varint(shared)|, Varint(|key| - shared))
    ensures At(data, p + |Varint(shared)| + |Varint(|key| - shared)|, Varint(|value|))
    ensures At(data, p + |Header(shared, |key| - shared, |value|)|, key[shared..] + value)
  {
    var a, b, c := Varint(shared), Varint(|key| - shared), Varint(|value|);
    AtSplits(data, p, a + b + c, key[shared..] + value);
    AtSplits(data, p, a + b, c);
    AtSplits(data, p, a, b);
  }

  /** The three numbers at p. */
  ghost function Lengths(data: Bytes, p: nat, limit: nat): (r: Option<Decoded>)
    requires limit <= |data|
    ensures r.Some? ==>
        p + 3 <= r.value.pos <= limit && r.value.nonShared < LIMIT32 && r.value.valueLength < LIMIT32
  {
    var a := Number32(data, p, limit);
    if a.None? then None else
    var b := Number32(data, a.value.next, limit);
    if b.None? then None else
    var c := Number32(data, b.value.next, limit);
    if c.None? then None else Some(Decoded(a.value.value, b.value.value, c.value.value, c.value.next))
  }

  /** The lengths at p pass the test for what is left, which is made on 32-bit numbers and so on a sum that wraps. */
  ghost function Accepted(data: Bytes, p: nat, limit: nat): Option<Decoded>
    requires limit <= |data|
  {
    var d := Lengths(data, p, limit);
    if d.None? then None else
    if (limit - d.value.pos) % LIMIT32 < (d.value.nonShared + d.value.valueLength) % LIMIT32 then None else d
  }

  /** Key and value of an entry that passes lie before the limit exactly if the sum does not wrap. */
  predicate Inside(d: Decoded) {
    d.nonShared + d.valueLength < LIMIT32
  }

  lemma InsideExactly(data: Bytes, p: nat, limit: nat)
    requires limit <= |data| && limit < LIMIT32 && Accepted(data, p, limit).Some?
    ensures var d := Accepted(data, p, limit).value; d.pos + d.nonShared + d.valueLength <= limit <==> Inside(d)
  {
    var d := Accepted(data, p, limit).value;
    assert 0 <= limit - d.pos < LIMIT32;
  }

  lemma LengthsAre(data: Bytes, p: nat, limit: nat, a: Numeral, b: Numeral, c: Numeral)
    requires limit <= |data| && Number32(data, p, limit) == Some(a)
    requires Number32(data, a.next, limit) == Some(b) && Number32(data, b.next, limit) == Some(c)
    ensures Lengths(data, p, limit) == Some(Decoded(a.value, b.value, c.value, c.next))
  {
  }

  /** A number, where its code ends. */
  ghost function NumberThen(v: nat, p: nat): Numeral {
    Numeral(v, p + |Varint(v)|)
  }

  lemma FirstNumber(data: Bytes, p: nat, limit: nat, shared: nat, key: Bytes, value: Bytes)
    requires limit <= |data| && CodeAt(data, p, limit, shared, key, value)
    ensures Number32(data, p, limit) == Some(NumberThen(shared, p))
  {
    assert At(data, p, Varint(shared)) by { HeaderSplits(data, p, limit, shared, key, value); }
    assert p + |Varint(shared)| <= limit by { CodeFits(shared, key, value); }
    NumberOfCode(data, p, limit, shared);
  }

  lemma MiddleNumber(data: Bytes, p: nat, limit: nat, a: Bytes, v: nat, c: Bytes, rest: Bytes)
    requires v < LIMIT32 && At(data, p, a + Varint(v) + c + rest) && p + |a + Varint(v) + c + rest| <= limit <= |data|
    ensures Number32(data, p + |a|, limit) == Some(NumberThen(v, p + |a|))
  {
    var b := Varint(v);
    AtSplits(data, p, a + b + c, rest);
    AtSplits(data, p, a + b, c);
    AtSplits(data, p, a, b);
    NumberOfCode(data, p + |a|, limit, v);
  }

  lemma SecondNumber(data: Bytes, p: nat, limit: nat, shared: nat, key: Bytes, value: Bytes)
    requires limit <= |data| && CodeAt(data, p, limit, shared, key, value)
    ensures var q := p + |Varint(shared)|; Number32(data, q, limit) == Some(NumberThen(|key| - shared, q))
  {
    MiddleNumber(data, p, limit, Varint(shared), |key| - shared, Varint(|value|), key[shared..] + value);
  }

  lemma ThirdNumber(data: Bytes, p: nat, limit: nat, shared: nat, key: Bytes, value: Bytes)
    requires limit <= |data| && CodeAt(data, p, limit, shared, key, value)
    ensures var q := p + |Varint(shared)| + |Varint(|key| - shared)|;
      Number32(data, q, limit) == Some(NumberThen(|value|, q))
  {
    var q := p + |Varint(shared)| + |Varint(|key| - shared)|;
    assert At(data, q, Varint(|value|)) by { HeaderSplits(data, p, limit, shared, key, value); }
    assert q + |Varint(|value|)| <= limit by { CodeFits(shared, key, value); }
    NumberOfCode(data, q, limit, |value|);
  }

  /** What the builder wrote passes, and is what it wrote. */
  lemma AcceptsCode(data: Bytes, p: nat, limit: nat, shared: nat, key: Bytes, value: Bytes)
    requires limit <= |data| && limit < LIMIT32 && CodeAt(data, p, limit, shared, key, value)
    ensures var r := Accepted(data, p, limit);
      r.Some? && DecodesTo(data, p, shared, key, value, r.value) && Inside(r.value)
  {
    HeaderSplits(data, p, limit, shared, key, value);
    CodeFits(shared, key, value);
    FirstNumber(data, p, limit, shared, key, value);
    SecondNumber(data, p, limit, shared, key, value);
    ThirdNumber(data, p, limit, shared, key, value);
    var a := NumberThen(shared, p);
    var b := NumberThen(|key| - shared, a.next);
    LengthsAre(data, p, limit, a, b, NumberThen(|value|, b.next));
  }

  lemma CodeFits(shared: nat, key: Bytes, value: Bytes)
    requires shared <= |key|
    ensures var n := |Header(shared, |key| - shared, |value|)|;
      && n == |Varint(shared)| + |Varint(|key| - shared)| + |Varint(|value|)|
      && |Code(shared, key, value)| == n + (|key| - shared) + |value|
  {
  }

  /** An entry whose first length is 2^32 - 1 and whose second is 1. */
  const WRAPPING: Bytes := [0, 255, 255, 255, 255, 15, 1]

  /** It passes at the very end of the entries, and its key would be four gigabytes long. */
  lemma WrappingEntryPasses(data: Bytes, p: nat)
    requires At(data, p, WRAPPING)
    ensures Accepted(data, p, p + 7) == Some(Decoded(0, LIMIT32 - 1, 1, p + 7))
    ensures !Inside(Accepted(data, p, p + 7).value)
  {
    assert Unfold(IN_NUMBER);
    var limit := p + 7;
    var w := data[p..limit];
    assert data[p] == w[0] && data[p + 1] == w[1] && data[p + 2] == w[2] && data[p + 3] == w[3] && data[p + 4] == w[4];
    assert data[p + 5] == w[5] && data[p + 6] == w[6];
    assert Number32(data, p, limit) == Some(Numeral(0, p + 1));
    assert Groups(data, p + 5, p + 6) == Some(Numeral(15, p + 6));
    assert Groups(data, p + 4, p + 6) == Some(Numeral(0x7FF, p + 6));
    assert Groups(data, p + 3, p + 6) == Some(Numeral(0x3_FFFF, p + 6));
    assert Groups(data, p + 2, p + 6) == Some(Numeral(0x1FF_FFFF, p + 6));
    assert Number32(data, p + 1, limit) == Some(Numeral(0xFFFF_FFFF, p + 6));
    assert Number32(data, p + 6, limit) == Some(Numeral(1, p + 7));
  }

  /** Three variable-length numbers. */
  method DecodeLengths(data: Bytes, p: nat, limit: nat) returns (r: Option<Decoded>)
    requires p <= limit <= |data|
    ensures r == Lengths(data, p, limit)
  {
    var s, q1 := GetVarint32(data, p, limit);
    if q1.None? {
      return None;
    }
    var n, q2 := GetVarint32(data, q1.value, limit);
    if q2.None? {
      return None;
    }
    var v, q3 := GetVarint32(data, q2.value, limit);
    if q3.None? {
      return None;
    }
    return Some(Decoded(s, n, v, q3.value));
  }

  /** On any bytes: what passes is what the long way through the numbers gives, also where the short way is taken. */
  method DecodeEntry(data: Bytes, p: nat, limit: nat) returns (r: Option<Decoded>)
    requires p <= limit <= |data|
    ensures r == Accepted(data, p, limit)
    ensures r.Some? ==> p + 3 <= r.value.pos <= limit
    ensures r.Some? && limit < LIMIT32 ==>
        (r.value.pos + r.value.nonShared + r.value.valueLength <= limit <==> Inside(r.value))
  {
    if limit - p < 3 {
      return None;
    }
    assert Unfold(IN_NUMBER);
    var d := Decoded(data[p], data[p + 1], data[p + 2], p + 3);
    if data[p] >= 128 || data[p + 1] >= 128 || data[p + 2] >= 128 {
      var long := DecodeLengths(data, p, limit);
      if long.None? {
        return None;
      }
      d := long.value;
    }
    assert Lengths(data, p, limit) == Some(d);
    if (limit - d.pos) % LIMIT32 < (d.nonShared + d.valueLength) % LIMIT32 {
      return None;
    }
    if limit < LIMIT32 { InsideExactly(data, p, limit); }
    return Some(d);
  }

  lemma EntryFacts(data: Bytes, end: nat, sh: Shape, i: nat)
    requires EntriesAt(data, end, sh) && i < |sh.entries|
    ensures Shares(sh, i) && CodeAt(data, sh.offsets[i], end, sh.shared[i], sh.entries[i].0, sh.entries[i].1)
    ensures sh.offsets[i] < sh.offsets[i + 1] == sh.offsets[i]
        + |Code(sh.shared[i], sh.entries[i].0, sh.entries[i].1)| <= end
  {
    assert EntryAt(data, sh, i);
    OffsetsGrow(data, end, sh, i + 1, |sh.entries|);
  }

  /** The whole key, from the bytes shared with the one before and the bytes stored. */
  lemma KeyRebuilt(data: Bytes, d: Decoded, was: Bytes, shared: nat, key: Bytes, value: Bytes, p: nat)
    requires shared <= |key| && DecodesTo(data, p, shared, key, value, d) && shared <= |was|
        && was[..shared] == key[..shared]
    ensures d.pos + d.nonShared <= |data| && was[..shared] + data[d.pos..d.pos + d.nonShared] == key
    ensures At(data, d.pos + d.nonShared, value)
  {
    AtSplits(data, d.pos, key[shared..], value);
    assert key == key[..shared] + key[shared..];
  }

  /** What passes at p as the entry after one with that key. */
  ghost function Upcoming(data: Bytes, p: nat, limit: nat, was: Bytes): Option<Decoded>
    requires limit <= |data|
  {
    var d := Accepted(data, p, limit);
    if d.Some? && d.value.shared <= |was| then d else None
  }

  /** Overran: the cursor was led past the end of the block.  The program does not notice and goes on with whatever lies
      there; the model stops the cursor. */
  datatype Status = Fine | Corrupt | Overran

  /** What the end of a block says: an error, no restart points, or where the restart array starts and its length. */
  datatype Opened = BadContents | NoRestarts | Restarts(offset: nat, num: nat)

  /** The restart array lies at end, with num words and their number after them. */
  predicate TrailerIs(data: Bytes, end: nat, num: nat) {
    0 < num && |data| == end + 4 * num + 4 && |data| < LIMIT32 && WordAt(data, |data| - 4) == num
  }

  lemma FinishedTrailer(data: Bytes, end: nat, num: nat, sh: Shape)
    requires BlockOk(data, end, num, sh)
    ensures TrailerIs(data, end, num)
  {
    assert |data| - 4 == end + 4 * num;
  }

  /** The Block constructor and NewIterator. */
  method Open(data: Bytes) returns (r: Opened)
    ensures |data| < LIMIT32 && r.Restarts? ==> r.num > 0 && r.offset + 4 * r.num + 4 == |data|
    ensures forall end, num :: TrailerIs(data, end, num) ==> r == Restarts(end, num)
  {
    if |data| < 4 {
      return BadContents;
    }
    var num := WordAt(data, |data| - 4);
    if num > (|data| - 4) / 4 {
      return BadContents;
    }
    if num == 0 {
      return NoRestarts;
    }
    return Restarts((|data| - (1 + num) % LIMIT32 * 4) % LIMIT32, num);
  }

  class BlockIter {
    const data: Bytes
    const restarts: nat        // offset of the restart array
    const numRestarts: nat
    const rank: Bytes -> real  // the comparator, as an order-preserving map
    var current: nat
    var restartIndex: nat
    var key: Bytes
    var valuePos: nat
    var valueLen: nat
    var status: Status

    predicate Basic()
      reads this
    {
      && numRestarts > 0 && restarts < LIMIT32 && restarts + 4 * numRestarts <= |data|
      && restartIndex <= numRestarts && (current < restarts ==> restartIndex < numRestarts)
    }

    predicate IsValid()
      reads this
    {
      current < restarts
    }

    function NextEntryOffset(): nat
      reads this
    {
      valuePos + valueLen
    }

    function GetRestartPoint(j: nat): nat
      requires restarts + 4 * numRestarts <= |data| && j < numRestarts
    {
      WordAt(data, restarts + 4 * j)
    }

    /** data is a finished block of that shape. */
    ghost predicate Good(sh: Shape) {
      && Sized(sh) && numRestarts == |sh.restarts| && sh.offsets[|sh.entries|] == restarts
      && (forall j :: 0 <= j < numRestarts ==> sh.restarts[j] <= |sh.entries|)
      && forall k {:trigger Unfold(k)} :: k == IN_BLOCK && Unfold(k) ==> BlockOk(data, restarts, numRestarts, sh)
    }

    lemma Offsets(sh: Shape, i: nat, j: nat)
      requires Good(sh) && i <= |sh.entries| && j <= |sh.entries|
      ensures sh.offsets[i] < sh.offsets[j] <==> i < j
    {
      assert Unfold(IN_BLOCK);
      OffsetOrder(data, restarts, sh, i, j);
    }

    lemma Facts(sh: Shape, i: nat)
      requires Good(sh) && i < |sh.entries|
      ensures Shares(sh, i) && CodeAt(data, sh.offsets[i], restarts, sh.shared[i], sh.entries[i].0, sh.entries[i].1)
      ensures sh.offsets[i] < sh.offsets[i + 1] == sh.offsets[i]
          + |Code(sh.shared[i], sh.entries[i].0, sh.entries[i].1)| <= restarts
    {
      assert Unfold(IN_BLOCK);
      EntryFacts(data, restarts, sh, i);
    }

    lemma RestartFacts(sh: Shape, j: nat)
      requires Good(sh) && j < numRestarts && restarts + 4 * numRestarts <= |data|
      ensures GetRestartPoint(j) == sh.offsets[sh.restarts[j]] && (j > 0 ==> sh.restarts[j] < |sh.entries|)
          && sh.restarts[0] == 0
      ensures sh.restarts[j] < |sh.entries| ==> sh.shared[sh.restarts[j]] == 0
    {
      assert Unfold(IN_BLOCK);
    }

    /** How the offset of restart point j compares with that of entry i. */
    lemma RestartOrder(sh: Shape, j: nat, i: nat)
      requires Good(sh) && j < numRestarts && i <= |sh.entries| && restarts + 4 * numRestarts <= |data|
      ensures GetRestartPoint(j) < sh.offsets[i] <==> sh.restarts[j] < i
      ensures sh.restarts[0] == 0
    {
      RestartFacts(sh, j);
      Offsets(sh, sh.restarts[j], i);
    }

    /** The next entry to parse is entry i. */
    ghost predicate Ready(sh: Shape, i: nat)
      requires Good(sh)
      reads this
    {
      && i <= |sh.entries| && NextEntryOffset() == sh.offsets[i] && restartIndex < numRestarts
          && sh.restarts[restartIndex] <= i
      && (i < |sh.entries| ==>
          sh.shared[i] <= |key| && sh.shared[i] <= |sh.entries[i].0|
          && key[..sh.shared[i]] == sh.entries[i].0[..sh.shared[i]])
    }

    /** The cursor stands on entry i. */
    ghost predicate On(sh: Shape, i: nat)
      requires Good(sh)
      reads this
    {
      && i < |sh.entries| && current == sh.offsets[i] && NextEntryOffset() == sh.offsets[i + 1] && current < restarts
      && key == sh.entries[i].0 && At(data, valuePos, sh.entries[i].1) && valueLen == |sh.entries[i].1|
      && restartIndex < numRestarts && sh.restarts[restartIndex] <= i
      && (restartIndex + 1 < numRestarts ==> sh.restarts[restartIndex + 1] >= i)
    }

    /** The cursor stands on entry i, or nowhere if there is none. */
    ghost predicate AtIndex(sh: Shape, i: int)
      requires Good(sh)
      reads this
    {
      if 0 <= i < |sh.entries| then On(sh, i) else !IsValid()
    }

    constructor (data: Bytes, restarts: nat, numRestarts: nat, rank: Bytes -> real)
      requires numRestarts > 0 && restarts < LIMIT32 && restarts + 4 * numRestarts <= |data|
      ensures Basic() && !IsValid() && status == Fine
      ensures this.data == data && this.restarts == restarts && this.numRestarts == numRestarts && this.rank == rank
    {
      this.data, this.restarts, this.numRestarts, this.rank := data, restarts, numRestarts, rank;
      current, restartIndex, key, valuePos, valueLen, status := restarts, numRestarts, [], 0, 0, Fine;
    }

    method Stop(why: Status)
      requires Basic()
      modifies this
      ensures Basic() && !IsValid() && status == why
    {
      current, restartIndex, status, key, valueLen := restarts, numRestarts, why, [], 0;
    }

    /** key starts with what entry i shares with the entry before it. */
    ghost predicate SharesKey(sh: Shape, i: nat)
      requires Good(sh)
      reads this
    {
      && i < |sh.entries| && sh.shared[i] <= |key| && sh.shared[i] <= |sh.entries[i].0|
      && key[..sh.shared[i]] == sh.entries[i].0[..sh.shared[i]]
    }

    /** The cursor took the entry at p, its key put together with the key before, exactly if one passes there and lies
        inside; otherwise the status says what went wrong. */
    ghost predicate Took(p: nat, was: Bytes, before: Status, ok: bool)
      requires Basic()
      reads this
    {
      forall k {:trigger Unfold(k)} :: k == IN_ENTRY && Unfold(k) ==>
        var d := Upcoming(data, p, restarts, was);
        && (ok <==> d.Some? && Inside(d.value))
        && status == (if ok then before else if d.Some? then Overran else Corrupt)
        && (ok ==> TookKey(d.value, was))
    }

    ghost predicate TookKey(d: Decoded, was: Bytes)
      reads this
    {
      && d.shared <= |was| && d.pos + d.nonShared + d.valueLength <= |data|
      && key == was[..d.shared] + data[d.pos..d.pos + d.nonShared]
      && valuePos == d.pos + d.nonShared && valueLen == d.valueLength
    }

    /** Decode the entry at current. */
    method TakeEntry(ghost sh: Option<Shape>, ghost i: nat) returns (ok: bool)
      requires Basic() && current < restarts
      requires sh.Some? ==> Good(sh.value) && SharesKey(sh.value, i) && current == sh.value.offsets[i]
      modifies this
      ensures Basic() && ok == IsValid() && Took(old(current), old(key), old(status), ok)
      ensures ok ==> restartIndex == old(restartIndex) && current == old(current) < NextEntryOffset() <= restarts
      ensures ok ==> status == old(status)
      ensures sh.Some? ==>
        && ok && key == sh.value.entries[i].0
        && At(data, valuePos, sh.value.entries[i].1) && valueLen == |sh.value.entries[i].1|
            && NextEntryOffset() == sh.value.offsets[i + 1]
    {
      if sh.Some? {
        Facts(sh.value, i);
        AcceptsCode(data, current, restarts, sh.value.shared[i], sh.value.entries[i].0, sh.value.entries[i].1);
      }
      var d := DecodeEntry(data, current, restarts);
      if d.None? || |key| < d.value.shared {
        Stop(Corrupt);
        return false;
      }
      if d.value.nonShared + d.value.valueLength >= LIMIT32 {
        Stop(Overran);
        return false;
      }
      if sh.Some? {
        KeyRebuilt(data, d.value, key, sh.value.shared[i], sh.value.entries[i].0, sh.value.entries[i].1, current);
      }
      key := key[..d.value.shared] + data[d.value.pos..d.value.pos + d.value.nonShared];
      valuePos, valueLen := d.value.pos + d.value.nonShared, d.value.valueLength;
      return true;
    }

    /** On any bytes the cursor ends up inside the block or invalid, and which of the two is stated exactly. */
    method ParseNextKey(ghost sh: Option<Shape>, ghost i: nat) returns (ok: bool)
      requires Basic() && restartIndex < numRestarts && (sh.Some? ==> Good(sh.value) && Ready(sh.value, i))
      modifies this
      ensures Basic() && ok == IsValid() && (ok ==> old(NextEntryOffset()) == current < NextEntryOffset() <= restarts)
      ensures if old(NextEntryOffset()) < restarts then Took(old(NextEntryOffset()), old(key), old(status), ok)
              else !ok && status == old(status)
      ensures sh.Some? ==> AtIndex(sh.value, i) && status == old(status)
    {
      current := NextEntryOffset();
      if sh.Some? { Offsets(sh.value, i, |sh.value.entries|); }
      if current >= restarts {
        current, restartIndex := restarts, numRestarts;
        return false;
      }
      ok := TakeEntry(sh, i);
      if ok {
        AdvanceRestart(sh, i);
      }
    }

    method AdvanceRestart(ghost sh: Option<Shape>, ghost i: nat)
      requires Basic() && restartIndex < numRestarts && current < restarts
      requires sh.Some? ==>
          Good(sh.value) && i < |sh.value.entries| && current == sh.value.offsets[i]
          && sh.value.restarts[restartIndex] <= i
      modifies `restartIndex
      ensures Basic() && restartIndex < numRestarts
      ensures sh.Some? ==>
          sh.value.restarts[restartIndex] <= i
          && (restartIndex + 1 < numRestarts ==> sh.value.restarts[restartIndex + 1] >= i)
    {
      while restartIndex + 1 < numRestarts && GetRestartPoint(restartIndex + 1) < current
        invariant Basic() && restartIndex < numRestarts
        invariant sh.Some? ==> sh.value.restarts[restartIndex] <= i
        decreases numRestarts - restartIndex
      {
        if sh.Some? { RestartOrder(sh.value, restartIndex + 1, i); }
        restartIndex := restartIndex + 1;
      }
      if sh.Some? && restartIndex + 1 < numRestarts { RestartOrder(sh.value, restartIndex + 1, i); }
    }

    method SeekToRestartPoint(index: nat, ghost sh: Option<Shape>)
      requires Basic() && index < numRestarts && (sh.Some? ==> Good(sh.value))
      modifies this
      ensures Basic() && restartIndex == index && status == old(status) && NextEntryOffset() == GetRestartPoint(index)
      ensures sh.Some? ==> Ready(sh.value, sh.value.restarts[index])
    {
      key, restartIndex := [], index;
      valuePos, valueLen := GetRestartPoint(index), 0;
      if sh.Some? { RestartFacts(sh.value, index); }
    }

    method SeekToFirst(ghost sh: Option<Shape>)
      requires Basic() && (sh.Some? ==> Good(sh.value))
      modifies this
      ensures Basic() && (sh.Some? ==> AtIndex(sh.value, 0) && status == old(status))
    {
      SeekToRestartPoint(0, sh);
      if sh.Some? { RestartFacts(sh.value, 0); }
      var ok := ParseNextKey(sh, 0);
    }

    /** After entry i comes entry i + 1. */
    lemma OnIsReady(sh: Shape, i: nat)
      requires Good(sh) && On(sh, i)
      ensures Ready(sh, i + 1)
    {
      if i + 1 < |sh.entries| {
        Facts(sh, i + 1);
      }
    }

    method Next(ghost sh: Option<Shape>, ghost i: nat)
      requires Basic() && IsValid() && (sh.Some? ==> Good(sh.value) && On(sh.value, i))
      modifies this
      ensures Basic() && (sh.Some? ==> AtIndex(sh.value, i + 1) && status == old(status))
    {
      if sh.Some? { OnIsReady(sh.value, i); }
      var ok := ParseNextKey(sh, i + 1);
    }

    method SeekToLast(ghost sh: Option<Shape>)
      requires Basic() && (sh.Some? ==> Good(sh.value))
      modifies this
      ensures Basic() && (sh.Some? ==> AtIndex(sh.value, |sh.value.entries| - 1) && status == old(status))
    {
      SeekToRestartPoint(numRestarts - 1, sh);
      if sh.Some? { RestartFacts(sh.value, numRestarts - 1); }
      ghost var i: nat := if sh.Some? then sh.value.restarts[numRestarts - 1] else 0;
      var ok := ParseNextKey(sh, i);
      while ok && NextEntryOffset() < restarts
        invariant Basic() && ok == IsValid()
        invariant sh.Some? ==> i <= |sh.value.entries| && AtIndex(sh.value, i) && status == old(status)
        invariant sh.Some? && i == |sh.value.entries| ==> i == 0
        decreases ok, restarts - NextEntryOffset()
      {
        if sh.Some? {
          OnIsReady(sh.value, i);
          Offsets(sh.value, i + 1, |sh.value.entries|);
        }
        i := i + 1;
        ok := ParseNextKey(sh, i);
      }
      if sh.Some? && ok { Offsets(sh.value, i + 1, |sh.value.entries|); }
    }

    /** Go back to the last restart point before the entry at original. */
    method RestartBefore(original: nat, ghost sh: Option<Shape>, ghost i: nat) returns (found: bool)
      requires Basic() && restartIndex < numRestarts
      requires sh.Some? ==> Good(sh.value) && i < |sh.value.entries| && original == sh.value.offsets[i]
      modifies this
      ensures Basic() && status == old(status) && (found ==> restartIndex < numRestarts) && (!found ==> !IsValid())
      ensures sh.Some? ==> (found <==> i > 0) && (found ==> sh.value.restarts[restartIndex] < i)
    {
      while GetRestartPoint(restartIndex) >= original
        invariant Basic() && restartIndex < numRestarts && status == old(status)
        decreases restartIndex
      {
        if sh.Some? { RestartOrder(sh.value, restartIndex, i); }
        if restartIndex == 0 {
          current, restartIndex := restarts, numRestarts;
          return false;
        }
        restartIndex := restartIndex - 1;
      }
      if sh.Some? { RestartOrder(sh.value, restartIndex, i); }
      return true;
    }

    method Prev(ghost sh: Option<Shape>, ghost i: nat)
      requires Basic() && IsValid() && (sh.Some? ==> Good(sh.value) && On(sh.value, i))
      modifies this
      ensures Basic() && (sh.Some? ==> AtIndex(sh.value, i as int - 1) && status == old(status))
    {
      var original := current;
      var found := RestartBefore(original, sh, i);
      if !found {
        return;
      }
      SeekToRestartPoint(restartIndex, sh);
      ghost var j: nat := if sh.Some? then sh.value.restarts[restartIndex] else 0;
      var ok := ParseNextKey(sh, j);
      while ok && NextEntryOffset() < original
        invariant Basic() && ok == IsValid()
        invariant sh.Some? ==> j < i && On(sh.value, j) && status == old(status)
        decreases ok, original - NextEntryOffset()
      {
        if sh.Some? {
          OnIsReady(sh.value, j);
          Offsets(sh.value, j + 1, i);
        }
        j := j + 1;
        ok := ParseNextKey(sh, j);
      }
      if sh.Some? { Offsets(sh.value, j + 1, i); }
    }

    // ----- Seek -----

    ghost predicate Ascending(sh: Shape) {
      forall i, j :: 0 <= i < j < |sh.entries| ==> rank(sh.entries[i].0) < rank(sh.entries[j].0)
    }

    /** Entries before restart point j are smaller than the target, or it is the first. */
    ghost predicate SmallBefore(sh: Shape, j: nat, target: Bytes)
      requires Sized(sh) && j < |sh.restarts|
    {
      j > 0 ==> sh.restarts[j] < |sh.entries| && rank(sh.entries[sh.restarts[j]].0) < rank(target)
    }

    /** The key at a restart point, if the entry there can be decoded and its key lies in the block. */
    method KeyAtRestart(mid: nat, ghost sh: Option<Shape>) returns (s: Status, k: Bytes)
      requires Basic() && mid < numRestarts
          && (sh.Some? ==> Good(sh.value) && sh.value.restarts[mid] < |sh.value.entries|)
      ensures s == if GetRestartPoint(mid) > restarts then Corrupt else
                   var d := Accepted(data, GetRestartPoint(mid), restarts);
                   if d.None? || d.value.shared != 0 then Corrupt else
                   if d.value.pos + d.value.nonShared > |data| then Overran else Fine
      ensures sh.Some? ==> s == Fine && k == sh.value.entries[sh.value.restarts[mid]].0
    {
      ghost var key, value := [], [];
      if sh.Some? {
        RestartFacts(sh.value, mid);
        Facts(sh.value, sh.value.restarts[mid]);
        key, value := sh.value.entries[sh.value.restarts[mid]].0, sh.value.entries[sh.value.restarts[mid]].1;
        AcceptsCode(data, GetRestartPoint(mid), restarts, 0, key, value);
      }
      if GetRestartPoint(mid) > restarts {
        return Corrupt, [];
      }
      var d := DecodeEntry(data, GetRestartPoint(mid), restarts);
      if d.None? || d.value.shared != 0 {
        return Corrupt, [];
      }
      if d.value.pos + d.value.nonShared > |data| {
        return Overran, [];
      }
      if sh.Some? { AtSplits(data, d.value.pos, key[0..], value); }
      return Fine, data[d.value.pos..d.value.pos + d.value.nonShared];
    }

    /** The last restart point with a key before the target, unless an entry there is damaged. */
    method FindRestart(target: Bytes, ghost sh: Option<Shape>) returns (s: Status, left: nat)
      requires Basic() && (sh.Some? ==> Good(sh.value))
      ensures left < numRestarts
      ensures sh.Some? ==> s == Fine && SmallBefore(sh.value, left, target)
    {
      s, left := Fine, 0;
      var right := numRestarts - 1;
      while left < right
        invariant 0 <= left <= right < numRestarts && s == Fine
        invariant sh.Some? ==> SmallBefore(sh.value, left, target)
      {
        var mid := (left + right + 1) / 2;
        if sh.Some? { RestartFacts(sh.value, mid); }
        var midKey;
        s, midKey := KeyAtRestart(mid, sh);
        if s != Fine {
          return;
        }
        if rank(midKey) < rank(target) {
          left := mid;
        } else {
          right := mid - 1;
        }
      }
    }

    /** Entries before i are smaller than the target. */
    ghost predicate SmallUpTo(sh: Shape, i: nat, target: Bytes) {
      && i <= |sh.entries|
      && forall k {:trigger Unfold(k)} :: k == IN_SEARCH && Unfold(k) ==>
          forall j :: 0 <= j < i ==> rank(sh.entries[j].0) < rank(target)
    }

    /** i is the first entry at or after the target. */
    ghost predicate FirstNotBefore(sh: Shape, i: nat, target: Bytes) {
      && i <= |sh.entries|
      && forall k {:trigger Unfold(k)} :: k == IN_SEARCH && Unfold(k) ==>
          forall j :: 0 <= j < |sh.entries| ==> (j < i <==> rank(sh.entries[j].0) < rank(target))
    }

    lemma SmallBeforeRestart(sh: Shape, j: nat, target: Bytes)
      requires Good(sh) && Ascending(sh) && j < |sh.restarts| && SmallBefore(sh, j, target)
          && restarts + 4 * numRestarts <= |data|
      ensures SmallUpTo(sh, sh.restarts[j], target)
    {
      RestartFacts(sh, j);
    }

    lemma SearchEnds(sh: Shape, i: nat, target: Bytes)
      requires Ascending(sh) && SmallUpTo(sh, i, target)
      requires i < |sh.entries| ==> rank(sh.entries[i].0) >= rank(target)
      ensures FirstNotBefore(sh, i, target)
    {
      assert Unfold(IN_SEARCH);
    }

    lemma SearchGoesOn(sh: Shape, i: nat, target: Bytes)
      requires SmallUpTo(sh, i, target) && i < |sh.entries| && rank(sh.entries[i].0) < rank(target)
      ensures SmallUpTo(sh, i + 1, target)
    {
      assert Unfold(IN_SEARCH);
    }

    /** Linear search from entry i0 on for the first key at or after the target. */
    method ScanFrom(target: Bytes, ghost sh: Option<Shape>, ghost i0: nat) returns (ghost i: nat)
      requires Basic() && restartIndex < numRestarts
      requires sh.Some? ==>
          Good(sh.value) && Ascending(sh.value) && Ready(sh.value, i0) && SmallUpTo(sh.value, i0, target)
      modifies this
      ensures Basic()
      ensures sh.Some? ==> AtIndex(sh.value, i) && FirstNotBefore(sh.value, i, target) && status == old(status)
    {
      i := i0;
      while true
        invariant Basic() && restartIndex < numRestarts
        invariant sh.Some? ==> Ready(sh.value, i) && SmallUpTo(sh.value, i, target) && status == old(status)
        decreases restarts - NextEntryOffset()
      {
        var ok := ParseNextKey(sh, i);
        if !ok || rank(key) >= rank(target) {
          if sh.Some? { SearchEnds(sh.value, i, target); }
          return;
        }
        if sh.Some? {
          OnIsReady(sh.value, i);
          SearchGoesOn(sh.value, i, target);
        }
        i := i + 1;
      }
    }

    /** The first entry with a key at or after the target. */
    method Seek(target: Bytes, ghost sh: Option<Shape>) returns (ghost i: nat)
      requires Basic() && (sh.Some? ==> Good(sh.value) && Ascending(sh.value))
      modifies this
      ensures Basic()
      ensures sh.Some? ==> AtIndex(sh.value, i) && FirstNotBefore(sh.value, i, target) && status == old(status)
    {
      i := 0;
      var s, left := FindRestart(target, sh);
      if s != Fine {
        Stop(s);
        return;
      }
      SeekToRestartPoint(left, sh);
      if sh.Some? {
        SmallBeforeRestart(sh.value, left, target);
        i := sh.value.restarts[left];
      }
      i := ScanFrom(target, sh, i);
    }
  }
}
