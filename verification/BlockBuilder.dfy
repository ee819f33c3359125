/** Building a block (table/block_builder.cc). */
module BlockBuilder {
  import opened Wrappers
  import opened Varints
  import opened BlockFormat
  import opened WordArrays

  method EncodeEntry(shared: nat, key: Bytes, value: Bytes) returns (bytes: Bytes)
    requires shared <= |key| < LIMIT32 && |value| < LIMIT32
    ensures bytes == Code(shared, key, value) && |bytes| <= 15 + |key| + |value|
  {
    VarintLength(shared);
    VarintLength(|key| - shared);
    VarintLength(|value|);
    var a := EncodeVarint32(shared);
    var b := EncodeVarint32(|key| - shared);
    var c := EncodeVarint32(|value|);
    bytes := a + b + c + key[shared..] + value;
    assert bytes == a + b + c + (key[shared..] + value);
  }

  /** A restart point at the new entry, which shares nothing, or none. */
  lemma RestartsGrow(sh: Shape, sh': Shape, restarts: seq<nat>)
    requires Sized(sh) && Sized(sh') && RestartsOk(sh) && |sh'.entries| == |sh.entries| + 1
    requires sh.shared <= sh'.shared && sh.offsets <= sh'.offsets
    requires || (sh'.restarts == sh.restarts && (sh.entries == [] ==> sh'.shared[0] == 0))
             || (sh'.restarts == sh.restarts + [|sh.entries|] && sh'.shared[|sh.entries|] == 0 && sh.entries != [])
    requires |restarts| == |sh'.restarts| && forall j :: 0 <= j < |restarts| ==>
        restarts[j] == (sh.offsets)[sh'.restarts[j]]
    ensures RestartsOk(sh') && forall j :: 0 <= j < |restarts| ==> restarts[j] == sh'.offsets[sh'.restarts[j]]
  {
  }

  /** a and b agree on their first n bytes and no further. */
  predicate IsCommonPrefix(a: Bytes, b: Bytes, n: nat) {
    n <= |a| && n <= |b| && a[..n] == b[..n] && (n < |a| && n < |b| ==> a[n] != b[n])
  }

  /** Every interval-th entry is a restart point, and the keys of the others share all they can with the key
      before. */
  ghost predicate Compressed(sh: Shape, interval: nat) {
    Sized(sh) && forall k {:trigger Unfold(k)} :: k == IN_RESTARTS && Unfold(k) ==>
    && (forall j :: 0 <= j < |sh.restarts| ==> sh.restarts[j] == j * interval)
    && (|sh.restarts| - 1) * interval <= |sh.entries| <= |sh.restarts| * interval
    && forall i :: 0 < i < |sh.entries| && i !in sh.restarts ==>
        IsCommonPrefix(sh.entries[i - 1].0, sh.entries[i].0, sh.shared[i])
  }

  /** So many entries since the last restart point. */
  ghost predicate Counted(sh: Shape, interval: nat, counter: nat) {
    forall k {:trigger Unfold(k)} :: k == IN_RESTARTS && Unfold(k) ==>
      counter == |sh.entries| - (|sh.restarts| - 1) * interval
  }

  lemma CompressedGrows(sh: Shape, sh': Shape, interval: nat, counter: nat)
    requires Compressed(sh, interval) && Counted(sh, interval, counter) && counter <= interval && interval >= 1
    requires Sized(sh') && |sh'.entries| == |sh.entries| + 1
    requires sh.entries <= sh'.entries && sh.shared <= sh'.shared
    requires if counter == interval then sh'.restarts == sh.restarts + [|sh.entries|] else
      sh'.restarts == sh.restarts && (sh.entries != [] ==>
        var i := |sh.entries|; IsCommonPrefix(sh.entries[i - 1].0, sh'.entries[i].0, sh'.shared[i]))
    ensures Compressed(sh', interval) && Counted(sh', interval, if counter == interval then 1 else counter + 1)
  {
    assert Unfold(IN_RESTARTS);
    assert |sh.restarts| * interval == (|sh.restarts| - 1) * interval + interval;
    forall i | 0 < i < |sh'.entries| && i !in sh'.restarts
      ensures IsCommonPrefix(sh'.entries[i - 1].0, sh'.entries[i].0, sh'.shared[i])
    {
      if i < |sh.entries| {
        assert i !in sh.restarts;
      }
    }
    assert |sh'.restarts| * interval >= |sh.restarts| * interval;
    if sh'.restarts != sh.restarts {
      assert (|sh.restarts| + 1) * interval == |sh.restarts| * interval + interval;
    }
  }

  class BlockBuilder {
    const interval: nat
    var buffer: Bytes
    var restarts: seq<nat>
    var counter: nat
    var finished: bool
    var lastKey: Bytes
    ghost var sh: Shape

    ghost predicate Valid()
      reads this
    {
      && interval >= 1 && counter <= interval && !finished && EntriesAt(buffer, |buffer|, sh) && RestartsOk(sh)
      && |restarts| == |sh.restarts| && (forall j :: 0 <= j < |restarts| ==> restarts[j] == sh.offsets[sh.restarts[j]])
      && lastKey == (if sh.entries == [] then [] else sh.entries[|sh.entries| - 1].0)
      && (counter == interval ==> sh.entries != [])
      && Compressed(sh, interval) && Counted(sh, interval, counter)
    }

    constructor (interval: nat)
      requires interval >= 1
      ensures Valid() && sh.entries == [] && buffer == [] && |restarts| == 1 && this.interval == interval
    {
      this.interval, buffer, restarts, counter, finished, lastKey := interval, [], [0], 0, false, [];
      sh := Shape([], [], [0], [0]);
    }

    /** The bytes the key has in common with the last one, none at a restart point. */
    method SharedWith(key: Bytes) returns (shared: nat)
      requires Valid()
      ensures counter == interval ==> shared == 0
      ensures counter < interval ==> IsCommonPrefix(lastKey, key, shared)
    {
      shared := 0;
      if counter < interval {
        var minLength := if |lastKey| < |key| then |lastKey| else |key|;
        while shared < minLength && lastKey[shared] == key[shared]
          invariant shared <= minLength && lastKey[..shared] == key[..shared]
        {
          shared := shared + 1;
        }
      }
    }

    method Add(key: Bytes, value: Bytes)
      requires Valid() && |key| < LIMIT32 && |value| < LIMIT32
      modifies this
      ensures Valid() && sh.entries == old(sh.entries) + [(key, value)]
      ensures |buffer| <= old(|buffer|) + 15 + |key| + |value| && |restarts| <= old(|restarts|) + 1
    {
      var shared := SharedWith(key);
      ghost var restartsAt := sh.restarts;
      if counter >= interval {
        restarts := restarts + [|buffer|];
        restartsAt := restartsAt + [|sh.entries|];
        counter := 0;
      }
      var bytes := EncodeEntry(shared, key, value);
      ghost var next := Shape(sh.entries + [(key, value)], sh.shared + [shared], sh.offsets + [|buffer + bytes|],
          restartsAt);
      EntryAppends(buffer, sh, shared, key, value, next);
      RestartsGrow(sh, next, restarts);
      CompressedGrows(sh, next, interval, old(counter));
      buffer := buffer + bytes;
      lastKey := lastKey[..shared] + key[shared..];
      assert lastKey == key;
      counter := counter + 1;
      sh := next;
    }

    /** The block. */
    method Finish() returns (data: Bytes)
      requires Valid() && |buffer| + 4 * |restarts| + 4 < LIMIT32
      modifies this
      ensures finished && sh == old(sh) && BlockOk(data, |old(buffer)|, |restarts|, sh) && Compressed(sh, interval)
    {
      ghost var entries := buffer;
      var words := PutArray(restarts);
      var count := PutFixed32(|restarts|);
      buffer := buffer + words + count;
      finished := true;
      data := buffer;
      FinishedOk(entries, words, count, restarts, sh, data);
    }
  }

  lemma EntriesStay(entries: Bytes, data: Bytes, sh: Shape)
    requires EntriesAt(entries, |entries|, sh) && entries <= data
    ensures EntriesAt(data, |entries|, sh)
  {
    forall i | 0 <= i < |sh.entries| ensures EntryAt(data, sh, i) {
      assert EntryAt(entries, sh, i);
      EntryStays(entries, data, sh, sh, i);
    }
  }

  lemma FinishedOk(entries: Bytes, words: Bytes, count: Bytes, restarts: seq<nat>, sh: Shape, data: Bytes)
    requires EntriesAt(entries, |entries|, sh) && RestartsOk(sh) && data == entries + words + count && |data| < LIMIT32
    requires IsArray(words, restarts) && |count| == 4 && Holds(count, 0, |restarts|)
    requires |restarts| == |sh.restarts| && forall j :: 0 <= j < |restarts| ==>
        restarts[j] == sh.offsets[sh.restarts[j]]
    ensures BlockOk(data, |entries|, |restarts|, sh)
  {
    EntriesStay(entries, data, sh);
    forall j | 0 <= j < |restarts| ensures restarts[j] <= |entries| {
      OffsetsGrow(entries, |entries|, sh, sh.restarts[j], |sh.entries|);
    }
    assert data == entries + words + count + [];
    ArrayInside(entries, words, count, [], data, restarts, |restarts|);
  }
}
