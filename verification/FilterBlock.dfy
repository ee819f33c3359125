/** Filters for the blocks of a table, one for every 2 KiB of file (table/filter_block.cc). */
module FilterBlock {
  import opened Wrappers
  import opened Coding
  import opened Varints
  import opened BlockFormat
  import opened WordArrays
  import opened Bloom

  const BASE_LG: Octet := 11
  const BASE: nat := 2048

  /** Filter i lies at offsets[i], up to the next offset or to end. */
  function FilterAt(result: Bytes, offsets: seq<nat>, end: nat, i: nat): Bytes
    requires i < |offsets|
    requires offsets[i] <= (if i + 1 < |offsets| then offsets[i + 1] else end) <= |result|
  {
    result[offsets[i]..if i + 1 < |offsets| then offsets[i + 1] else end]
  }

  ghost predicate OffsetsOk(result: Bytes, offsets: seq<nat>, end: nat) {
    && end <= |result| && (forall i :: 0 <= i < |offsets| ==> offsets[i] <= end)
    && forall i, j :: 0 <= i <= j < |offsets| ==> offsets[i] <= offsets[j]
  }

  /** Which 2 KiB of the file a block starts in. */
  function RangeOf(block: nat): nat {
    block / BASE
  }

  /** A key, and the offset of the block that holds it. */
  datatype Added = Added(key: Bytes, block: nat)

  /** The keys of the blocks of a range, in the order in which they were added. */
  function KeysIn(added: seq<Added>, range: nat): seq<Bytes> {
    if added == [] then [] else
      var a := added[|added| - 1];
      KeysIn(added[..|added| - 1], range) + if RangeOf(a.block) == range then [a.key] else []
  }

  lemma {:induction false} KeysInHolds(added: seq<Added>, a: Added)
    requires a in added
    ensures a.key in KeysIn(added, RangeOf(a.block))
  {
    var n := |added| - 1;
    assert added == added[..n] + [added[n]];
    if a in added[..n] {
      KeysInHolds(added[..n], a);
    }
  }

  lemma {:induction false} KeysInAreAdded(added: seq<Added>, range: nat, key: Bytes)
    requires key in KeysIn(added, range)
    ensures exists a :: a in added && RangeOf(a.block) == range && a.key == key
  {
    var n := |added| - 1;
    assert added == added[..n] + [added[n]];
    if key in KeysIn(added[..n], range) {
      KeysInAreAdded(added[..n], range, key);
    }
  }

  lemma KeysInAppend(added: seq<Added>, a: Added, range: nat)
    ensures KeysIn(added + [a], range) == KeysIn(added, range) + if RangeOf(a.block) == range then [a.key] else []
  {
    assert (added + [a])[..|added|] == added;
  }

  /** No key belongs to a range after n. */
  ghost predicate UpTo(added: seq<Added>, n: nat) {
    forall a :: a in added ==> RangeOf(a.block) <= n
  }

  lemma {:induction false} NoKeysAfter(added: seq<Added>, n: nat, range: nat)
    requires UpTo(added, n) && range > n
    ensures KeysIn(added, range) == []
  {
    if added != [] {
      assert added[|added| - 1] in added;
      NoKeysAfter(added[..|added| - 1], n, range);
    }
  }

  /** The size in bits of a filter for so many keys. */
  function FilterBits(n: nat, bitsPerKey: nat): (bits: nat)
    ensures bits > 0
  {
    8 * FilterSize(n * bitsPerKey)
  }

  /** The filter of the keys, and an empty one for no keys. */
  ghost predicate IsFilter(hash: Bytes -> Hash, bitsPerKey: nat, probes: nat, keys: seq<Bytes>, filter: Bytes) {
    if keys == [] then filter == [] else
      && |filter| == FilterSize(|keys| * bitsPerKey) + 1 && filter[|filter| - 1] == probes
      && HasProbes(Words(filter[..|filter| - 1]), hash, keys, |keys|, probes)
  }

  /** In a filter of so many bits, every probe of key falls on a probe of one of the keys. */
  ghost predicate SharesProbes(hash: Bytes -> Hash, probes: nat, keys: seq<Bytes>, bits: nat, key: Bytes)
    requires bits > 0
  {
    keys != [] && forall j | 0 <= j < probes :: SharesProbe(hash, probes, keys, bits, key, j)
  }

  ghost predicate SharesProbe(hash: Bytes -> Hash, probes: nat, keys: seq<Bytes>, bits: nat, key: Bytes, j: nat)
    requires bits > 0
  {
    exists i :: 0 <= i < |keys|
      && IsProbed(bits, hash(keys[i]), probes, Position(Probe(hash(key), Delta(hash(key)), j), bits))
  }

  /** A filter matches exactly the keys whose probes all fall on probes of its own keys. */
  lemma FilterMatches(hash: Bytes -> Hash, bitsPerKey: nat, probes: nat, keys: seq<Bytes>, filter: Bytes, key: Bytes)
    requires 1 <= probes <= 30 && IsFilter(hash, bitsPerKey, probes, keys, filter)
    ensures Matches(hash, key, filter) <==>
      SharesProbes(hash, probes, keys, FilterBits(|keys|, bitsPerKey), key)
  {
    assert Unfold(IN_FILTER);
    if keys != [] {
      var bits, h := Words(filter[..|filter| - 1]), hash(key);
      forall j | 0 <= j < probes
        ensures IsSet(bits, Position(Probe(h, Delta(h), j), 8 * |bits|))
          <==> SharesProbe(hash, probes, keys, 8 * |bits|, key, j)
      {
      }
    }
  }

  /** A key shares its probes with itself. */
  lemma OwnProbes(hash: Bytes -> Hash, probes: nat, keys: seq<Bytes>, bits: nat, key: Bytes)
    requires bits > 0 && key in keys
    ensures SharesProbes(hash, probes, keys, bits, key)
  {
    var i :| 0 <= i < |keys| && keys[i] == key;
    forall j | 0 <= j < probes ensures SharesProbe(hash, probes, keys, bits, key, j) {
      assert IsProbed(bits, hash(keys[i]), probes, Position(Probe(hash(key), Delta(hash(key)), j), bits));
    }
  }

  /** Every range passed has the filter of its keys; keys are those of the present range. */
  ghost predicate Filed(hash: Bytes -> Hash, bitsPerKey: nat, probes: nat, result: Bytes, offsets: seq<nat>,
      keys: seq<Bytes>, added: seq<Added>) {
    forall k {:trigger Unfold(k)} :: k == IN_FED && Unfold(k) ==>
    && OffsetsOk(result, offsets, |result|) && keys == KeysIn(added, |offsets|)
    && forall i | 0 <= i < |offsets| ::
      IsFilter(hash, bitsPerKey, probes, KeysIn(added, i), FilterAt(result, offsets, |result|, i))
  }

  lemma KeyJoins(hash: Bytes -> Hash, bitsPerKey: nat, probes: nat, result: Bytes, offsets: seq<nat>,
      keys: seq<Bytes>, added: seq<Added>, a: Added)
    requires Filed(hash, bitsPerKey, probes, result, offsets, keys, added) && RangeOf(a.block) == |offsets|
    ensures Filed(hash, bitsPerKey, probes, result, offsets, keys + [a.key], added + [a])
  {
    assert Unfold(IN_FED);
    KeysInAppend(added, a, |offsets|);
    forall i | 0 <= i < |offsets|
      ensures IsFilter(hash, bitsPerKey, probes, KeysIn(added + [a], i), FilterAt(result, offsets, |result|, i))
    {
      KeysInAppend(added, a, i);
      assert KeysIn(added, i) + [] == KeysIn(added, i);
    }
  }

  /** The filter of the present range is written. */
  lemma RangeEnds(hash: Bytes -> Hash, bitsPerKey: nat, probes: nat, r: Bytes, o: seq<nat>, keys: seq<Bytes>,
      added: seq<Added>, filter: Bytes)
    requires Filed(hash, bitsPerKey, probes, r, o, keys, added) && UpTo(added, |o|)
    requires IsFilter(hash, bitsPerKey, probes, keys, filter)
    ensures Filed(hash, bitsPerKey, probes, r + filter, o + [|r|], [], added)
  {
    assert Unfold(IN_FED);
    var r', o' := r + filter, o + [|r|];
    NoKeysAfter(added, |o|, |o'|);
    forall i | 0 <= i < |o'|
      ensures IsFilter(hash, bitsPerKey, probes, KeysIn(added, i), FilterAt(r', o', |r'|, i))
    {
      if i < |o| {
        assert FilterAt(r', o', |r'|, i) == FilterAt(r, o, |r|, i);
      } else {
        assert FilterAt(r', o', |r'|, i) == filter;
      }
    }
  }

  /** A reader of the filter block is told that a key may be in a block exactly if every probe of the key falls on a
      probe of some key of the block's range, or the range has no filter. */
  ghost predicate TellsExactly(hash: Bytes -> Hash, bitsPerKey: nat, probes: nat, contents: Bytes, added: seq<Added>,
      ranges: nat) {
    forall block: nat, key ::
      MayMatch(hash, contents, block, key) <==>
        || RangeOf(block) >= ranges
        || SharesProbes(hash, probes, KeysIn(added, RangeOf(block)),
            FilterBits(|KeysIn(added, RangeOf(block))|, bitsPerKey), key)
  }

  class FilterBlockBuilder {
    const hash: Bytes -> Hash
    const bitsPerKey: nat
    const probes: nat
    var keys: seq<Bytes>            // keys_ and start_: what has come since the last filter
    var result: Bytes
    var filterOffsets: seq<nat>
    ghost var added: seq<Added>     // all keys so far
    ghost var block: nat            // offset of the block now being built

    ghost predicate Valid()
      reads this
    {
      && 1 <= probes <= 30 && Filed(hash, bitsPerKey, probes, result, filterOffsets, keys, added)
      && |filterOffsets| == RangeOf(block) && UpTo(added, RangeOf(block))
    }

    constructor (hash: Bytes -> Hash, bitsPerKey: nat, probes: nat)
      requires 1 <= probes <= 30
      ensures Valid() && added == [] && block == 0
      ensures this.hash == hash && this.bitsPerKey == bitsPerKey && this.probes == probes
    {
      this.hash, this.bitsPerKey, this.probes := hash, bitsPerKey, probes;
      keys, result, filterOffsets, added, block := [], [], [], [], 0;
    }

    method AddKey(key: Bytes)
      requires Valid()
      modifies this
      ensures Valid() && added == old(added) + [Added(key, block)] && block == old(block)
    {
      KeyJoins(hash, bitsPerKey, probes, result, filterOffsets, keys, added, Added(key, block));
      keys := keys + [key];
      added := added + [Added(key, block)];
    }

    /** The next filter, over the pending keys; an empty one if there are none. */
    method GenerateFilter()
      requires 1 <= probes <= 30 && UpTo(added, |filterOffsets|)
      requires Filed(hash, bitsPerKey, probes, result, filterOffsets, keys, added)
      modifies `keys, `result, `filterOffsets
      ensures Filed(hash, bitsPerKey, probes, result, filterOffsets, keys, added)
      ensures |filterOffsets| == |old(filterOffsets)| + 1
    {
      ghost var offsets := filterOffsets;
      filterOffsets := filterOffsets + [|result|];
      if keys == [] {
        RangeEnds(hash, bitsPerKey, probes, result, offsets, keys, added, []);
        assert result + [] == result;
        return;
      }
      var filter := CreateFilter(hash, bitsPerKey, probes, keys);
      RangeEnds(hash, bitsPerKey, probes, result, offsets, keys, added, filter);
      result := result + filter;
      keys := [];
    }

    /** A new block starts at that offset: write the filters for the 2 KiB ranges before it. */
    method StartBlock(offset: nat)
      requires Valid() && offset >= block
      modifies this
      ensures Valid() && added == old(added) && block == offset
    {
      var index := RangeOf(offset);
      while index > |filterOffsets|
        invariant 1 <= probes <= 30 && Filed(hash, bitsPerKey, probes, result, filterOffsets, keys, added)
        invariant added == old(added) && |filterOffsets| <= index && UpTo(added, |filterOffsets|)
      {
        GenerateFilter();
      }
      block := offset;
    }

    /** The filter block: filters, their offsets, where the offsets start, and the range size. */
    method Finish() returns (contents: Bytes)
      requires Valid()
      modifies this
      ensures added == old(added)
      ensures |contents| < LIMIT32 ==> forall a :: a in added ==> MayMatch(hash, contents, a.block, a.key)
      ensures |contents| < LIMIT32 ==> TellsExactly(hash, bitsPerKey, probes, contents, added,
          RangeOf(old(block)) + if exists a :: a in added && RangeOf(a.block) == RangeOf(old(block)) then 1 else 0)
    {
      assert Unfold(IN_FED);
      KeysNow(added, RangeOf(block));
      if keys != [] {
        GenerateFilter();
      }
      var words := PutArray(filterOffsets);
      var start := PutFixed32(|result|);
      contents := result + words + start + [BASE_LG];
      if |contents| < LIMIT32 {
        FinishTells(hash, bitsPerKey, probes, result, filterOffsets, keys, words, start, contents, added);
        forall a | a in added ensures MayMatch(hash, contents, a.block, a.key) {
          var ks := KeysIn(added, RangeOf(a.block));
          KeysInHolds(added, a);
          OwnProbes(hash, probes, ks, FilterBits(|ks|, bitsPerKey), a.key);
        }
      }
    }
  }

  /** The present range has keys to write exactly if some were added in it. */
  lemma {:induction false} KeysNow(added: seq<Added>, range: nat)
    ensures KeysIn(added, range) != [] <==> exists a :: a in added && RangeOf(a.block) == range
  {
    if added != [] {
      var n := |added| - 1;
      assert added == added[..n] + [added[n]];
      KeysNow(added[..n], range);
    }
  }

  lemma FinishTells(hash: Bytes -> Hash, bitsPerKey: nat, probes: nat, result: Bytes, offsets: seq<nat>,
      keys: seq<Bytes>, words: Bytes, w: Bytes, contents: Bytes, added: seq<Added>)
    requires 1 <= probes <= 30 && Filed(hash, bitsPerKey, probes, result, offsets, keys, added)
    requires contents == result + words + w + [BASE_LG] && |contents| < LIMIT32
    requires IsArray(words, offsets) && |w| == 4 && Holds(w, 0, |result|)
    ensures TellsExactly(hash, bitsPerKey, probes, contents, added, |offsets|)
  {
    assert Unfold(IN_FED);
    forall block: nat, key
      ensures MayMatch(hash, contents, block, key) <==>
        || RangeOf(block) >= |offsets|
        || SharesProbes(hash, probes, KeysIn(added, RangeOf(block)),
            FilterBits(|KeysIn(added, RangeOf(block))|, bitsPerKey), key)
    {
      var i := RangeOf(block);
      ReadsBack(hash, result, offsets, words, w, contents, block, key);
      if i < |offsets| {
        FilterMatches(hash, bitsPerKey, probes, KeysIn(added, i), FilterAt(result, offsets, |result|, i), key);
      }
    }
  }

  /** x >> n */
  function ShiftedRight(x: nat, n: nat): nat
    decreases n
  {
    if n == 0 then x else ShiftedRight(x / 2, n - 1)
  }

  lemma BaseShift(x: nat)
    ensures ShiftedRight(x, BASE_LG) == x / BASE
  {
    var a := x / 16;
    assert ShiftedRight(x, 11) == ShiftedRight(x / 2 / 2 / 2 / 2, 7);
    assert ShiftedRight(a, 7) == ShiftedRight(a / 2 / 2 / 2 / 2, 3);
    assert ShiftedRight(a / 16, 3) == a / 16 / 2 / 2 / 2;
  }

  // What FilterBlockReader answers for a key and a block offset.  Damaged contents match everything.

  ghost predicate MayMatch(hash: Bytes -> Hash, contents: Bytes, block: nat, key: Bytes) {
    var n := |contents|;
    n >= 5 ==> IndexMatches(hash, contents, WordAt(contents, n - 5), ShiftedRight(block, contents[n - 1]), key)
  }

  ghost predicate IndexMatches(hash: Bytes -> Hash, contents: Bytes, last: nat, index: nat, key: Bytes)
    requires |contents| >= 5
  {
    last <= |contents| - 5 && index < (|contents| - 5 - last) / 4 ==>
      RangeMatches(hash, contents, last, WordAt(contents, last + 4 * index), WordAt(contents, last + 4 * index + 4),
          key)
  }

  ghost predicate RangeMatches(hash: Bytes -> Hash, contents: Bytes, last: nat, start: nat, limit: nat, key: Bytes)
    requires last <= |contents|
  {
    if start <= limit <= last then Matches(hash, key, contents[start..limit]) else start != limit
  }

  lemma FilterInside(result: Bytes, offsets: seq<nat>, contents: Bytes, i: nat)
    requires OffsetsOk(result, offsets, |result|) && result <= contents && i < |offsets|
    ensures contents[offsets[i]..if i + 1 < |offsets| then offsets[i + 1]
        else |result|] == FilterAt(result, offsets, |result|, i)
  {
  }

  lemma IndexedBack(hash: Bytes -> Hash, result: Bytes, offsets: seq<nat>, words: Bytes, w: Bytes, contents: Bytes,
      i: nat, key: Bytes)
    requires OffsetsOk(result, offsets, |result|) && contents == result + words + w + [BASE_LG] && |contents| < LIMIT32
    requires IsArray(words, offsets) && |w| == 4 && Holds(w, 0, |result|)
    ensures |contents| >= 5 && WordAt(contents, |contents| - 5) == |result|
    ensures IndexMatches(hash, contents, |result|, i, key) <==>
      (i < |offsets| ==> Matches(hash, key, FilterAt(result, offsets, |result|, i)))
  {
    ArrayInside(result, words, w, [BASE_LG], contents, offsets, |result|);
    if i < |offsets| {
      var end := if i + 1 < |offsets| then offsets[i + 1] else |result|;
      FilterInside(result, offsets, contents, i);
      assert WordAt(contents, |result| + 4 * i + 4) == end by {
        assert i + 1 < |offsets| ==> WordAt(contents, |result| + 4 * (i + 1)) == offsets[i + 1];
      }
      assert RangeMatches(hash, contents, |result|, offsets[i], end, key) <==>
        Matches(hash, key, FilterAt(result, offsets, |result|, i));
    }
  }

  /** The reader asks the filter of the block's range, and takes a range without a filter to match. */
  lemma ReadsBack(hash: Bytes -> Hash, result: Bytes, offsets: seq<nat>, words: Bytes, w: Bytes, contents: Bytes,
      block: nat, key: Bytes)
    requires OffsetsOk(result, offsets, |result|) && contents == result + words + w + [BASE_LG] && |contents| < LIMIT32
    requires IsArray(words, offsets) && |w| == 4 && Holds(w, 0, |result|)
    ensures MayMatch(hash, contents, block, key) <==>
      (RangeOf(block) < |offsets| ==> Matches(hash, key, FilterAt(result, offsets, |result|, RangeOf(block))))
  {
    BaseShift(block);
    IndexedBack(hash, result, offsets, words, w, contents, RangeOf(block), key);
  }

  method KeyMayMatchRange(hash: Bytes -> Hash, contents: Bytes, last: nat, start: nat, limit: nat, key: Bytes)
      returns (r: bool)
    requires last <= |contents|
    ensures r <==> RangeMatches(hash, contents, last, start, limit, key)
  {
    if start <= limit && limit <= last {
      r := Bloom.KeyMayMatch(hash, key, contents[start..limit]);
    } else {
      r := start != limit;
    }
  }

  method KeyMayMatchIndex(hash: Bytes -> Hash, contents: Bytes, last: nat, index: nat, key: Bytes) returns (r: bool)
    requires |contents| >= 5
    ensures r <==> IndexMatches(hash, contents, last, index, key)
  {
    if last > |contents| - 5 || index >= (|contents| - 5 - last) / 4 {
      return true;
    }
    r := KeyMayMatchRange(hash, contents, last, WordAt(contents, last + 4 * index),
        WordAt(contents, last + 4 * index + 4), key);
  }

  /** FilterBlockReader. */
  method KeyMayMatch(hash: Bytes -> Hash, contents: Bytes, block: nat, key: Bytes) returns (r: bool)
    ensures r <==> MayMatch(hash, contents, block, key)
  {
    var n := |contents|;
    if n < 5 {
      return true;
    }
    r := KeyMayMatchIndex(hash, contents, WordAt(contents, n - 5), ShiftedRight(block, contents[n - 1]), key);
  }
}
