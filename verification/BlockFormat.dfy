/** What a table block looks like: prefix-compressed entries, restart points, and where they start
    (table/block_builder.cc). */
module BlockFormat {
  import opened Varints

  /** The entries of a block; how many bytes each key shares with the one before; where entry i starts, the end
      last; and the entries at which restart points lie. */
  datatype Shape = Shape(entries: seq<(Bytes, Bytes)>, shared: seq<nat>, offsets: seq<nat>, restarts: seq<nat>)

  /** The three lengths before an entry. */
  function Header(shared: nat, nonShared: nat, valueLength: nat): (r: Bytes)
    ensures |r| >= 3
  {
    Varint(shared) + Varint(nonShared) + Varint(valueLength)
  }

  function Code(shared: nat, key: Bytes, value: Bytes): (r: Bytes)
    requires shared <= |key|
    ensures |r| >= 3
  {
    Header(shared, |key| - shared, |value|) + (key[shared..] + value)
  }

  predicate Sized(sh: Shape) {
    |sh.shared| == |sh.entries| && |sh.offsets| == |sh.entries| + 1 && sh.offsets[0] == 0
  }

  /** The key of entry i takes its first bytes from the key before. */
  predicate Shares(sh: Shape, i: nat)
    requires Sized(sh) && i < |sh.entries|
  {
    var key := sh.entries[i].0;
    && sh.shared[i] <= |key| < LIMIT32 && |sh.entries[i].1| < LIMIT32
    && (i == 0 ==> sh.shared[i] == 0)
    && (i > 0 ==> sh.shared[i] <= |sh.entries[i - 1].0| && sh.entries[i - 1].0[..sh.shared[i]] == key[..sh.shared[i]])
  }

  ghost predicate EntryAt(data: Bytes, sh: Shape, i: nat)
    requires Sized(sh) && i < |sh.entries|
  {
    && Shares(sh, i)
    && At(data, sh.offsets[i], Code(sh.shared[i], sh.entries[i].0, sh.entries[i].1))
    && sh.offsets[i + 1] == sh.offsets[i] + |Code(sh.shared[i], sh.entries[i].0, sh.entries[i].1)|
  }

  /** data starts with the entries, which take up its first end bytes. */
  ghost predicate EntriesAt(data: Bytes, end: nat, sh: Shape) {
    && Sized(sh) && sh.offsets[|sh.entries|] == end <= |data|
    && forall i {:trigger EntryAt(data, sh, i)} :: 0 <= i < |sh.entries| ==> EntryAt(data, sh, i)
  }

  /** Restart points lie at entries with whole keys, the first at the first entry. */
  ghost predicate RestartsOk(sh: Shape)
    requires Sized(sh)
  {
    && |sh.restarts| > 0 && sh.restarts[0] == 0
    && (forall j :: 0 <= j < |sh.restarts| ==> sh.restarts[j] <= |sh.entries|)
    && (forall j :: 0 <= j < |sh.restarts| && sh.restarts[j] < |sh.entries| ==> sh.shared[sh.restarts[j]] == 0)
    && (forall j :: 0 < j < |sh.restarts| ==> sh.restarts[j] < |sh.entries|)
    && (forall j, k :: 0 <= j < k < |sh.restarts| ==> sh.restarts[j] < sh.restarts[k])
  }

  /** The word at offset p. */
  function WordAt(data: Bytes, p: nat): nat
    requires p + 4 <= |data|
  {
    Unfixed(data[p], data[p + 1], data[p + 2], data[p + 3])
  }

  /** A finished block: entries, restart array, number of restarts. */
  ghost predicate BlockOk(data: Bytes, end: nat, num: nat, sh: Shape) {
    && EntriesAt(data, end, sh) && RestartsOk(sh) && num == |sh.restarts|
    && |data| == end + 4 * num + 4 && |data| < LIMIT32 && WordAt(data, end + 4 * num) == num
    && forall j {:trigger sh.restarts[j]} :: 0 <= j < num ==> WordAt(data, end + 4 * j) == sh.offsets[sh.restarts[j]]
  }

  lemma {:induction false} OffsetsGrow(data: Bytes, end: nat, sh: Shape, i: nat, j: nat)
    requires EntriesAt(data, end, sh) && i <= j <= |sh.entries|
    ensures sh.offsets[i] <= sh.offsets[j] && (i < j ==> sh.offsets[i] < sh.offsets[j])
    decreases j
  {
    if i < j {
      OffsetsGrow(data, end, sh, i, j - 1);
      assert EntryAt(data, sh, j - 1);
    }
  }

  lemma OffsetOrder(data: Bytes, end: nat, sh: Shape, i: nat, j: nat)
    requires EntriesAt(data, end, sh) && i <= |sh.entries| && j <= |sh.entries|
    ensures sh.offsets[i] < sh.offsets[j] <==> i < j
  {
    if i < j {
      OffsetsGrow(data, end, sh, i, j);
    } else {
      OffsetsGrow(data, end, sh, j, i);
    }
  }

  /** One entry more at the end. */
  lemma EntryAppends(data: Bytes, sh: Shape, shared: nat, key: Bytes, value: Bytes, sh': Shape)
    requires EntriesAt(data, |data|, sh) && shared <= |key| < LIMIT32 && |value| < LIMIT32
    requires if sh.entries == [] then shared == 0 else
             var last := sh.entries[|sh.entries| - 1].0; shared <= |last| && last[..shared] == key[..shared]
    requires sh'.entries == sh.entries + [(key, value)] && sh'.shared == sh.shared + [shared]
    requires sh'.offsets == sh.offsets + [|data + Code(shared, key, value)|]
    ensures EntriesAt(data + Code(shared, key, value), |data + Code(shared, key, value)|, sh')
  {
    var data' := data + Code(shared, key, value);
    forall i | 0 <= i < |sh'.entries| ensures EntryAt(data', sh', i) {
      if i < |sh.entries| {
        assert EntryAt(data, sh, i);
        EntryStays(data, data', sh, sh', i);
      } else {
        assert data'[|data|..] == Code(shared, key, value);
      }
    }
  }

  lemma EntryStays(data: Bytes, data': Bytes, sh: Shape, sh': Shape, i: nat)
    requires Sized(sh) && Sized(sh') && i < |sh.entries| && EntryAt(data, sh, i) && data <= data'
    requires sh.entries <= sh'.entries && sh.shared <= sh'.shared && sh.offsets <= sh'.offsets
    ensures EntryAt(data', sh', i)
  {
    var code := Code(sh.shared[i], sh.entries[i].0, sh.entries[i].1);
    assert data'[sh.offsets[i]..sh.offsets[i] + |code|] == data[sh.offsets[i]..sh.offsets[i] + |code|];
  }
}
