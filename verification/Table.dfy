/** Building a table and looking a key up in it: index, filter, block (table/table_builder.cc, table/table.cc). */
module Table {
  import opened Wrappers
  import opened Varints
  import opened Bytewise
  import opened Bloom
  import opened FilterBlock

  datatype Entry = Entry(key: InternalKey, value: Bytes)

  /** A block of the file with its offset and its key in the index. */
  datatype Section = Section(entries: seq<Entry>, offset: nat, limit: InternalKey)

  /** What is on disk: index entries, blocks by offset, and the filter block. */
  datatype Table = Table(index: seq<(InternalKey, nat)>, stored: map<nat, seq<Entry>>, filter: Bytes)

  ghost predicate Sorted(s: seq<Entry>) {
    forall i, j :: 0 <= i < j < |s| ==> Before(s[i].key, s[j].key)
  }

  /** The index key of a section: not before its keys, and either its last key or with a user key of its own. */
  ghost predicate Closed(sec: Section) {
    && sec.entries != [] && Sorted(sec.entries)
    && forall x :: x in sec.entries ==> NotAfter(x.key, sec.limit)
  }

  /** y lies after the section, and if the index key was shortened no key up to it has the user key of y. */
  ghost predicate Follows(sec: Section, y: Entry)
    requires sec.entries != []
  {
    Before(sec.limit, y.key) && (sec.limit == sec.entries[|sec.entries| - 1].key || Less(sec.limit.user, y.key.user))
  }

  ghost predicate SectionsOk(secs: seq<Section>) {
    && (forall i {:trigger secs[i]} :: 0 <= i < |secs| ==> Closed(secs[i]))
    && forall i, j, y {:trigger Follows(secs[i], y), secs[j]} :: 0 <= i < j < |secs| && y in secs[j].entries ==>
        Follows(secs[i], y)
  }

  ghost predicate FilterOk(hash: Bytes -> Hash, filter: Bytes, secs: seq<Section>) {
    forall i, x {:trigger MayMatch(hash, filter, secs[i].offset, x.key.user)} ::
        0 <= i < |secs| && x in secs[i].entries ==>
      MayMatch(hash, filter, secs[i].offset, x.key.user)
  }

  ghost predicate TableOk(hash: Bytes -> Hash, t: Table, secs: seq<Section>) {
    && SectionsOk(secs) && |t.index| == |secs|
    && (forall i {:trigger secs[i]} :: 0 <= i < |secs| ==>
          t.index[i] == (secs[i].limit, secs[i].offset) && secs[i].offset in t.stored
              && t.stored[secs[i].offset] == secs[i].entries)
    && FilterOk(hash, t.filter, secs)
  }

  /** The filter lets a key pass to a block only if each probe of the key falls on a probe of some entry in a block of
      the same 2 KiB of the file. */
  ghost predicate FilterTight(hash: Bytes -> Hash, probes: nat, filter: Bytes, secs: seq<Section>) {
    forall i, key | 0 <= i < |secs| && MayMatch(hash, filter, secs[i].offset, key) ::
      exists bits: nat :: AllProbedInRange(hash, probes, secs, i, key, bits)
  }

  ghost predicate AllProbedInRange(hash: Bytes -> Hash, probes: nat, secs: seq<Section>, i: nat, key: Bytes, bits: nat)
    requires i < |secs|
  {
    bits > 0 && forall j | 0 <= j < probes :: ProbedInRange(hash, probes, secs, i, key, bits, j)
  }

  /** Probe j of key is a probe of some entry near section i. */
  ghost predicate ProbedInRange(hash: Bytes -> Hash, probes: nat, secs: seq<Section>, i: nat, key: Bytes, bits: nat,
      j: nat)
    requires i < |secs| && bits > 0
  {
    exists s, x ::
      && 0 <= s < |secs| && x in secs[s].entries && RangeOf(secs[s].offset) == RangeOf(secs[i].offset)
      && IsProbed(bits, hash(x.key.user), probes, Position(Probe(hash(key), Delta(hash(key)), j), bits))
  }

  ghost predicate InTable(secs: seq<Section>, x: Entry) {
    exists i :: 0 <= i < |secs| && x in secs[i].entries
  }

  /** The index cursor's Seek: the first index key not before k. */
  method SeekIndex(index: seq<(InternalKey, nat)>, k: InternalKey) returns (b: nat)
    ensures b <= |index| && (forall a :: 0 <= a < b ==> Before(index[a].0, k))
        && (b < |index| ==> !Before(index[b].0, k))
  {
    b := 0;
    while b < |index| && Before(index[b].0, k)
      invariant b <= |index| && forall a :: 0 <= a < b ==> Before(index[a].0, k)
    {
      b := b + 1;
    }
  }

  method SeekBlock(block: seq<Entry>, k: InternalKey) returns (p: nat)
    ensures p <= |block| && (forall a :: 0 <= a < p ==> Before(block[a].key, k))
        && (p < |block| ==> !Before(block[p].key, k))
  {
    p := 0;
    while p < |block| && Before(block[p].key, k)
      invariant p <= |block| && forall a :: 0 <= a < p ==> Before(block[a].key, k)
    {
      p := p + 1;
    }
  }

  /** x is an entry of k's user key, not newer than k. */
  predicate Wanted(x: Entry, k: InternalKey) {
    x.key.user == k.user && !Before(x.key, k)
  }

  /** r is the newest entry of k's user key that k can see; if there is none, r has another user key. */
  ghost predicate IsAnswer(secs: seq<Section>, k: InternalKey, r: Option<Entry>) {
    && (r.Some? ==> InTable(secs, r.value))
    && (forall x :: InTable(secs, x) && Wanted(x, k) ==> r.Some? && Wanted(r.value, k) && NotAfter(r.value.key, x.key))
  }

  /** The entry handed to the saver, if any. */
  method InternalGet(hash: Bytes -> Hash, t: Table, k: InternalKey, ghost secs: seq<Section>) returns (r: Option<Entry>)
    requires TableOk(hash, t, secs)
    ensures IsAnswer(secs, k, r)
  {
    var b := SeekIndex(t.index, k);
    if b >= |t.index| {
      AllBefore(secs, k);
      return None;
    }
    var offset := t.index[b].1;
    assert secs[b].offset == offset;
    var mayMatch := FilterBlock.KeyMayMatch(hash, t.filter, offset, k.user);
    if !mayMatch {
      FilteredOut(hash, t, secs, k, b);
      return None;
    }
    var block := t.stored[offset];
    var p := SeekBlock(block, k);
    FirstInSection(secs, k, b, p);
    return if p < |block| then Some(block[p]) else None;
  }

  lemma NoneLater(secs: seq<Section>, k: InternalKey, i: nat, x: Entry)
    requires SectionsOk(secs) && i < |secs| && x in secs[i].entries && Before(secs[i].limit, k)
    ensures Before(x.key, k)
  {
    assert Closed(secs[i]);
    if x.key != secs[i].limit {
      BeforeTransitive(x.key, secs[i].limit, k);
    }
  }

  lemma AllBefore(secs: seq<Section>, k: InternalKey)
    requires SectionsOk(secs) && forall i {:trigger secs[i]} :: 0 <= i < |secs| ==> Before(secs[i].limit, k)
    ensures forall x :: InTable(secs, x) ==> Before(x.key, k)
  {
    forall x | InTable(secs, x) ensures Before(x.key, k) {
      var i :| 0 <= i < |secs| && x in secs[i].entries;
      NoneLater(secs, k, i, x);
    }
  }

  /** Between a key and a later entry of the same user key there are only keys of that user key. */
  lemma Sandwich(k: InternalKey, m: InternalKey, x: InternalKey)
    requires !Before(m, k) && Before(m, x) && k.user == x.user
    ensures m.user == k.user
  {
    LessTotal(m.user, k.user);
    LessTotal(m.user, x.user);
  }

  /** If any section holds a wanted entry, the one the index leads to does, as its last entry or before. */
  lemma WantedInSection(secs: seq<Section>, k: InternalKey, b: nat, i: nat, x: Entry) returns (z: Entry)
    requires SectionsOk(secs) && b < |secs| && !Before(secs[b].limit, k)
        && (forall a {:trigger secs[a]} :: 0 <= a < b ==> Before(secs[a].limit, k))
    requires i < |secs| && x in secs[i].entries && Wanted(x, k)
    ensures b <= i && z in secs[b].entries && Wanted(z, k) && (i == b ==> z == x)
        && (b < i ==> Before(secs[b].limit, x.key))
  {
    if i < b {
      NoneLater(secs, k, i, x);
      assert false;
    }
    z := x;
    if b < i {
      assert Closed(secs[b]) && Follows(secs[b], x);
      Sandwich(k, secs[b].limit, x.key);
      LessTotal(x.key.user, x.key.user);
      z := secs[b].entries[|secs[b].entries| - 1];
    }
  }

  lemma FilteredOut(hash: Bytes -> Hash, t: Table, secs: seq<Section>, k: InternalKey, b: nat)
    requires TableOk(hash, t, secs) && b < |secs| && !Before(secs[b].limit, k)
        && (forall a {:trigger secs[a]} :: 0 <= a < b ==> Before(secs[a].limit, k))
    requires !MayMatch(hash, t.filter, secs[b].offset, k.user)
    ensures forall x :: InTable(secs, x) ==> !Wanted(x, k)
  {
    forall z | z in secs[b].entries ensures z.key.user != k.user {
      assert MayMatch(hash, t.filter, secs[b].offset, z.key.user);
    }
    forall x | InTable(secs, x) ensures !Wanted(x, k) {
      var i :| 0 <= i < |secs| && x in secs[i].entries;
      if Wanted(x, k) {
        var z := WantedInSection(secs, k, b, i, x);
      }
    }
  }

  lemma FirstInSection(secs: seq<Section>, k: InternalKey, b: nat, p: nat)
    requires SectionsOk(secs) && b < |secs| && !Before(secs[b].limit, k)
        && (forall a {:trigger secs[a]} :: 0 <= a < b ==> Before(secs[a].limit, k))
    requires p <= |secs[b].entries| && (forall a :: 0 <= a < p ==> Before(secs[b].entries[a].key, k))
    requires p < |secs[b].entries| ==> !Before(secs[b].entries[p].key, k)
    ensures IsAnswer(secs, k, if p < |secs[b].entries| then Some(secs[b].entries[p]) else None)
  {
    var block := secs[b].entries;
    assert p < |block| ==> block[p] in secs[b].entries;
    forall x | InTable(secs, x) && Wanted(x, k)
      ensures p < |block| && Wanted(block[p], k) && NotAfter(block[p].key, x.key)
    {
      var i :| 0 <= i < |secs| && x in secs[i].entries;
      var z := WantedInSection(secs, k, b, i, x);
      FirstUpTo(secs, k, b, p, z);
      if b < i {
        assert Closed(secs[b]);
        if block[p].key != secs[b].limit {
          BeforeTransitive(block[p].key, secs[b].limit, x.key);
        }
      }
    }
  }

  lemma FirstUpTo(secs: seq<Section>, k: InternalKey, b: nat, p: nat, z: Entry)
    requires SectionsOk(secs) && b < |secs| && z in secs[b].entries && Wanted(z, k)
    requires p <= |secs[b].entries| && (forall a :: 0 <= a < p ==> Before(secs[b].entries[a].key, k))
    requires p < |secs[b].entries| ==> !Before(secs[b].entries[p].key, k)
    ensures p < |secs[b].entries| && Wanted(secs[b].entries[p], k) && NotAfter(secs[b].entries[p].key, z.key)
  {
    var block := secs[b].entries;
    assert Closed(secs[b]);
    var j :| 0 <= j < |block| && block[j] == z;
    if p < j {
      assert Before(block[p].key, z.key);
      Sandwich(k, block[p].key, z.key);
    }
  }

  // ----- lookup keys -----

  /** PackSequenceAndType. */
  function Pack(sequence: nat, isValue: bool): nat {
    sequence * 256 + if isValue then 1 else 0
  }

  /** A lookup key (u, s) sees exactly the entries of u with a sequence number of at most s; later tags are newer. */
  lemma LookupSees(x: Entry, u: Bytes, s: nat, sequence: nat, isValue: bool)
    requires x.key.tag == Pack(sequence, isValue)
    ensures Wanted(x, InternalKey(u, Pack(s, true))) <==> x.key.user == u && sequence <= s
  {
    LessTotal(u, u);
  }

  // ----- building -----

  /** The sections with a known index key, the one whose index key waits for the next entry, and the open block. */
  datatype Progress = Progress(closed: seq<Section>, pending: Option<(seq<Entry>, nat)>, open: seq<Entry>)

  /** All entries, in order. */
  ghost predicate ProgressOk(g: Progress) {
    && SectionsOk(g.closed) && Sorted(g.open)
    && (g.pending.Some? ==> g.open == [] && g.pending.value.0 != [] && Sorted(g.pending.value.0))
    && (forall i, y {:trigger Follows(g.closed[i], y)} :: 0 <= i < |g.closed| && y in Tail(g) ==>
        Follows(g.closed[i], y))
  }

  /** Entries after the closed sections. */
  function Tail(g: Progress): seq<Entry> {
    (if g.pending.Some? then g.pending.value.0 else []) + g.open
  }

  /** The last entry so far. */
  ghost predicate IsLast(g: Progress, key: InternalKey) {
    && (Tail(g) != [] ==> Tail(g)[|Tail(g)| - 1].key == key)
    && (Tail(g) == [] ==> g.closed == [])
  }

  ghost predicate OnDisk(g: Progress, index: seq<(InternalKey, nat)>, stored: map<nat, seq<Entry>>, offset: nat) {
    && |index| == |g.closed|
    && (forall i {:trigger g.closed[i]} :: 0 <= i < |g.closed| ==>
          && index[i] == (g.closed[i].limit, g.closed[i].offset) && g.closed[i].offset < offset
          && g.closed[i].offset in stored && stored[g.closed[i].offset] == g.closed[i].entries)
    && (g.pending.Some? ==>
        g.pending.value.1 < offset && g.pending.value.1 in stored && stored[g.pending.value.1] == g.pending.value.0)
  }

  /** What the filter builder gets for the entries of a block. */
  function BlockKeys(entries: seq<Entry>, offset: nat): seq<Added> {
    seq(|entries|, i requires 0 <= i < |entries| => Added(entries[i].key.user, offset))
  }

  function SectionKeys(secs: seq<Section>): seq<Added> {
    if secs == [] then [] else
      var sec := secs[|secs| - 1];
      SectionKeys(secs[..|secs| - 1]) + BlockKeys(sec.entries, sec.offset)
  }

  lemma {:induction false} SectionKeysHold(secs: seq<Section>, a: Added)
    ensures a in SectionKeys(secs) <==>
      exists i, x :: 0 <= i < |secs| && x in secs[i].entries && a == Added(x.key.user, secs[i].offset)
  {
    if secs != [] {
      var n := |secs| - 1;
      SectionKeysHold(secs[..n], a);
      assert secs == secs[..n] + [secs[n]];
      var keys := BlockKeys(secs[n].entries, secs[n].offset);
      if a in keys {
        var j :| 0 <= j < |keys| && keys[j] == a;
        assert secs[n].entries[j] in secs[n].entries;
      }
      if i, x :| 0 <= i < |secs| && x in secs[i].entries && a == Added(x.key.user, secs[i].offset) {
        if i == n {
          var j :| 0 <= j < |secs[n].entries| && secs[n].entries[j] == x;
          assert keys[j] == a;
        } else {
          assert secs[..n][i] == secs[i];
        }
      }
    }
  }

  /** The filter builder has got every entry's user key, with the offset of its block, and nothing else. */
  ghost predicate FilterFed(g: Progress, added: seq<Added>, offset: nat) {
    forall k {:trigger Unfold(k)} :: k == IN_FED && Unfold(k) ==>
      added == SectionKeys(g.closed)
      + (if g.pending.Some? then BlockKeys(g.pending.value.0, g.pending.value.1) else []) + BlockKeys(g.open, offset)
  }

  /** The pending section gets its index key: one that divides its last key from the next entry. */
  lemma SectionCloses(g: Progress, limit: InternalKey, next: Option<Entry>) returns (g': Progress)
    requires ProgressOk(g) && g.pending.Some?
    requires var last := g.pending.value.0[|g.pending.value.0| - 1].key;
      NotAfter(last, limit) && (next.Some? ==> Divides(last, limit, next.value.key))
    ensures g' == Progress(g.closed + [Section(g.pending.value.0, g.pending.value.1, limit)], None, g.open)
        && ProgressOk(g')
    ensures next.Some? ==> Follows(g'.closed[|g.closed|], next.value)
  {
    var entries := g.pending.value.0;
    var sec := Section(entries, g.pending.value.1, limit);
    g' := Progress(g.closed + [sec], None, g.open);
    ClosedSection(entries, limit, sec);
    forall i, j, y | 0 <= i < j < |g'.closed| && y in g'.closed[j].entries ensures Follows(g'.closed[i], y) {
      if j == |g.closed| {
        assert y in Tail(g);
        assert Follows(g.closed[i], y);
      } else {
        assert g'.closed[j] == g.closed[j] && Follows(g.closed[i], y);
      }
    }
    forall i | 0 <= i < |g'.closed| ensures Closed(g'.closed[i]) {
      assert i < |g.closed| ==> g'.closed[i] == g.closed[i];
    }
  }

  lemma ClosedSection(entries: seq<Entry>, limit: InternalKey, sec: Section)
    requires entries != [] && Sorted(entries) && NotAfter(entries[|entries| - 1].key, limit) && sec.entries == entries
        && sec.limit == limit
    ensures Closed(sec)
  {
    forall x | x in entries ensures NotAfter(x.key, limit) {
      var i :| 0 <= i < |entries| && entries[i] == x;
      var last := entries[|entries| - 1].key;
      if i < |entries| - 1 && last != limit {
        BeforeTransitive(x.key, last, limit);
      }
    }
  }

  /** Every closed section is followed by what comes after an entry that follows it. */
  lemma FollowsOn(sec: Section, a: Entry, b: Entry)
    requires sec.entries != [] && Follows(sec, a) && Before(a.key, b.key)
    ensures Follows(sec, b)
  {
    BeforeTransitive(sec.limit, a.key, b.key);
    if sec.limit != sec.entries[|sec.entries| - 1].key && a.key.user != b.key.user {
      LessTransitive(sec.limit.user, a.key.user, b.key.user);
    }
  }
}
