/** Writing a table entry by entry (table/table_builder.cc). */
module TableBuilder {
  import opened Wrappers
  import opened Varints
  import opened Bytewise
  import opened Bloom
  import opened FilterBlock
  import opened Table

  ghost predicate HoldsAll(g: Progress, all: seq<Entry>) {
    forall x :: x in all <==> InTable(g.closed, x) || x in Tail(g)
  }

  /** The sections already closed are followed by an entry that comes after the last one. */
  lemma ClosedAreFollowed(g: Progress, key: InternalKey, x: Entry)
    requires ProgressOk(g) && IsLast(g, key) && (Tail(g) != [] ==> Before(key, x.key))
    ensures forall i {:trigger g.closed[i]} :: 0 <= i < |g.closed| ==> Follows(g.closed[i], x)
  {
    forall i | 0 <= i < |g.closed| ensures Follows(g.closed[i], x) {
      assert Closed(g.closed[i]);
      var last := Tail(g)[|Tail(g)| - 1];
      assert last in Tail(g) && Follows(g.closed[i], last);
      FollowsOn(g.closed[i], last, x);
    }
  }

  lemma InTableGrows(secs: seq<Section>, sec: Section, x: Entry)
    ensures InTable(secs + [sec], x) <==> InTable(secs, x) || x in sec.entries
  {
    if InTable(secs, x) {
      var i :| 0 <= i < |secs| && x in secs[i].entries;
      assert (secs + [sec])[i] == secs[i];
    }
    if x in sec.entries {
      assert (secs + [sec])[|secs|] == sec;
    }
  }

  class TableBuilder {
    const hash: Bytes -> Hash
    const filterBlock: FilterBlockBuilder
    var offset: nat
    var index: seq<(InternalKey, nat)>
    var stored: map<nat, seq<Entry>>
    var dataBlock: seq<Entry>
    var lastKey: InternalKey
    var numEntries: nat
    var pendingIndexEntry: bool
    var pendingHandle: nat
    ghost var g: Progress
    ghost var all: seq<Entry>

    /** The ghost progress is what the fields say. */
    ghost predicate Matches()
      reads this
    {
      && g.open == dataBlock && pendingIndexEntry == g.pending.Some?
          && (g.pending.Some? ==> g.pending.value.1 == pendingHandle)
      && OnDisk(g, index, stored, offset)
    }

    ghost predicate Fed()
      reads this, filterBlock
    {
      filterBlock.Valid() && filterBlock.block == offset && filterBlock.hash == hash
          && FilterFed(g, filterBlock.added, offset)
    }

    ghost predicate Valid()
      reads this, filterBlock
    {
      ProgressOk(g) && Matches() && Fed() && HoldsAll(g, all) && IsLast(g, lastKey)
          && (numEntries == 0 ==> g.closed == [] && Tail(g) == [])
    }

    constructor (hash: Bytes -> Hash, bitsPerKey: nat, probes: nat)
      requires 1 <= probes <= 30
      ensures Valid() && all == [] && fresh(filterBlock) && this.hash == hash
      ensures filterBlock.bitsPerKey == bitsPerKey && filterBlock.probes == probes
    {
      this.hash := hash;
      filterBlock := new FilterBlockBuilder(hash, bitsPerKey, probes);
      offset, index, stored, dataBlock, lastKey, numEntries, pendingIndexEntry, pendingHandle := 0, [], map[], [],
          InternalKey([], 0), 0, false, 0;
      g, all := Progress([], None, []), [];
    }

    /** Give the pending section its index key, now that the next key is known. */
    method ClosePending(next: Option<Entry>, limit: InternalKey)
      requires Valid() && pendingIndexEntry
      requires NotAfter(lastKey, limit) && (next.Some? ==> Divides(lastKey, limit, next.value.key))
      modifies this
      ensures Matches() && ProgressOk(g) && Fed() && HoldsAll(g, all) && all == old(all) && !pendingIndexEntry
          && g.open == []
      ensures g.closed == old(g.closed) + [Section(old(g.pending).value.0, old(g.pending).value.1, limit)]
      ensures offset == old(offset) && lastKey == old(lastKey)
      ensures next.Some? ==> forall i {:trigger g.closed[i]} :: 0 <= i < |g.closed| ==> Follows(g.closed[i], next.value)
    {
      ghost var g0 := g;
      if next.Some? {
        DividesIsBefore(lastKey, limit, next.value.key);
        ClosedAreFollowed(g, lastKey, next.value);
      }
      ghost var g1 := SectionCloses(g, limit, next);
      forall x ensures InTable(g1.closed, x) <==> InTable(g0.closed, x) || x in g0.pending.value.0 {
        InTableGrows(g0.closed, Section(g0.pending.value.0, g0.pending.value.1, limit), x);
      }
      FedCloses(g, g1, Section(g.pending.value.0, g.pending.value.1, limit), filterBlock.added, offset);
      index := index + [(limit, pendingHandle)];
      pendingIndexEntry := false;
      g := g1;
    }

    /** The data block goes to the file; size is the number of bytes that takes. */
    method WriteBlock(size: nat)
      requires Valid() && size > 0 && dataBlock != []
      modifies this
      ensures ProgressOk(g) && Matches() && HoldsAll(g, all) && IsLast(g, lastKey)
      ensures offset == old(offset) + size && FilterFed(g, filterBlock.added, offset)
      ensures all == old(all) && lastKey == old(lastKey) && numEntries == old(numEntries)
      ensures g == Progress(old(g).closed, Some((old(g).open, old(offset))), [])
    {
      FlushOk(g, index, stored, stored[offset := dataBlock], offset, offset + size, filterBlock.added);
      FlushHolds(g, offset, all, lastKey);
      g, stored := Progress(g.closed, Some((dataBlock, offset)), []), stored[offset := dataBlock];
      dataBlock, pendingHandle, pendingIndexEntry, offset := [], offset, true, offset + size;
    }

    /** Write the data block, if there is one. */
    method Flush(size: nat)
      requires Valid() && size > 0
      modifies this, filterBlock
      ensures Valid() && all == old(all) && lastKey == old(lastKey) && numEntries == old(numEntries)
      ensures g.open == []
      ensures g.pending == if old(g.open) == [] then old(g.pending) else Some((old(g.open), old(offset)))
      ensures g.closed == old(g.closed)
    {
      if dataBlock == [] {
        return;
      }
      WriteBlock(size);
      filterBlock.StartBlock(offset);
    }

    /** Add an entry after all others. */
    method Add(x: Entry, full: bool, size: nat)
      requires Valid() && size > 0 && (numEntries > 0 ==> Before(lastKey, x.key))
      modifies this, filterBlock
      ensures Valid() && all == old(all) + [x] && lastKey == x.key && numEntries > 0
      ensures if full then g.pending == Some((old(g.open) + [x], old(offset))) && g.open == []
        else g.pending == None && g.open == old(g.open) + [x]
      ensures old(g.pending).None? ==> g.closed == old(g.closed)
      ensures old(g.pending).Some? ==> |g.closed| == |old(g.closed)| + 1 && old(g.closed) <= g.closed
      ensures old(g.pending).Some? ==> IsSeparator(old(lastKey), x.key, g.closed[|old(g.closed)|].limit)
    {
      if pendingIndexEntry {
        var limit := FindShortestInternalSeparator(lastKey, x.key);
        ClosePending(Some(x), limit);
      } else {
        ClosedAreFollowed(g, lastKey, x);
      }
      Append(x);
      if full {
        Flush(size);
      }
    }

    /** The entry goes to the data block and to the filter. */
    method Append(x: Entry)
      requires Matches() && ProgressOk(g) && Fed() && HoldsAll(g, all) && !pendingIndexEntry
      requires forall i {:trigger g.closed[i]} :: 0 <= i < |g.closed| ==> Follows(g.closed[i], x)
      requires g.open != [] ==> g.open[|g.open| - 1].key == lastKey && Before(lastKey, x.key)
      modifies this, filterBlock
      ensures Valid() && all == old(all) + [x] && lastKey == x.key && numEntries > 0
      ensures g == old(g).(open := old(g).open + [x]) && offset == old(offset)
    {
      AppendOk(g, lastKey, x);
      FedAppends(g, x, filterBlock.added, offset);
      filterBlock.AddKey(x.key.user);
      lastKey, numEntries := x.key, numEntries + 1;
      dataBlock := dataBlock + [x];
      g := g.(open := g.open + [x]);
      all := all + [x];
    }

    /** The last block gets its index key: a short one, after all keys. */
    method CloseLast(size: nat)
      requires Valid() && size > 0
      modifies this, filterBlock
      ensures Matches() && ProgressOk(g) && Fed() && HoldsAll(g, all) && all == old(all) && lastKey == old(lastKey)
      ensures g.pending.None? && g.open == []
      ensures all != [] ==> g.closed != [] && IsSuccessor(lastKey, g.closed[|g.closed| - 1].limit)
    {
      assert all != [] ==> all[0] in all;
      Flush(size);
      if pendingIndexEntry {
        var limit := FindShortInternalSuccessor(lastKey);
        ClosePending(None, limit);
      }
    }

    /** The finished table. */
    method Finish(size: nat) returns (t: Table)
      requires Valid() && size > 0
      modifies this, filterBlock
      ensures all == old(all)
      ensures |t.filter| < LIMIT32 ==> TableOk(hash, t, g.closed) && forall x :: x in all <==> InTable(g.closed, x)
      ensures all != [] ==> g.closed != [] && IsSuccessor(lastKey, g.closed[|g.closed| - 1].limit)
      ensures |t.filter| < LIMIT32 ==> FilterTight(hash, filterBlock.probes, t.filter, g.closed)
    {
      CloseLast(size);
      assert Tail(g) == [];
      ghost var added := filterBlock.added;
      ghost var block := filterBlock.block;
      var contents := filterBlock.Finish();
      t := Table(index, stored, contents);
      if |contents| < LIMIT32 {
        FinishOk(hash, g, added, offset, t);
        FinishTight(hash, filterBlock.bitsPerKey, filterBlock.probes, g, added, block, contents);
      }
    }
  }

  /** The open block becomes the pending section at the old offset. */
  lemma FlushOk(g: Progress, index: seq<(InternalKey, nat)>, stored: map<nat, seq<Entry>>, stored': map<nat,
      seq<Entry>>,
                offset: nat, offset': nat, added: seq<Added>)
    requires ProgressOk(g) && g.open != [] && OnDisk(g, index, stored, offset) && FilterFed(g, added, offset)
    requires stored' == stored[offset := g.open] && offset < offset'
    ensures var g' := Progress(g.closed, Some((g.open, offset)), []);
      ProgressOk(g') && OnDisk(g', index, stored', offset') && FilterFed(g', added, offset') && Tail(g') == Tail(g)
  {
    FedFlushes(g, added, offset, offset');
  }

  lemma FlushHolds(g: Progress, offset: nat, all: seq<Entry>, key: InternalKey)
    requires g.pending.None? && HoldsAll(g, all) && IsLast(g, key)
    ensures var g' := Progress(g.closed, Some((g.open, offset)), []); HoldsAll(g', all) && IsLast(g', key)
  {
    assert Tail(Progress(g.closed, Some((g.open, offset)), [])) == Tail(g);
  }

  lemma FedCloses(g: Progress, g': Progress, sec: Section, added: seq<Added>, offset: nat)
    requires FilterFed(g, added, offset) && g.pending == Some((sec.entries, sec.offset))
    requires g' == Progress(g.closed + [sec], None, g.open)
    ensures FilterFed(g', added, offset)
  {
    assert Unfold(IN_FED) && (g.closed + [sec])[..|g.closed|] == g.closed;
    assert SectionKeys(g'.closed) + [] == SectionKeys(g'.closed);
  }

  lemma FedAppends(g: Progress, x: Entry, added: seq<Added>, offset: nat)
    requires FilterFed(g, added, offset)
    ensures FilterFed(g.(open := g.open + [x]), added + [Added(x.key.user, offset)], offset)
  {
    assert Unfold(IN_FED) && BlockKeys(g.open + [x], offset) == BlockKeys(g.open, offset) + [Added(x.key.user, offset)];
  }

  /** At the end the filter builder has got the keys of the closed sections. */
  lemma FedAll(g: Progress, added: seq<Added>, offset: nat)
    requires FilterFed(g, added, offset) && g.pending.None? && g.open == []
    ensures added == SectionKeys(g.closed)
  {
    assert Unfold(IN_FED);
    assert SectionKeys(g.closed) + [] + [] == SectionKeys(g.closed);
  }

  lemma FedFlushes(g: Progress, added: seq<Added>, offset: nat, offset': nat)
    requires FilterFed(g, added, offset) && g.pending.None?
    ensures FilterFed(Progress(g.closed, Some((g.open, offset)), []), added, offset')
  {
    assert Unfold(IN_FED) && BlockKeys([], offset') == [];
    assert SectionKeys(g.closed) + [] == SectionKeys(g.closed);
  }

  lemma FinishTight(hash: Bytes -> Hash, bitsPerKey: nat, probes: nat, g: Progress, added: seq<Added>, block: nat,
      filter: Bytes)
    requires 1 <= probes <= 30 && ProgressOk(g) && g.pending.None? && g.open == [] && FilterFed(g, added, block)
    requires UpTo(added, RangeOf(block))
    requires TellsExactly(hash, bitsPerKey, probes, filter, added,
        RangeOf(block) + if exists a :: a in added && RangeOf(a.block) == RangeOf(block) then 1 else 0)
    ensures FilterTight(hash, probes, filter, g.closed)
  {
    assert added == SectionKeys(g.closed) by { FedAll(g, added, block); }
    forall i, key | 0 <= i < |g.closed| && MayMatch(hash, filter, g.closed[i].offset, key)
      ensures exists bits: nat :: AllProbedInRange(hash, probes, g.closed, i, key, bits)
    {
      assert Closed(g.closed[i]);
      var range, x := RangeOf(g.closed[i].offset), g.closed[i].entries[0];
      SectionKeysHold(g.closed, Added(x.key.user, g.closed[i].offset));
      var keys := KeysIn(added, range);
      var bits := FilterBits(|keys|, bitsPerKey);
      assert SharesProbes(hash, probes, keys, bits, key);
      forall j | 0 <= j < probes ensures ProbedInRange(hash, probes, g.closed, i, key, bits, j) {
        assert SharesProbe(hash, probes, keys, bits, key, j);
        SharedIsProbed(hash, probes, g.closed, added, i, key, bits, j);
      }
      assert AllProbedInRange(hash, probes, g.closed, i, key, bits);
    }
  }

  lemma SharedIsProbed(hash: Bytes -> Hash, probes: nat, secs: seq<Section>, added: seq<Added>, i: nat, key: Bytes,
      bits: nat, j: nat)
    requires added == SectionKeys(secs) && i < |secs| && bits > 0
    requires SharesProbe(hash, probes, KeysIn(added, RangeOf(secs[i].offset)), bits, key, j)
    ensures ProbedInRange(hash, probes, secs, i, key, bits, j)
  {
    var keys := KeysIn(added, RangeOf(secs[i].offset));
    var n :| 0 <= n < |keys|
      && IsProbed(bits, hash(keys[n]), probes, Position(Probe(hash(key), Delta(hash(key)), j), bits));
    KeysInAreAdded(added, RangeOf(secs[i].offset), keys[n]);
    var a :| a in added && RangeOf(a.block) == RangeOf(secs[i].offset) && a.key == keys[n];
    SectionKeysHold(secs, a);
  }

  lemma DividesIsBefore(a: InternalKey, m: InternalKey, b: InternalKey)
    requires Divides(a, m, b)
    ensures Before(a, b)
  {
    if a != m {
      BeforeTransitive(a, m, b);
    }
  }

  /** An entry after the last one goes to the open block. */
  lemma AppendOk(g: Progress, key: InternalKey, x: Entry)
    requires ProgressOk(g) && g.pending.None?
        && (g.open != [] ==> g.open[|g.open| - 1].key == key && Before(key, x.key))
    requires forall i {:trigger g.closed[i]} :: 0 <= i < |g.closed| ==> Follows(g.closed[i], x)
    ensures ProgressOk(g.(open := g.open + [x])) && IsLast(g.(open := g.open + [x]), x.key)
  {
    var open := g.open + [x];
    forall i, j | 0 <= i < j < |open| ensures Before(open[i].key, open[j].key) {
      if j == |g.open| && i < |g.open| - 1 {
        BeforeTransitive(open[i].key, key, x.key);
      }
    }
  }

  lemma FedHolds(g: Progress, added: seq<Added>, offset: nat, i: nat, x: Entry)
    requires FilterFed(g, added, offset) && i < |g.closed| && x in g.closed[i].entries
    ensures Added(x.key.user, g.closed[i].offset) in added
  {
    assert Unfold(IN_FED);
    SectionKeysHold(g.closed, Added(x.key.user, g.closed[i].offset));
  }

  lemma FinishOk(hash: Bytes -> Hash, g: Progress, added: seq<Added>, offset: nat, t: Table)
    requires ProgressOk(g) && g.pending.None? && OnDisk(g, t.index, t.stored, offset) && FilterFed(g, added, offset)
    requires forall a :: a in added ==> MayMatch(hash, t.filter, a.block, a.key)
    ensures TableOk(hash, t, g.closed)
  {
    forall i, x | 0 <= i < |g.closed|
        && x in g.closed[i].entries ensures MayMatch(hash, t.filter, g.closed[i].offset, x.key.user) {
      FedHolds(g, added, offset, i, x);
    }
  }
}
