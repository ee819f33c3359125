/** Building a block and reading it back. */
module BlockRoundTrip {
  import opened Wrappers
  import opened Varints
  import opened BlockFormat
  import opened BlockBuilder
  import opened Block

  /** A block of the first n pairs is at most this large. */
  function Bound(entries: seq<(Bytes, Bytes)>, n: nat): nat
    requires n <= |entries|
  {
    if n == 0 then 8 else Bound(entries, n - 1) + |entries[n - 1].0| + |entries[n - 1].1| + 19
  }

  lemma {:induction false} BoundGrows(entries: seq<(Bytes, Bytes)>, i: nat, n: nat)
    requires i <= n <= |entries|
    ensures Bound(entries, i) <= Bound(entries, n)
    decreases n
  {
    if i < n {
      BoundGrows(entries, i, n - 1);
    }
  }

  /** data is a finished block of that shape. */
  ghost predicate IsBlock(data: Bytes, sh: Shape) {
    exists end, num :: BlockOk(data, end, num, sh)
  }

  /** The block of the given pairs, unless it would be too large for 32-bit offsets. */
  method BuildBlock(entries: seq<(Bytes, Bytes)>, interval: nat) returns (r: Option<Bytes>, ghost sh: Shape)
    requires interval >= 1
    ensures r.Some? ==> IsBlock(r.value, sh) && sh.entries == entries && Compressed(sh, interval)
    ensures Bound(entries, |entries|) < LIMIT32 ==> r.Some?
  {
    var builder := new BlockBuilder(interval);
    sh := builder.sh;
    var i := 0;
    while i < |entries|
      invariant i <= |entries| && builder.Valid() && builder.sh.entries == entries[..i] && fresh(builder)
      invariant builder.interval == interval
      invariant |builder.buffer| + 4 * |builder.restarts| + 4 <= Bound(entries, i)
    {
      BoundGrows(entries, i + 1, |entries|);
      if |entries[i].0| >= LIMIT32 || |entries[i].1| >= LIMIT32 {
        return None, sh;
      }
      builder.Add(entries[i].0, entries[i].1);
      i := i + 1;
    }
    if |builder.buffer| + 4 * |builder.restarts| + 4 >= LIMIT32 {
      return None, sh;
    }
    var data := builder.Finish();
    return Some(data), builder.sh;
  }

  method ReadForward(it: BlockIter, ghost sh: Shape) returns (r: seq<(Bytes, Bytes)>)
    requires it.Basic() && it.Good(sh)
    modifies it
    ensures r == sh.entries
  {
    r := [];
    it.SeekToFirst(Some(sh));
    ghost var i: nat := 0;
    while it.IsValid()
      invariant it.Basic() && i <= |sh.entries| && it.AtIndex(sh, i) && r == sh.entries[..i]
      decreases |sh.entries| - i
    {
      r := r + [(it.key, it.data[it.valuePos..it.valuePos + it.valueLen])];
      it.Next(Some(sh), i);
      i := i + 1;
    }
  }

  method ReadBackward(it: BlockIter, ghost sh: Shape) returns (r: seq<(Bytes, Bytes)>)
    requires it.Basic() && it.Good(sh)
    modifies it
    ensures r == sh.entries
  {
    r := [];
    it.SeekToLast(Some(sh));
    ghost var i: nat := |sh.entries|;
    while it.IsValid()
      invariant it.Basic() && i <= |sh.entries| && it.AtIndex(sh, i as int - 1) && r == sh.entries[i..]
      decreases i
    {
      r := [(it.key, it.data[it.valuePos..it.valuePos + it.valueLen])] + r;
      it.Prev(Some(sh), i - 1);
      i := i - 1;
    }
  }

  /** Whatever the pairs, the restart interval and the direction; nothing but the bytes goes from one to the other. */
  method RoundTrip(entries: seq<(Bytes, Bytes)>, interval: nat, backwards: bool)
      returns (r: Option<seq<(Bytes, Bytes)>>)
    requires interval >= 1
    ensures (r.Some? ==> r.value == entries) && (Bound(entries, |entries|) < LIMIT32 ==> r.Some?)
  {
    var built, sh := BuildBlock(entries, interval);
    if built.None? {
      return None;
    }
    ghost var end, num :| BlockOk(built.value, end, num, sh);
    FinishedTrailer(built.value, end, num, sh);
    var found := Open(built.value);
    var it := new BlockIter(built.value, found.offset, found.num, k => 0.0);
    if backwards {
      var read := ReadBackward(it, sh);
      return Some(read);
    }
    var read := ReadForward(it, sh);
    return Some(read);
  }
}
