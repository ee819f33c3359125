/** The write-ahead log on disk: physical records in 32 KiB blocks, with checksums (db/log_format.h). */
module LogFormat {
  import opened Wrappers
  import opened Coding

  const BLOCK_SIZE: nat := 32768
  const HEADER_SIZE: nat := 7

  const ZERO: Octet := 0
  const FULL: Octet := 1
  const FIRST: Octet := 2
  const MIDDLE: Octet := 3
  const LAST: Octet := 4

  /** The two length bytes of a header. */
  function LengthOf(low: Octet, high: Octet): nat {
    low + high * 256
  }

  // ---------------------------------------------------------------------------------------------
  // Physical records
  // ---------------------------------------------------------------------------------------------

  /** A physical record of the given kind at file offset pos. */
  datatype Fragment = Fragment(pos: nat, kind: Octet, payload: seq<Octet>)

  function End(f: Fragment): nat {
    f.pos + HEADER_SIZE + |f.payload|
  }

  /** bytes is a header and its payload. */
  ghost predicate IsFragment(bytes: seq<Octet>, kind: Octet, payload: seq<Octet>) {
    && |bytes| == HEADER_SIZE + |payload|
    && forall k {:trigger Unfold(k)} :: k == IN_FRAGMENT && Unfold(k) ==>
         && IsSeal(bytes[..4], kind, payload) && kind in {FULL, FIRST, MIDDLE, LAST}
         && LengthOf(bytes[4], bytes[5]) == |payload| && bytes[6] == kind && bytes[HEADER_SIZE..] == payload
  }

  /** f lies in the file, inside one block. */
  ghost predicate FragmentAt(file: seq<Octet>, f: Fragment) {
    && End(f) <= |file| && f.pos % BLOCK_SIZE + HEADER_SIZE + |f.payload| <= BLOCK_SIZE
    && IsFragment(file[f.pos..End(f)], f.kind, f.payload)
  }

  /** Where the next header goes: a block's last bytes stay empty if a header does not fit. */
  function NextPos(e: nat): nat {
    if BLOCK_SIZE - e % BLOCK_SIZE < HEADER_SIZE then e - e % BLOCK_SIZE + BLOCK_SIZE else e
  }

  /** The end of the first k fragments. */
  function EndAt(fs: seq<Fragment>, k: nat): nat
    requires k <= |fs|
  {
    if k == 0 then 0 else End(fs[k - 1])
  }

  /** A fragment that does not end its record goes on to the end of the block. */
  predicate FillsBlock(f: Fragment) {
    f.kind == FIRST || f.kind == MIDDLE ==> End(f) % BLOCK_SIZE == 0
  }

  ghost predicate Placed(file: seq<Octet>, fs: seq<Fragment>, k: nat)
    requires k < |fs|
  {
    FragmentAt(file, fs[k]) && fs[k].pos == NextPos(EndAt(fs, k)) && FillsBlock(fs[k])
  }

  /** The file holds exactly the fragments fs, one after the other. */
  ghost predicate Layout(file: seq<Octet>, fs: seq<Fragment>) {
    && |file| == EndAt(fs, |fs|)
    && forall k {:trigger Placed(file, fs, k)} :: 0 <= k < |fs| ==> Placed(file, fs, k)
  }

  lemma LayoutGrows(file: seq<Octet>, fs: seq<Fragment>, pad: seq<Octet>, bytes: seq<Octet>, f: Fragment)
    requires Layout(file, fs) && |file + pad| == NextPos(|file|) == f.pos
    requires IsFragment(bytes, f.kind, f.payload)
    requires f.pos % BLOCK_SIZE + HEADER_SIZE + |f.payload| <= BLOCK_SIZE && FillsBlock(f)
    ensures Layout(file + pad + bytes, fs + [f])
  {
    var file', fs' := file + pad + bytes, fs + [f];
    assert file'[f.pos..End(f)] == bytes;
    forall k | 0 <= k < |fs'| ensures Placed(file', fs', k) {
      assert EndAt(fs', k) == EndAt(fs, k);
      if k < |fs| {
        assert Placed(file, fs, k);
        assert file'[fs[k].pos..End(fs[k])] == file[fs[k].pos..End(fs[k])];
      }
    }
  }

  lemma {:induction false} EndsGrow(file: seq<Octet>, fs: seq<Fragment>, j: nat, k: nat)
    requires Layout(file, fs) && j <= k <= |fs|
    ensures EndAt(fs, j) <= EndAt(fs, k) && (j < k ==> EndAt(fs, j) < EndAt(fs, k))
    decreases k
  {
    if j < k {
      EndsGrow(file, fs, j, k - 1);
      assert Placed(file, fs, k - 1);
    }
  }

  // ---------------------------------------------------------------------------------------------
  // Logical records
  // ---------------------------------------------------------------------------------------------

  /** What a list of fragments amounts to: the whole records, and the start of one more, if any. */
  datatype Assembly = Assembly(open: Option<seq<Octet>>, records: seq<seq<Octet>>) | Broken

  function Assemble(a: Assembly, f: Fragment): Assembly {
    match a
    case Broken => Broken
    case Assembly(open, records) =>
      if f.kind == FULL && open.None? then Assembly(None, records + [f.payload])
      else if f.kind == FIRST && open.None? then Assembly(Some(f.payload), records)
      else if f.kind == MIDDLE && open.Some? then Assembly(Some(open.value + f.payload), records)
      else if f.kind == LAST && open.Some? then Assembly(None, records + [open.value + f.payload])
      else Broken
  }

  function Assembled(fs: seq<Fragment>): Assembly {
    if fs == [] then Assembly(None, []) else Assemble(Assembled(fs[..|fs| - 1]), fs[|fs| - 1])
  }

  lemma AssembledOne(fs: seq<Fragment>, k: nat)
    requires k < |fs|
    ensures Assembled(fs[..k + 1]) == Assemble(Assembled(fs[..k]), fs[k])
  {
    assert fs[..k + 1][..k] == fs[..k];
  }

  lemma AssembledAppend(fs: seq<Fragment>, f: Fragment)
    ensures Assembled(fs + [f]) == Assemble(Assembled(fs), f)
  {
    assert (fs + [f])[..|fs|] == fs;
  }

  /** Record i of the log ends at ends[i], and the fragments before an offset give the records before it. */
  ghost predicate RecordsEndAt(fs: seq<Fragment>, records: seq<seq<Octet>>, ends: seq<nat>, k: nat)
    requires k <= |fs|
  {
    var a := Assembled(fs[..k]);
    && a.Assembly? && |ends| == |records| && a.records <= records
    && (|a.records| > 0 ==> ends[|a.records| - 1] <= EndAt(fs, k))
    && (|a.records| < |ends| ==> EndAt(fs, k) < ends[|a.records|])
  }

  /** file is the log of records, ends[i] its length after record i; open is the start of one record more. */
  ghost predicate IsLog(file: seq<Octet>, fs: seq<Fragment>, open: Option<seq<Octet>>, records: seq<seq<Octet>>,
      ends: seq<nat>) {
    forall k {:trigger Unfold(k)} :: k == IN_LOG_FILE && Unfold(k) ==>
      && Layout(file, fs) && Assembled(fs) == Assembly(open, records)
      && AllRecordsEnd(fs, records, ends) && Ascending(ends, |file|)
      && (forall i :: 0 <= i < |ends| ==> EndsFragment(fs, ends[i]))
  }

  ghost predicate Ascending(ends: seq<nat>, size: nat) {
    (forall i :: 0 <= i < |ends| ==> ends[i] <= size) && forall i, j :: 0 <= i < j < |ends| ==> ends[i] < ends[j]
  }

  ghost predicate EndsFragment(fs: seq<Fragment>, e: nat) {
    exists k :: 0 < k <= |fs| && e == EndAt(fs, k)
  }

  lemma EmptyLog()
    ensures IsLog([], [], None, [], [])
  {
  }

  ghost predicate Follows(file: seq<Octet>, pad: seq<Octet>, bytes: seq<Octet>, f: Fragment) {
    && |file + pad| == NextPos(|file|) == f.pos && IsFragment(bytes, f.kind, f.payload)
    && f.pos % BLOCK_SIZE + HEADER_SIZE + |f.payload| <= BLOCK_SIZE && FillsBlock(f)
  }

  lemma OldEnds(fs: seq<Fragment>, f: Fragment, e: nat)
    requires EndsFragment(fs, e)
    ensures EndsFragment(fs + [f], e)
  {
    var k :| 0 < k <= |fs| && e == EndAt(fs, k);
    assert EndAt(fs + [f], k) == e;
  }

  lemma OldPrefix(fs: seq<Fragment>, f: Fragment, records: seq<seq<Octet>>, records': seq<seq<Octet>>, ends: seq<nat>,
      ends': seq<nat>, k: nat, end: nat)
    requires k <= |fs| && RecordsEndAt(fs, records, ends, k) && EndAt(fs, k) < end
    requires (records' == records && ends' == ends)
        || (|records'| == |records| + 1 && records <= records' && ends' == ends + [end])
    ensures RecordsEndAt(fs + [f], records', ends', k)
  {
    assert (fs + [f])[..k] == fs[..k];
    assert EndAt(fs + [f], k) == EndAt(fs, k);
  }

  ghost predicate AllRecordsEnd(fs: seq<Fragment>, records: seq<seq<Octet>>, ends: seq<nat>) {
    forall k {:trigger RecordsEndAt(fs, records, ends, k)} :: 0 <= k <= |fs| ==> RecordsEndAt(fs, records, ends, k)
  }

  lemma LastEnd(ends: seq<nat>, e: nat, ends': seq<nat>, e': nat)
    requires (|ends| > 0 ==> ends[|ends| - 1] <= e) && e <= e' && (ends' == ends || ends' == ends + [e'])
    ensures |ends'| > 0 ==> ends'[|ends'| - 1] <= e'
  {
  }

  lemma AssembleCounts(open: Option<seq<Octet>>, records: seq<seq<Octet>>, f: Fragment)
    ensures var a := Assemble(Assembly(open, records), f);
      a.Assembly? ==> |records| <= |a.records| <= |records| + 1
  {
  }

  lemma EndsBefore(fs: seq<Fragment>, records: seq<seq<Octet>>, ends: seq<nat>)
    requires RecordsEndAt(fs, records, ends, |fs|) && Assembled(fs).Assembly? && Assembled(fs).records == records
    ensures |ends| == |records| && (|ends| > 0 ==> ends[|ends| - 1] <= EndAt(fs, |fs|))
  {
    assert fs[..|fs|] == fs;
  }

  lemma AllRecordsAtEnd(fs: seq<Fragment>, records: seq<seq<Octet>>, ends: seq<nat>, n: nat, e: nat)
    requires Assembled(fs).Assembly? && Assembled(fs).records == records && |ends| == |records|
    requires n == |fs| && e == EndAt(fs, n) && (|ends| > 0 ==> ends[|ends| - 1] <= e)
    ensures RecordsEndAt(fs, records, ends, n)
  {
    assert fs[..n] == fs;
  }

  lemma RecordsGrow(file': seq<Octet>, fs: seq<Fragment>, open: Option<seq<Octet>>, records: seq<seq<Octet>>,
      ends: seq<nat>,
                    f: Fragment, a: Assembly, ends': seq<nat>)
    requires Layout(file', fs + [f]) && AllRecordsEnd(fs, records, ends) && Assembled(fs) == Assembly(open, records)
    requires a == Assemble(Assembly(open, records), f) && a.Assembly?
    requires ends' == if |a.records| > |records| then ends + [End(f)] else ends
    ensures AllRecordsEnd(fs + [f], a.records, ends')
  {
    var fs' := fs + [f];
    forall k | 0 <= k <= |fs'| ensures RecordsEndAt(fs', a.records, ends', k) {
      if k < |fs'| {
        EndsGrow(file', fs', k, |fs'|);
        assert EndAt(fs', k) == EndAt(fs, k) && RecordsEndAt(fs, records, ends, k);
        OldPrefix(fs, f, records, a.records, ends, ends', k, End(f));
      } else {
        EndsGrow(file', fs', |fs|, |fs'|);
        assert EndAt(fs', |fs|) == EndAt(fs, |fs|) && RecordsEndAt(fs, records, ends, |fs|);
        EndsBefore(fs, records, ends);
        AssembledAppend(fs, f);
        AssembleCounts(open, records, f);
        LastEnd(ends, EndAt(fs, |fs|), ends', End(f));
        AllRecordsAtEnd(fs', a.records, ends', k, End(f));
      }
    }
  }

  /** One fragment more that fits in. */
  lemma LogGrows(file: seq<Octet>, fs: seq<Fragment>, open: Option<seq<Octet>>, records: seq<seq<Octet>>,
      ends: seq<nat>,
                 pad: seq<Octet>, bytes: seq<Octet>, f: Fragment, a: Assembly, ends': seq<nat>)
    requires IsLog(file, fs, open, records, ends) && Follows(file, pad, bytes, f)
    requires a == Assemble(Assembly(open, records), f) && a.Assembly?
    requires ends' == if |a.records| > |records| then ends + [End(f)] else ends
    ensures IsLog(file + pad + bytes, fs + [f], a.open, a.records, ends')
  {
    assert Unfold(IN_LOG_FILE);
    LayoutGrows(file, fs, pad, bytes, f);
    var fs' := fs + [f];
    assert fs'[..|fs|] == fs;
    assert |file| < |file + pad + bytes| == End(f);
    RecordsGrow(file + pad + bytes, fs, open, records, ends, f, a, ends');
    AllEndFragments(fs, f, ends, ends');
    EndsAscend(ends, |file|, ends', End(f));
  }

  lemma AllEndFragments(fs: seq<Fragment>, f: Fragment, ends: seq<nat>, ends': seq<nat>)
    requires (forall i :: 0 <= i < |ends| ==> EndsFragment(fs, ends[i])) && (ends' == ends || ends' == ends + [End(f)])
    ensures forall i :: 0 <= i < |ends'| ==> EndsFragment(fs + [f], ends'[i])
  {
    forall i | 0 <= i < |ends'| ensures EndsFragment(fs + [f], ends'[i]) {
      if i < |ends| {
        OldEnds(fs, f, ends[i]);
      } else {
        assert EndAt(fs + [f], |fs + [f]|) == End(f);
      }
    }
  }

  lemma EndsAscend(ends: seq<nat>, size: nat, ends': seq<nat>, size': nat)
    requires Ascending(ends, size) && size < size' && (ends' == ends || ends' == ends + [size'])
    ensures Ascending(ends', size')
  {
  }
}
