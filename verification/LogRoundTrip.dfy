/** A log cut off anywhere gives back exactly the records that are wholly there. */
module LogRoundTrip {
  import opened Wrappers
  import opened Coding
  import opened LogFormat
  import opened LogReader

  /** The unread bytes start at s.filePos - |s.buffer|; the reader has taken fragments up to k and means to read
      fragment k next. */
  ghost predicate Before(whole: seq<Octet>, fs: seq<Fragment>, file: seq<Octet>, s: State, k: nat) {
    && s.filePos <= |file| && k <= |fs| && EndAt(fs, k) <= |file|
    && forall j {:trigger Unfold(j)} :: j == IN_BEFORE && Unfold(j) ==> Aligned(whole, fs, file, s, k)
  }

  ghost predicate Aligned(whole: seq<Octet>, fs: seq<Fragment>, file: seq<Octet>, s: State, k: nat)
    requires s.filePos <= |file| && k <= |fs|
  {
    && Layout(whole, fs) && file <= whole
    && |s.buffer| <= s.filePos && s.buffer == file[s.filePos - |s.buffer|..s.filePos]
    && (if s.eof then s.filePos == |file| else s.filePos % BLOCK_SIZE == 0)
    && InStep(s.filePos, s.filePos - |s.buffer|, EndAt(fs, k))
  }

  /** From q the next header is where it is from e, and the bytes up to p lie in the block of q. */
  predicate InStep(p: nat, q: nat, e: nat) {
    e <= q && NextPos(q) == NextPos(e) && p <= q - q % BLOCK_SIZE + BLOCK_SIZE
  }

  /** Fragment k is not wholly in the file. */
  predicate NoMore(fs: seq<Fragment>, file: seq<Octet>, k: nat) {
    k < |fs| ==> End(fs[k]) > |file|
  }

  lemma RefillKeepsBefore(whole: seq<Octet>, fs: seq<Fragment>, file: seq<Octet>, s: State, k: nat)
    requires Before(whole, fs, file, s, k) && |s.buffer| < HEADER_SIZE && !s.eof
    ensures Before(whole, fs, file, Refill(file, s), k)
  {
    assert Unfold(IN_BEFORE);
  }

  lemma NothingLeft(whole: seq<Octet>, fs: seq<Fragment>, file: seq<Octet>, s: State, k: nat)
    requires Before(whole, fs, file, s, k) && |s.buffer| < HEADER_SIZE && s.eof
    ensures NoMore(fs, file, k)
  {
    assert Unfold(IN_BEFORE);
    if k < |fs| {
      assert Placed(whole, fs, k);
    }
  }

  /** A full header in the buffer is the one of fragment k. */
  lemma HeaderIsNext(whole: seq<Octet>, fs: seq<Fragment>, file: seq<Octet>, s: State, k: nat)
    requires Before(whole, fs, file, s, k) && |s.buffer| >= HEADER_SIZE
    ensures k < |fs| && fs[k].pos == s.filePos - |s.buffer| && FragmentAt(whole, fs[k])
    ensures !s.eof ==> End(fs[k]) <= s.filePos
    ensures file <= whole && |s.buffer| <= s.filePos && s.buffer == file[s.filePos - |s.buffer|..s.filePos]
    ensures s.eof ==> s.filePos == |file|
  {
    assert Unfold(IN_BEFORE);
    assert k < |fs| ==> Placed(whole, fs, k);
  }

  lemma HeaderBytes(whole: seq<Octet>, file: seq<Octet>, s: State, f: Fragment)
    requires FragmentAt(whole, f) && file <= whole && |s.buffer| <= s.filePos <= |file| && |s.buffer| >= HEADER_SIZE
    requires s.buffer == file[s.filePos - |s.buffer|..s.filePos] && f.pos == s.filePos - |s.buffer|
    ensures s.buffer[6] == f.kind && f.kind in {FULL, FIRST, MIDDLE, LAST}
        && LengthOf(s.buffer[4], s.buffer[5]) == |f.payload|
    ensures HEADER_SIZE + |f.payload| <= |s.buffer| ==>
      s.buffer[HEADER_SIZE..HEADER_SIZE + |f.payload|] == f.payload && IsSeal(s.buffer[..4], f.kind, f.payload)
  {
    assert Unfold(IN_FRAGMENT);
    var bytes := whole[f.pos..End(f)];
    forall i | 0 <= i < |s.buffer| && i < |bytes| ensures s.buffer[i] == bytes[i] {}
    assert s.buffer[..4] == bytes[..4];
    if HEADER_SIZE + |f.payload| <= |s.buffer| {
      assert s.buffer[HEADER_SIZE..HEADER_SIZE + |f.payload|] == bytes[HEADER_SIZE..];
    }
  }

  lemma InStepAfter(p: nat, q: nat, e: nat, n: nat)
    requires InStep(p, q, e) && q % BLOCK_SIZE + n <= BLOCK_SIZE
    ensures InStep(p, q + n, q + n)
  {
  }

  lemma SuffixOfSuffix(file: seq<Octet>, p: nat, b: seq<Octet>, n: nat)
    requires |b| <= p <= |file| && b == file[p - |b|..p] && n <= |b|
    ensures b[n..] == file[p - |b[n..]|..p]
  {
  }

  /** Taking fragment k out of the buffer. */
  lemma Taken(whole: seq<Octet>, fs: seq<Fragment>, file: seq<Octet>, s: State, k: nat, n: nat)
    requires Before(whole, fs, file, s, k) && k < |fs| && fs[k].pos == s.filePos - |s.buffer|
        && FragmentAt(whole, fs[k])
    requires n == HEADER_SIZE + |fs[k].payload| <= |s.buffer|
    ensures Before(whole, fs, file, s.(buffer := s.buffer[n..]), k + 1)
  {
    assert Unfold(IN_BEFORE);
    var q := s.filePos - |s.buffer|;
    InStepAfter(s.filePos, q, EndAt(fs, k), n);
    SuffixOfSuffix(file, s.filePos, s.buffer, n);
    assert EndAt(fs, k + 1) == q + n;
  }

  lemma ParseNext(whole: seq<Octet>, fs: seq<Fragment>, file: seq<Octet>, s: State, k: nat)
    requires Before(whole, fs, file, s, k) && |s.buffer| >= HEADER_SIZE
    ensures Reads(whole, fs, file, s, k, Parse(s))
  {
    HeaderIsNext(whole, fs, file, s, k);
    HeaderBytes(whole, file, s, fs[k]);
    ParseParts(whole, fs, file, s, k, fs[k].kind, |fs[k].payload|);
  }

  lemma ParseParts(whole: seq<Octet>, fs: seq<Fragment>, file: seq<Octet>, s: State, k: nat, t: Octet, length: nat)
    requires Before(whole, fs, file, s, k) && |s.buffer| >= HEADER_SIZE
    requires k < |fs| && fs[k].pos == s.filePos - |s.buffer| && FragmentAt(whole, fs[k])
    requires if s.eof then s.filePos == |file| else End(fs[k]) <= s.filePos
    requires t == s.buffer[6] == fs[k].kind && t != ZERO
        && length == LengthOf(s.buffer[4], s.buffer[5]) == |fs[k].payload|
    requires HEADER_SIZE + length <= |s.buffer| ==>
      s.buffer[HEADER_SIZE..HEADER_SIZE + length] == fs[k].payload && IsSeal(s.buffer[..4], t, fs[k].payload)
    ensures Reads(whole, fs, file, s, k, Parse(s))
  {
    if HEADER_SIZE + length <= |s.buffer| {
      Taken(whole, fs, file, s, k, HEADER_SIZE + length);
    }
  }

  /** r is what the reader should get: fragment k, or the end of the file if it is not all there. */
  ghost predicate Reads(whole: seq<Octet>, fs: seq<Fragment>, file: seq<Octet>, s: State, k: nat,
      r: (State, nat, seq<Octet>)) {
    && r.0.corruptions == s.corruptions
    && if NoMore(fs, file, k) then r.1 == EOF
       else k < |fs| && r.1 == fs[k].kind && r.2 == fs[k].payload && Before(whole, fs, file, r.0, k + 1)
  }

  lemma {:induction false} PhysicalNext(whole: seq<Octet>, fs: seq<Fragment>, file: seq<Octet>, s: State, k: nat)
    requires Before(whole, fs, file, s, k)
    ensures Reads(whole, fs, file, s, k, Physical(file, s))
    decreases if s.eof then 0 else |file| - s.filePos + 1
  {
    if |s.buffer| >= HEADER_SIZE {
      ParseNext(whole, fs, file, s, k);
    } else if s.eof {
      NothingLeft(whole, fs, file, s, k);
    } else {
      RefillKeepsBefore(whole, fs, file, s, k);
      PhysicalNext(whole, fs, file, Refill(file, s), k);
    }
  }

  ghost predicate NeverBroken(fs: seq<Fragment>) {
    forall k {:trigger Assembled(fs[..k])} :: 0 <= k <= |fs| ==> Assembled(fs[..k]).Assembly?
  }

  /** The reader goes on with the next record from k, or stops because the rest is torn: k' is where it ends up. */
  ghost predicate Advances(whole: seq<Octet>, fs: seq<Fragment>, file: seq<Octet>, s: State, k: nat,
      records: seq<seq<Octet>>,
                           r: (State, Option<seq<Octet>>), k': nat) {
    && r.0.corruptions == s.corruptions && k <= k' <= |fs|
    && match r.1
       case Some(record) => k < k' && Before(whole, fs, file, r.0, k')
           && Assembled(fs[..k']) == Assembly(None, records + [record])
       case None =>
         NoMore(fs, file, k') && EndAt(fs, k') <= |file| && Assembled(fs[..k']).Assembly?
         && Assembled(fs[..k']).records == records
  }

  /** Reading one fragment does what Assemble says. */
  lemma FragmentNext(whole: seq<Octet>, fs: seq<Fragment>, file: seq<Octet>, s: State, k: nat, open: Option<seq<Octet>>,
                     records: seq<seq<Octet>>, p: (State, nat, seq<Octet>), o: Outcome)
    requires Before(whole, fs, file, s, k) && NeverBroken(fs) && Assembled(fs[..k]) == Assembly(open, records)
    requires !NoMore(fs, file, k) && p == Physical(file, s) && o == Take(open, p.1, p.2, p.0.corruptions)
    ensures Before(whole, fs, file, p.0, k + 1) && p.0.corruptions == o.corruptions == s.corruptions
    ensures Assembled(fs[..k + 1]) ==
            if o.Go? then Assembly(o.scratch, records)
                else Assembly(None, records + [if o.record.Some? then o.record.value else []])
    ensures o.Stop? ==> o.record.Some?
  {
    PhysicalNext(whole, fs, file, s, k);
    AssembledOne(fs, k);
    assert Assembled(fs[..k + 1]).Assembly?;
  }

  lemma {:induction false} LogicalNext(whole: seq<Octet>, fs: seq<Fragment>, file: seq<Octet>, s: State, k: nat,
                                       open: Option<seq<Octet>>, records: seq<seq<Octet>>) returns (k': nat)
    requires Before(whole, fs, file, s, k) && NeverBroken(fs) && Assembled(fs[..k]) == Assembly(open, records)
    ensures Advances(whole, fs, file, s, k, records, Logical(file, s, open), k')
    decreases |fs| - k
  {
    var p := Physical(file, s);
    var o := Take(open, p.1, p.2, p.0.corruptions);
    k' := k;
    if NoMore(fs, file, k) {
      PhysicalNext(whole, fs, file, s, k);
    } else {
      FragmentNext(whole, fs, file, s, k, open, records, p, o);
      assert p.0.(corruptions := o.corruptions) == p.0;
      k' := k + 1;
      if o.Go? {
        k' := LogicalNext(whole, fs, file, p.0, k + 1, o.scratch, records);
      }
    }
  }

  lemma {:induction false} AllNext(whole: seq<Octet>, fs: seq<Fragment>, file: seq<Octet>, s: State, k: nat,
      records: seq<seq<Octet>>)
    returns (k': nat)
    requires Before(whole, fs, file, s, k) && NeverBroken(fs) && Assembled(fs[..k]) == Assembly(None, records)
    ensures Ends(fs, file, records + All(file, s).1, k') && All(file, s).0.corruptions == s.corruptions
    decreases |fs| - k
  {
    k' := LogicalNext(whole, fs, file, s, k, None, records);
    var (s', record) := Logical(file, s, None);
    if record.Some? {
      k' := AllNext(whole, fs, file, s', k', records + [record.value]);
      Regrouped(records, record.value, All(file, s').1);
    } else {
      assert records + [] == records;
    }
  }

  lemma Regrouped(a: seq<seq<Octet>>, x: seq<Octet>, b: seq<seq<Octet>>)
    ensures a + [x] + b == a + ([x] + b)
  {
  }

  /** Fragment k' is the first that is not all there, and those before it amount to records. */
  ghost predicate Ends(fs: seq<Fragment>, file: seq<Octet>, records: seq<seq<Octet>>, k: nat) {
    && k <= |fs| && NoMore(fs, file, k) && EndAt(fs, k) <= |file|
    && Assembled(fs[..k]).Assembly? && Assembled(fs[..k]).records == records
  }

  /** Records i < m are the ones that end within the first n bytes. */
  ghost predicate WhollyIn(ends: seq<nat>, n: nat, m: nat) {
    m <= |ends| && (forall i :: 0 <= i < m ==> ends[i] <= n) && (forall i :: m <= i < |ends| ==> ends[i] > n)
  }

  lemma LastFragment(whole: seq<Octet>, fs: seq<Fragment>, records: seq<seq<Octet>>, ends: seq<nat>, n: nat, k: nat,
      m: nat)
    requires Layout(whole, fs) && k <= |fs| && RecordsEndAt(fs, records, ends, k) && m == |Assembled(fs[..k]).records|
    requires (k < |fs| ==> End(fs[k]) > n) && EndAt(fs, k) <= n <= |whole|
    requires forall i :: 0 <= i < |ends| ==> EndsFragment(fs, ends[i])
    ensures m <= |ends| && (m > 0 ==> ends[m - 1] <= n) && (m < |ends| ==> ends[m] > n)
  {
    if m < |ends| {
      assert EndsFragment(fs, ends[m]);
      var j :| 0 < j <= |fs| && ends[m] == EndAt(fs, j);
      if j <= k {
        EndsGrow(whole, fs, j, k);
      } else {
        EndsGrow(whole, fs, k + 1, j);
      }
    }
  }

  lemma LogFacts(whole: seq<Octet>, fs: seq<Fragment>, open: Option<seq<Octet>>, records: seq<seq<Octet>>,
      ends: seq<nat>)
    requires IsLog(whole, fs, open, records, ends)
    ensures Layout(whole, fs) && NeverBroken(fs) && AllRecordsEnd(fs, records, ends) && |ends| == |records|
    ensures forall i :: 0 <= i < |ends| ==> EndsFragment(fs, ends[i])
  {
    assert Unfold(IN_LOG_FILE);
    assert RecordsEndAt(fs, records, ends, 0);
    forall k | 0 <= k <= |fs| ensures Assembled(fs[..k]).Assembly? {
      assert RecordsEndAt(fs, records, ends, k);
    }
  }

  lemma StartsBefore(whole: seq<Octet>, fs: seq<Fragment>, file: seq<Octet>)
    requires Layout(whole, fs) && file <= whole
    ensures Before(whole, fs, file, State(0, [], false, 0), 0)
  {
  }

  /** Whatever was written, cut off at any byte: the records wholly there come back in order, then the end of the
      file, and no corruption is reported. */
  lemma TornLogRoundTrip(whole: seq<Octet>, fs: seq<Fragment>, open: Option<seq<Octet>>, records: seq<seq<Octet>>,
      ends: seq<nat>,
                         n: nat, m: nat)
    requires IsLog(whole, fs, open, records, ends) && n <= |whole| && WhollyIn(ends, n, m)
    ensures |ends| == |records|
    ensures All(whole[..n], State(0, [], false, 0)).1 == records[..m]
    ensures All(whole[..n], State(0, [], false, 0)).0.corruptions == 0
  {
    var file, s := whole[..n], State(0, [], false, 0);
    LogFacts(whole, fs, open, records, ends);
    StartsBefore(whole, fs, file);
    var k := AllNext(whole, fs, file, s, 0, []);
    assert RecordsEndAt(fs, records, ends, k);
    var read := All(file, s).1;
    assert [] + read == read;
    LastFragment(whole, fs, records, ends, n, k, |read|);
    assert |read| == m;
  }
}
