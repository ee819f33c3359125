/** Crash and recovery (db/db_impl.cc: Recover, RecoverLogFile, Open; db/version_set.cc: Recover, WriteSnapshot). */
module Recovery {
  import opened Wrappers
  import opened DbFormat
  import opened Versions
  import opened Edits
  import opened Engine
  import opened EngineWrites
  import opened EngineCompact
  import opened EngineRuns
  import opened Manifest
  import opened Durable

  // ---------------------------------------------------------------------------------------------
  // Log replay
  // ---------------------------------------------------------------------------------------------

  /** The largest sequence number in the records. */
  function MaxSequence(bs: seq<Batch>): nat {
    if bs == [] then 0 else
      var b, m := bs[|bs| - 1], MaxSequence(bs[..|bs| - 1]);
      var last := if b.first + |b.ops| == 0 then 0 else b.first + |b.ops| - 1;
      if last > m then last else m
  }

  ghost function RunsEntries(runs: seq<Run>): set<Entry> {
    set r, e | r in runs && e in r :: e
  }

  /** Tables written so far and the memtable being filled hold exactly the entries of the records, in age order. */
  ghost predicate Replayed(runs: seq<Run>, mem: Run, bs: seq<Batch>) {
    forall k {:trigger Unfold(k)} :: k == IN_REPLAY && Unfold(k) ==>
    && Sorted(mem) && (forall i :: 0 <= i < |runs| ==> |runs[i]| > 0 && Sorted(runs[i]))
    && (forall i, j :: 0 <= i < j < |runs| ==> Earlier(Entries(runs[i]), Entries(runs[j])))
    && Earlier(RunsEntries(runs), Entries(mem))
    && LogEntries(bs) == RunsEntries(runs) + Entries(mem)
  }

  ghost predicate RunsOf(runs: seq<Run>, bs: seq<Batch>) {
    Replayed(runs, [], bs)
  }

  lemma ReplayRecord(runs: seq<Run>, mem: Run, bs: seq<Batch>, b: Batch)
    requires Replayed(runs, mem, bs) && InSequence(bs, b.first) && b.first + |b.ops| <= MAX_SEQUENCE
    ensures Replayed(runs, AddOps(mem, b.first, b.ops), bs + [b])
  {
    assert Unfold(IN_REPLAY);
    forall e | e in LogEntries(bs) ensures e.sn < b.first {
      RecordsBelow(bs, b.first, e);
    }
    assert forall e :: e in mem ==> e in Entries(mem);
    AddOpsAddsEntries(mem, b.first, b.ops);
    LogEntriesOfConcat(bs, [b]);
    LogEntriesOfOne(b);
  }

  lemma RunsEntriesAppend(runs: seq<Run>, mem: Run)
    ensures RunsEntries(runs + [mem]) == RunsEntries(runs) + Entries(mem)
  {
    assert mem in runs + [mem];
  }

  lemma ReplayFlush(runs: seq<Run>, mem: Run, bs: seq<Batch>)
    requires Replayed(runs, mem, bs)
    ensures Replayed(if mem == [] then runs else runs + [mem], [], bs)
  {
    assert Unfold(IN_REPLAY);
    if mem != [] {
      var all := runs + [mem];
      RunsEntriesAppend(runs, mem);
      forall i, j | 0 <= i < j < |all| ensures Earlier(Entries(all[i]), Entries(all[j])) {
        assert all[i] == runs[i] && all[i] in runs;
      }
    }
  }

  lemma RecordsBelow(bs: seq<Batch>, limit: nat, e: Entry)
    requires InSequence(bs, limit) && e in LogEntries(bs)
    ensures e.sn < limit
  {
    var b :| b in bs && e in BatchEntries(b);
    var i :| 0 <= i < |bs| && bs[i] == b;
  }

  lemma ReplayStart()
    ensures Replayed([], [], [])
  {
    assert LogEntries([]) == {} && RunsEntries([]) == {};
  }

  lemma ReplayNext(runs: seq<Run>, mem: Run, bs: seq<Batch>, i: nat, limit: nat)
    requires i < |bs| && Replayed(runs, mem, bs[..i]) && InSequence(bs, limit) && limit <= MAX_SEQUENCE
    ensures bs[i].first + |bs[i].ops| <= MAX_SEQUENCE
    ensures Replayed(runs, AddOps(mem, bs[i].first, bs[i].ops), bs[..i + 1])
    ensures bs[..i + 1][..i] == bs[..i]
    ensures Entries(AddOps(mem, bs[i].first, bs[i].ops)) == Entries(mem) + BatchEntries(bs[i])
  {
    assert bs[..i + 1] == bs[..i] + [bs[i]];
    assert Unfold(IN_REPLAY);
    forall e | e in mem ensures e.sn < bs[i].first {
      assert e in Entries(mem);
      RecordsBelow(bs[..i], bs[i].first, e);
    }
    AddOpsAddsEntries(mem, bs[i].first, bs[i].ops);
    ReplayRecord(runs, mem, bs[..i], bs[i]);
  }

  /** None of the records from i on and before j fills the memtable. */
  ghost predicate NoneFull(full: nat -> bool, i: nat, j: nat) {
    forall t :: i <= t < j ==> !full(t)
  }

  ghost predicate InOneRun(runs: seq<Run>, e: Entry, d: Entry) {
    exists r :: r in runs && e in r && d in r
  }

  /** Entries of records i and j are in one table exactly if no record from i on and before j fills the memtable. */
  ghost predicate SplitExactly(runs: seq<Run>, bs: seq<Batch>, full: nat -> bool) {
    forall i, j, e, d :: 0 <= i <= j < |bs| && e in BatchEntries(bs[i]) && d in BatchEntries(bs[j]) ==>
      (InOneRun(runs, e, d) <==> NoneFull(full, i, j))
  }

  /** So far, with the first n records read and m of them tested. */
  ghost predicate SplitAt(runs: seq<Run>, mem: Run, bs: seq<Batch>, full: nat -> bool, n: nat, m: nat) {
    n <= |bs| && forall k {:trigger Unfold(k)} :: k == IN_CUTS && Unfold(k) ==>
    && SplitExactly(runs + [mem], bs[..n], full)
    && forall i, e :: 0 <= i < n && e in BatchEntries(bs[i]) ==> (e in mem <==> NoneFull(full, i, m))
  }

  lemma RecordJoins(runs: seq<Run>, mem: Run, mem': Run, bs: seq<Batch>, full: nat -> bool, n: nat)
    requires SplitAt(runs, mem, bs, full, n, n) && n < |bs| && Entries(mem') == Entries(mem) + BatchEntries(bs[n])
    requires forall i, e :: 0 <= i < n && e in BatchEntries(bs[i]) ==> e !in BatchEntries(bs[n])
    requires forall r, e :: r in runs && e in BatchEntries(bs[n]) ==> e !in r
    ensures SplitAt(runs, mem', bs, full, n + 1, n)
  {
    assert Unfold(IN_CUTS);
    forall e: Entry ensures e in mem' <==> e in mem || e in BatchEntries(bs[n]) {
      assert e in Entries(mem') <==> e in mem';
      assert e in Entries(mem) <==> e in mem;
    }
    forall i, j, e, d | 0 <= i <= j < n + 1 && e in BatchEntries(bs[i]) && d in BatchEntries(bs[j])
      ensures InOneRun(runs + [mem'], e, d) <==> NoneFull(full, i, j)
    {
      assert mem in runs + [mem] && mem' in runs + [mem'];
      if j < n {
        assert bs[..n][i] == bs[i] && bs[..n][j] == bs[j];
        SameRun(runs, mem, mem', e, d);
      } else {
        if r :| r in runs + [mem'] && e in r && d in r {
          assert r in runs || r == mem';
        }
      }
    }
    assert forall k :: 0 <= k < n + 1 ==> bs[..n + 1][k] == bs[k];
  }

  lemma SameRun(runs: seq<Run>, mem: Run, mem': Run, e: Entry, d: Entry)
    requires (e in mem <==> e in mem') && (d in mem <==> d in mem')
    ensures InOneRun(runs + [mem], e, d) <==> InOneRun(runs + [mem'], e, d)
  {
    assert mem in runs + [mem] && mem' in runs + [mem'];
    if r :| r in runs + [mem] && e in r && d in r {
      assert r in runs + [mem'] || r == mem;
    }
    if r :| r in runs + [mem'] && e in r && d in r {
      assert r in runs + [mem] || r == mem';
    }
  }

  /** The memtable becomes a table, or has room for the next record. */
  lemma RecordTested(runs: seq<Run>, mem: Run, bs: seq<Batch>, full: nat -> bool, n: nat)
    requires SplitAt(runs, mem, bs, full, n + 1, n)
    ensures full(n) ==> SplitAt(FlushedRuns(runs, mem), [], bs, full, n + 1, n + 1)
    ensures !full(n) ==> SplitAt(runs, mem, bs, full, n + 1, n + 1)
  {
    assert Unfold(IN_CUTS);
    forall i | 0 <= i < n + 1 ensures NoneFull(full, i, n + 1) <==> NoneFull(full, i, n) && !full(n) {
    }
    if full(n) {
      forall i, j, e, d | 0 <= i <= j < n + 1 && e in BatchEntries(bs[..n + 1][i]) && d in BatchEntries(bs[..n + 1][j])
        ensures InOneRun(FlushedRuns(runs, mem) + [[]], e, d) <==> NoneFull(full, i, j)
      {
        FlushedTogether(runs, mem, e, d);
      }
    }
  }

  function FlushedRuns(runs: seq<Run>, mem: Run): seq<Run> {
    if mem == [] then runs else runs + [mem]
  }

  lemma FlushedTogether(runs: seq<Run>, mem: Run, e: Entry, d: Entry)
    ensures InOneRun(FlushedRuns(runs, mem), e, d) <==> InOneRun(runs + [mem], e, d)
    ensures InOneRun(FlushedRuns(runs, mem) + [[]], e, d) <==> InOneRun(runs + [mem], e, d)
  {
    var all := FlushedRuns(runs, mem);
    if r :| r in runs + [mem] && e in r && d in r {
      assert r in all && r in all + [[]];
    }
    if r :| r in all + [[]] && e in r && d in r {
      assert r in runs + [mem];
    }
  }

  /** Records that have not been read are in no table. */
  lemma RecordIsNew(runs: seq<Run>, mem: Run, bs: seq<Batch>, n: nat, limit: nat)
    requires n < |bs| && Replayed(runs, mem, bs[..n]) && InSequence(bs, limit)
    ensures forall i, e :: 0 <= i < n && e in BatchEntries(bs[i]) ==> e !in BatchEntries(bs[n])
    ensures forall r, e :: r in runs && e in BatchEntries(bs[n]) ==> e !in r
  {
    assert Unfold(IN_REPLAY);
    forall i, e | 0 <= i < n && e in BatchEntries(bs[i]) ensures e !in BatchEntries(bs[n]) {
      RecordsApart(bs, i, n, limit, e);
    }
    forall r, e | r in runs && e in r ensures e !in BatchEntries(bs[n]) {
      assert e in RunsEntries(runs) && e in LogEntries(bs[..n]);
      var b :| b in bs[..n] && e in BatchEntries(b);
      var i :| 0 <= i < n && bs[i] == b;
      RecordsApart(bs, i, n, limit, e);
    }
  }

  lemma RecordsApart(bs: seq<Batch>, i: nat, j: nat, limit: nat, e: Entry)
    requires InSequence(bs, limit) && i < j < |bs| && e in BatchEntries(bs[i])
    ensures e !in BatchEntries(bs[j])
  {
  }

  /** DBImpl::RecoverLogFile: records into a memtable, a table whenever it is full and at the end.  An empty
      memtable makes no table. */
  method RecoverLogFile(bs: seq<Batch>, full: nat -> bool, ghost limit: nat) returns (runs: seq<Run>, maxSequence: nat)
    requires InSequence(bs, limit) && limit <= MAX_SEQUENCE
    ensures RunsOf(runs, bs) && maxSequence == MaxSequence(bs)
    ensures SplitExactly(runs, bs, full)
  {
    runs, maxSequence := [], 0;
    var mem: Run := [];
    ReplayStart();
    for i := 0 to |bs|
      invariant Replayed(runs, mem, bs[..i]) && maxSequence == MaxSequence(bs[..i])
      invariant SplitAt(runs, mem, bs, full, i, i)
    {
      var b := bs[i];
      ReplayNext(runs, mem, bs, i, limit);
      RecordIsNew(runs, mem, bs, i, limit);
      RecordJoins(runs, mem, AddOps(mem, b.first, b.ops), bs, full, i);
      mem := AddOps(mem, b.first, b.ops);
      var last := if b.first + |b.ops| == 0 then 0 else b.first + |b.ops| - 1;
      if last > maxSequence {
        maxSequence := last;
      }
      RecordTested(runs, mem, bs, full, i);
      if full(i) {
        ReplayFlush(runs, mem, bs[..i + 1]);
        runs, mem := if mem == [] then runs else runs + [mem], [];
      }
    }
    assert bs[..|bs|] == bs;
    ReplayFlush(runs, mem, bs);
    LastSplit(runs, mem, bs, full);
    runs := if mem == [] then runs else runs + [mem];
  }

  lemma LastSplit(runs: seq<Run>, mem: Run, bs: seq<Batch>, full: nat -> bool)
    requires SplitAt(runs, mem, bs, full, |bs|, |bs|)
    ensures SplitExactly(FlushedRuns(runs, mem), bs, full)
  {
    assert Unfold(IN_CUTS) && bs[..|bs|] == bs;
    forall e, d ensures InOneRun(FlushedRuns(runs, mem), e, d) <==> InOneRun(runs + [mem], e, d) {
      FlushedTogether(runs, mem, e, d);
    }
  }

  /** Two logs one after the other. */
  lemma RunsOfTwoLogs(a: seq<Run>, x: seq<Batch>, b: seq<Run>, y: seq<Batch>)
    requires RunsOf(a, x) && RunsOf(b, y) && Earlier(LogEntries(x), LogEntries(y))
    ensures RunsOf(a + b, x + y)
  {
    assert Unfold(IN_REPLAY);
    var all := a + b;
    LogEntriesOfConcat(x, y);
    assert RunsEntries(all) == RunsEntries(a) + RunsEntries(b);
    forall i, j | 0 <= i < j < |all| ensures Earlier(Entries(all[i]), Entries(all[j])) {
      if i < |a| && j >= |a| {
        assert a[i] in a && b[j - |a|] in b;
      }
    }
  }

  // ---------------------------------------------------------------------------------------------
  // The recovered version
  // ---------------------------------------------------------------------------------------------

  /** New level-0 files, oldest first. */
  function AddLevel0(v: Version, files: seq<File>): Version
    decreases |files|
  {
    if files == [] then v else AddLevel0(v[0 := InsertFile(v[0], files[0])], files[1..])
  }

  /** Numbers increase from "from" on. */
  ghost predicate Numbered(files: seq<File>, from: nat, limit: nat) {
    && from <= limit
    && (forall i :: 0 <= i < |files| ==> from <= files[i].number < limit)
    && (forall i, j :: 0 <= i < j < |files| ==> files[i].number < files[j].number)
  }

  ghost predicate AgedFiles(files: seq<File>, flushed: set<Entry>) {
    && (forall f :: f in files ==> Earlier(flushed, Entries(f.run)))
    && (forall i, j :: 0 <= i < j < |files| ==> Earlier(Entries(files[i].run), Entries(files[j].run)))
  }

  lemma InsertedIsApplied(v: Version, f: File)
    requires NumbersOk(v, f.number)
    ensures Applied(v, {}, [(0, f)], v[0 := InsertFile(v[0], f)])
  {
    assert forall g :: g in v[0] ==> Holds(v, g);
    InsertFileInOrder(v[0], f);
    var v': Version := v[0 := InsertFile(v[0], f)];
    forall l, g | 0 <= l < NUM_LEVELS ensures g in v'[l] <==> g in v[l] || (l, g) in [(0, f)] {
      assert (l, g) in [(0, f)] <==> l == 0 && g == f;
    }
  }

  lemma TablesOkMonotone(v: Version, n: nat, n': nat, flushed: set<Entry>, floor: nat)
    requires TablesOk(v, n, flushed, floor) && n <= n'
    ensures TablesOk(v, n', flushed, floor)
  {
  }

  lemma NewestIsCoherent(run: Run, flushed: set<Entry>)
    requires Sorted(run) && Coherent(flushed) && Earlier(flushed, Entries(run))
    ensures Coherent(Entries(run) + flushed) && Newer(Entries(run), flushed)
  {
    SeekGetIsLatest(run, 0.0, 0);
  }

  /** The tables of v stand for the entries of "flushed". */
  ghost predicate Settled(v: Version, n: nat, flushed: set<Entry>, floor: nat) {
    forall k {:trigger Unfold(k)} :: k == IN_TABLES && Unfold(k) ==> TablesOk(v, n, flushed, floor) && Coherent(flushed)
  }

  /** One recovered table. */
  lemma AddOneFile(v: Version, f: File, n: nat, flushed: set<Entry>, floor: nat)
    requires Settled(v, n, flushed, floor) && n <= f.number && Earlier(flushed, Entries(f.run))
    ensures Settled(v[0 := InsertFile(v[0], f)], f.number + 1, flushed + Entries(f.run), floor)
  {
    assert Unfold(IN_TABLES);
    TablesOkMonotone(v, n, f.number, flushed, floor);
    NewestIsCoherent(f.run, flushed);
    InsertedIsApplied(v, f);
    assert forall g :: g in v[0] ==> Holds(v, g);
    assert Placed(v, 0, f);
    PlacedKeepsTables(v, v[0 := InsertFile(v[0], f)], 0, f, flushed, floor);
    assert Entries(f.run) + flushed == flushed + Entries(f.run);
  }

  lemma SettledMonotone(v: Version, n: nat, n': nat, flushed: set<Entry>, floor: nat)
    requires Settled(v, n, flushed, floor) && n <= n'
    ensures Settled(v, n', flushed, floor)
  {
    assert Unfold(IN_TABLES);
    TablesOkMonotone(v, n, n', flushed, floor);
  }

  lemma ContentsStep(files: seq<File>)
    requires files != []
    ensures Contents(files) == Entries(files[0].run) + Contents(files[1..])
  {
    assert files == [files[0]] + files[1..];
  }

  /** All recovered tables: the invariant holds for flushed entries and recovered ones together. */
  lemma {:induction false} AddLevel0Settles(v: Version, files: seq<File>, n: nat, n': nat, flushed: set<Entry>,
      floor: nat)
    requires Settled(v, n, flushed, floor) && Numbered(files, n, n') && AgedFiles(files, flushed)
    ensures Settled(AddLevel0(v, files), n', flushed + Contents(files), floor)
    decreases |files|
  {
    if files == [] {
      assert flushed + Contents(files) == flushed;
      SettledMonotone(v, n, n', flushed, floor);
    } else {
      var f, rest := files[0], files[1..];
      AddOneFile(v, f, n, flushed, floor);
      RestIsAged(files, flushed);
      AddLevel0Settles(v[0 := InsertFile(v[0], f)], rest, f.number + 1, n', flushed + Entries(f.run), floor);
      ContentsStep(files);
      assert flushed + Entries(f.run) + Contents(rest) == flushed + Contents(files);
    }
  }

  lemma {:induction false} AddLevel0Files(v: Version, files: seq<File>, n: nat, n': nat, l: nat, g: File)
    requires NumbersOk(v, n) && Numbered(files, n, n') && l < NUM_LEVELS
    ensures g in AddLevel0(v, files)[l] <==> g in v[l] || (l == 0 && g in files)
    decreases |files|
  {
    if files != [] {
      var f, rest := files[0], files[1..];
      var v1: Version := v[0 := InsertFile(v[0], f)];
      assert NumbersOk(v, f.number);
      InsertedIsApplied(v, f);
      PlacedKeepsNumbers(v, v1, 0, f);
      AddLevel0Files(v1, rest, f.number + 1, n', l, g);
      AppliedFiles(v, v1, 0, f, l, g);
      assert g in files <==> g == f || g in rest;
    }
  }

  lemma RestIsAged(files: seq<File>, flushed: set<Entry>)
    requires files != [] && AgedFiles(files, flushed)
    ensures AgedFiles(files[1..], flushed + Entries(files[0].run))
  {
    var rest := files[1..];
    forall f | f in rest ensures Earlier(flushed + Entries(files[0].run), Entries(f.run)) {
      var i :| 0 <= i < |rest| && rest[i] == f;
      assert files[i + 1] == f && f in files;
    }
  }

  // ---------------------------------------------------------------------------------------------
  // The new MANIFEST
  // ---------------------------------------------------------------------------------------------

  /** WriteSnapshot: every file of the first n levels. */
  function AllFiles(v: Version, n: nat): seq<(nat, File)>
    requires n <= NUM_LEVELS
  {
    if n == 0 then [] else AllFiles(v, n - 1) + AtLevel(n - 1, v[n - 1])
  }

  function Snapshot(v: Version): Edit {
    Edit(None, None, None, {}, AllFiles(v, NUM_LEVELS))
  }

  lemma {:induction false} AllFilesHolds(v: Version, n: nat, l: nat, f: File)
    requires n <= NUM_LEVELS
    ensures (l, f) in AllFiles(v, n) <==> l < n && f in v[l]
  {
    if n > 0 {
      AllFilesHolds(v, n - 1, l, f);
      AtLevelHolds(n - 1, v[n - 1], l, f);
    }
  }

  lemma DifferentFiles(v: Version, l: nat, nextFile: nat, i: nat, j: nat)
    requires l < NUM_LEVELS && NumbersOk(v, nextFile) && i < j < |v[l]|
    ensures v[l][i].number != v[l][j].number
  {
    assert FileBefore(v[l][i], v[l][j]);
    assert Holds(v, v[l][i]) && Holds(v, v[l][j]);
  }

  lemma {:induction false} AllFilesDistinct(v: Version, n: nat, nextFile: nat)
    requires n <= NUM_LEVELS && NumbersOk(v, nextFile)
    ensures NoNumberTwice(AllFiles(v, n))
  {
    if n > 0 {
      var a, b := AllFiles(v, n - 1), AtLevel(n - 1, v[n - 1]);
      AllFilesDistinct(v, n - 1, nextFile);
      var s: seq<(nat, File)> := a + b;
      forall i, j | 0 <= i < j < |s| && s[i].0 == s[j].0 ensures s[i].1.number != s[j].1.number {
        if i < |a| {
          assert a[i] in a;
          AllFilesHolds(v, n - 1, a[i].0, a[i].1);
        } else {
          DifferentFiles(v, n - 1, nextFile, i - |a|, j - |a|);
        }
      }
    }
  }

  lemma SnapshotChain(v: Version, nextFile: nat)
    requires NumbersOk(v, nextFile)
    ensures ManifestChain([Snapshot(v)], [EMPTY_VERSION, v], v)
  {
    var e := Snapshot(v);
    AllFilesDistinct(v, NUM_LEVELS, nextFile);
    forall p | p in e.added ensures p.0 < NUM_LEVELS && !SeenIn([], p.0, p.1.number) {
      AllFilesHolds(v, NUM_LEVELS, p.0, p.1);
    }
    ValidAppend([], e);
    assert [] + [e] == [e];
    forall l, f | 0 <= l < NUM_LEVELS ensures f in v[l] <==> (l, f) in e.added {
      AllFilesHolds(v, NUM_LEVELS, l, f);
    }
    assert Applied(EMPTY_VERSION, e.deleted, e.added, v);
  }

  lemma SeenInSnapshot(v: Version, l: nat, n: nat)
    requires SeenIn([Snapshot(v)], l, n)
    ensures l < NUM_LEVELS && exists f :: f in v[l] && f.number == n
  {
    SeenAppend([], Snapshot(v), l, n);
    assert [] + [Snapshot(v)] == [Snapshot(v)];
    var p :| p in Snapshot(v).added && p.0 == l && p.1.number == n;
    AllFilesHolds(v, NUM_LEVELS, p.0, p.1);
  }

  lemma SeenOkInSnapshot(v: Version, nextFile: nat)
    requires Recent(v) && NumbersOk(v, nextFile)
    ensures SeenOk([Snapshot(v)], v, nextFile, None)
  {
    forall l: nat, n: nat | SeenIn([Snapshot(v)], l, n) ensures NumberOk(v, nextFile, None, l, n) {
      SeenInSnapshot(v, l, n);
      var f :| f in v[l] && f.number == n;
      assert Holds(v, f);
      forall m, g | 0 <= m < NUM_LEVELS && g in v[m] && g.number == n ensures l <= m {
        assert Holds(v, g);
        OneHome(v, l, f, m, g, Smallest(f));
      }
    }
  }

  lemma RecoveredIsApplied(v: Version, files: seq<File>, n: nat, n': nat)
    requires NumbersOk(v, n) && Numbered(files, n, n') && NumbersOk(AddLevel0(v, files), n')
    ensures Applied(v, {}, AtLevel(0, files), AddLevel0(v, files))
  {
    forall l, g | 0 <= l < NUM_LEVELS ensures g in AddLevel0(v, files)[l] <==>
        g in v[l] || (l, g) in AtLevel(0, files) {
      AddLevel0Files(v, files, n, n', l, g);
      AtLevelHolds(0, files, l, g);
    }
  }

  lemma RecoveredRecordIsNew(v: Version, files: seq<File>, n: nat, n': nat, e: Edit)
    requires SeenOk([Snapshot(v)], v, n, None) && Numbered(files, n, n') && e.deleted == {}
        && e.added == AtLevel(0, files)
    ensures NewRecord([Snapshot(v)], e)
  {
    forall p | p in e.added ensures p.0 == 0 && !SeenIn([Snapshot(v)], p.0, p.1.number) {
      AtLevelHolds(0, files, p.0, p.1);
      var i :| 0 <= i < |files| && files[i] == p.1;
      assert SeenIn([Snapshot(v)], p.0, p.1.number) ==> NumberOk(v, n, None, p.0, p.1.number);
    }
  }

  lemma SeenOkAfterRecovery(v: Version, files: seq<File>, n: nat, n': nat, e: Edit)
    requires SeenOk([Snapshot(v)], v, n, None) && NumbersOk(v, n) && Numbered(files, n, n')
        && e.added == AtLevel(0, files)
    ensures SeenOk([Snapshot(v)] + [e], AddLevel0(v, files), n', None)
  {
    var v' := AddLevel0(v, files);
    forall l: nat, k: nat | SeenIn([Snapshot(v)] + [e], l, k) ensures NumberOk(v', n', None, l, k) {
      SeenAppend([Snapshot(v)], e, l, k);
      if k in NumbersAt(e.added, l) {
        var p :| p in e.added && p.0 == l && p.1.number == k;
        AtLevelHolds(0, files, p.0, p.1);
        var i :| 0 <= i < |files| && files[i] == p.1;
      } else {
        forall m, g | 0 <= m < NUM_LEVELS && g in v'[m] && g.number == k ensures l <= m {
          AddLevel0Files(v, files, n, n', m, g);
          assert NumberOk(v, n, None, l, k);
          assert forall i :: 0 <= i < |files| ==> files[i].number != k;
        }
      }
    }
  }

  /** The new tables are there, and those that were there with numbers below n. */
  ghost predicate TablesRecovered(tables: map<nat, File>, n: nat, files: seq<File>, tables': map<nat, File>) {
    && (forall f :: f in files ==> f.number in tables' && tables'[f.number] == f)
    && (forall m :: m in tables && m < n ==> m in tables' && tables'[m] == tables[m])
  }

  lemma RecoveredOnDisk(tables: map<nat, File>, tables': map<nat, File>, v: Version, files: seq<File>, n: nat, n': nat)
    requires OnDisk(tables, v) && NumbersOk(v, n) && Numbered(files, n, n')
        && TablesRecovered(tables, n, files, tables')
    ensures OnDisk(tables', AddLevel0(v, files))
  {
    forall g | Holds(AddLevel0(v, files), g) ensures g.number in tables' && tables'[g.number] == g {
      var l :| 0 <= l < NUM_LEVELS && g in AddLevel0(v, files)[l];
      AddLevel0Files(v, files, n, n', l, g);
      if g in v[l] {
        assert Holds(v, g);
      }
    }
  }

  // ---------------------------------------------------------------------------------------------
  // Crash and recovery
  // ---------------------------------------------------------------------------------------------

  /** Log records that outlive a crash: appends reach stable storage in order, so a prefix of them. */
  ghost predicate Survives(sys: Sys, immKeep: nat, memKeep: nat) {
    && immKeep <= |ImmLog(sys)| && memKeep <= |MemLog(sys)|
    && (memKeep > 0 ==> immKeep == |ImmLog(sys)|)
    && sys.synced <= |sys.flushedLog| + immKeep + memKeep
  }

  ghost function Survivors(sys: Sys, immKeep: nat, memKeep: nat): seq<Batch>
    requires immKeep <= |ImmLog(sys)| && memKeep <= |MemLog(sys)|
  {
    ImmLog(sys)[..immKeep] + MemLog(sys)[..memKeep]
  }

  function Max(a: nat, b: nat): nat { if a < b then b else a }

  /** The store goes on with version v, the surviving records in new level-0 tables, a new log and a new MANIFEST.
      logs are the log files that the crash left. */
  ghost predicate Restarted(sys: Sys, sys': Sys, v: Version, survivors: seq<Batch>, logs: map<nat, seq<Batch>>,
      nextFile: nat,
                            last: nat, files: seq<File>, newLog: nat) {
    && RunsOf(Runs(files), survivors) && Numbered(files, nextFile, newLog) && (forall n :: n in logs ==> n < newLog)
    && last <= MAX_SEQUENCE
    && sys'.st == State([], None, AddLevel0(v, files), [], last, newLog + 1, None,
        sys.st.flushed + LogEntries(survivors), sys.st.floor)
    && TablesRecovered(sys.tables, nextFile, files, sys'.tables)
    && sys' == Sys(sys'.st, logs[newLog := []], newLog, newLog,
        [Snapshot(v), Record(sys'.st, newLog, {}, AtLevel(0, files))],
                   sys'.tables, {}, multiset{}, [EMPTY_VERSION, v, AddLevel0(v, files)],
                   sys.flushedLog + survivors, |sys.flushedLog| + |survivors|)
  }

  /** It does so with the version it had and with a prefix of its write groups. */
  ghost predicate RestartsRight(sys: Sys, sys': Sys, immKeep: nat, memKeep: nat, logs: map<nat, seq<Batch>>,
      files: seq<File>,
                                newLog: nat) {
    && Survives(sys, immKeep, memKeep) && sys.manifest != []
    && var survivors := Survivors(sys, immKeep, memKeep);
       var last := sys.manifest[|sys.manifest| - 1];
       && last.nextFile.Some? && last.lastSequence.Some?
       && Restarted(sys, sys', sys.st.version, survivors, logs, last.nextFile.value + 1,
                    Max(last.lastSequence.value, MaxSequence(survivors)), files, newLog)
  }

  lemma SurvivorsArePrefix(sys: Sys, immKeep: nat, memKeep: nat)
    requires Survives(sys, immKeep, memKeep)
    ensures var k := |sys.flushedLog| + immKeep + memKeep;
      k <= |Groups(sys)| && sys.flushedLog + Survivors(sys, immKeep, memKeep) == Groups(sys)[..k]
  {
  }

  lemma {:induction false} MaxSequenceBounds(bs: seq<Batch>, limit: nat)
    requires InSequence(bs, limit + 1)
    ensures MaxSequence(bs) <= limit && InSequence(bs, MaxSequence(bs) + 1)
  {
    if bs != [] {
      var n := |bs| - 1;
      InSequencePrefix(bs[..n], [bs[n]], limit + 1);
      assert bs[..n] + [bs[n]] == bs;
      MaxSequenceBounds(bs[..n], limit);
      assert forall i :: 0 <= i < n ==> bs[..n][i] == bs[i];
    }
  }

  lemma RecoveredRuns(files: seq<File>, bs: seq<Batch>, flushed: set<Entry>)
    requires RunsOf(Runs(files), bs) && Earlier(flushed, LogEntries(bs))
    ensures AgedFiles(files, flushed) && Contents(files) == LogEntries(bs)
  {
    assert Unfold(IN_REPLAY);
    var runs := Runs(files);
    forall f | f in files ensures f.run in runs {
      var i :| 0 <= i < |files| && files[i] == f;
      assert runs[i] == f.run;
    }
    forall r | r in runs ensures exists f :: f in files && f.run == r {
      var i :| 0 <= i < |runs| && runs[i] == r;
      assert files[i] in files;
    }
    assert RunsEntries(runs) == Contents(files);
    forall f | f in files ensures Earlier(flushed, Entries(f.run)) {
      assert forall e :: e in f.run ==> e in Contents(files);
    }
    forall i, j | 0 <= i < j < |files| ensures Earlier(Entries(files[i].run), Entries(files[j].run)) {
      assert runs[i] == files[i].run && runs[j] == files[j].run;
    }
  }

  /** The parts of the invariant recovery starts from. */
  lemma BeforeCrash(sys: Sys, immKeep: nat, memKeep: nat)
    requires SysInv(sys) && Survives(sys, immKeep, memKeep) && sys.manifest != []
    requires sys.manifest[|sys.manifest| - 1].nextFile.Some?
    ensures var last := sys.manifest[|sys.manifest| - 1]; var survivors := Survivors(sys, immKeep, memKeep);
      && Settled(sys.st.version, last.nextFile.value + 1, sys.st.flushed, sys.st.floor)
      && Recent(sys.st.version) && NumbersOk(sys.st.version, last.nextFile.value + 1)
      && Earlier(sys.st.flushed, LogEntries(survivors))
      && InSequence(sys.flushedLog + survivors, sys.st.lastSequence + 1)
      && sys.st.flushed == LogEntries(sys.flushedLog)
      && sys.st.lastSequence < MAX_SEQUENCE - 1
  {
    SysHasParts(sys);
    InvHasParts(sys.st);
    assert Unfold(IN_LOGS);
    SurvivorsArePrefix(sys, immKeep, memKeep);
    var k := |sys.flushedLog| + immKeep + memKeep;
    InSequencePrefix(Groups(sys)[..k], Groups(sys)[k..], sys.st.lastSequence + 1);
    assert Groups(sys)[..k] + Groups(sys)[k..] == Groups(sys);
    forall e | e in LogEntries(Survivors(sys, immKeep, memKeep)) ensures e in ImmEntries(sys.st)
        || e in MemEntries(sys.st) {
      var b :| b in Survivors(sys, immKeep, memKeep) && e in BatchEntries(b);
      assert b in ImmLog(sys) || b in MemLog(sys);
    }
    TablesOkFrom(sys.st.version, sys.st.nextFile, sys.manifest[|sys.manifest| - 1].nextFile.value + 1, sys.st.flushed,
        sys.st.floor);
  }

  lemma TablesOkFrom(v: Version, n: nat, n': nat, flushed: set<Entry>, floor: nat)
    requires TablesOk(v, n, flushed, floor) && Coherent(flushed) && forall f :: Holds(v, f) ==> f.number < n'
    ensures Settled(v, n', flushed, floor) && NumbersOk(v, n')
  {
  }

  lemma RecoveredStateInv(v: Version, files: seq<File>, n: nat, newLog: nat, flushed: set<Entry>, survivors: seq<Batch>,
      floor: nat, last: nat)
    requires Settled(v, n, flushed, floor) && Numbered(files, n, newLog) && Earlier(flushed, LogEntries(survivors))
    requires RunsOf(Runs(files), survivors) && floor <= last && UpTo(flushed, last) && InSequence(survivors, last + 1)
    requires last < MAX_SEQUENCE - 1
    ensures floor <= MAX_SEQUENCE
    ensures Inv(State([], None, AddLevel0(v, files), [], last, newLog + 1, None, flushed + LogEntries(survivors),
        floor))
    ensures NumbersOk(AddLevel0(v, files), newLog)
  {
    RecoveredRuns(files, survivors, flushed);
    AddLevel0Settles(v, files, n, newLog, flushed, floor);
    assert Unfold(IN_TABLES);
    TablesOkMonotone(AddLevel0(v, files), newLog, newLog + 1, flushed + LogEntries(survivors), floor);
    forall e | e in LogEntries(survivors) ensures e.sn <= last {
      RecordsBelow(survivors, last + 1, e);
    }
    assert MemOk([], None, flushed + LogEntries(survivors), last);
  }

  lemma RecoveredFilesOk(v: Version, files: seq<File>, n: nat, newLog: nat, e: Edit, tables: map<nat, File>,
      tables': map<nat, File>)
    requires Recent(v) && NumbersOk(v, n) && Numbered(files, n, newLog) && NumbersOk(AddLevel0(v, files), newLog)
    requires e.deleted == {} && e.added == AtLevel(0, files) && OnDisk(tables, v)
        && TablesRecovered(tables, n, files, tables')
    ensures FilesOk([Snapshot(v), e], [EMPTY_VERSION, v, AddLevel0(v, files)], tables', multiset{}, AddLevel0(v, files),
        newLog + 1, None)
  {
    SnapshotChain(v, n);
    SeenOkInSnapshot(v, n);
    RecoveredIsApplied(v, files, n, newLog);
    RecoveredRecordIsNew(v, files, n, newLog, e);
    ChainAppend([Snapshot(v)], [EMPTY_VERSION, v], v, e, AddLevel0(v, files));
    assert [Snapshot(v)] + [e] == [Snapshot(v), e];
    assert [EMPTY_VERSION, v] + [AddLevel0(v, files)] == [EMPTY_VERSION, v, AddLevel0(v, files)];
    SeenOkAfterRecovery(v, files, n, newLog, e);
    SeenOkMonotone([Snapshot(v), e], AddLevel0(v, files), newLog, newLog + 1, None);
    RecoveredOnDisk(tables, tables', v, files, n, newLog);
  }

  lemma RecoveredLogsOk(sys: Sys, sys': Sys, survivors: seq<Batch>, newLog: nat)
    requires sys'.st.mem == [] && sys'.st.imm == None && sys'.logfile == newLog && sys'.logNumber == newLog
    requires newLog in sys'.logs && sys'.logs[newLog] == [] && (forall n :: n in sys'.logs ==> n <= newLog)
    requires sys'.st.nextFile == newLog + 1 && sys'.flushedLog == sys.flushedLog + survivors
    requires sys'.st.flushed == LogEntries(sys.flushedLog) + LogEntries(survivors)
    requires InSequence(sys.flushedLog + survivors, sys'.st.lastSequence + 1)
        && sys'.synced == |sys.flushedLog + survivors|
    ensures LogsOk(sys') && Groups(sys') == sys.flushedLog + survivors
  {
    assert LogEntries([]) == {};
    LogEntriesOfConcat(sys.flushedLog, survivors);
  }

  lemma SurvivorsInSequence(a: seq<Batch>, s: seq<Batch>, limit: nat, manifestLast: nat)
    requires InSequence(a + s, limit + 1) && InSequence(a, manifestLast + 1)
    ensures MaxSequence(s) <= limit
    ensures InSequence(a + s, Max(manifestLast, MaxSequence(s)) + 1)
        && InSequence(s, Max(manifestLast, MaxSequence(s)) + 1)
  {
    var all := a + s;
    assert forall i :: 0 <= i < |s| ==> all[|a| + i] == s[i];
    assert InSequence(s, limit + 1);
    MaxSequenceBounds(s, limit);
    assert forall i :: 0 <= i < |a| ==> all[i] == a[i];
  }

  lemma RestartStateInv(sys: Sys, sys': Sys, immKeep: nat, memKeep: nat, logs: map<nat, seq<Batch>>, files: seq<File>,
                   newLog: nat)
    requires SysInv(sys) && RestartsRight(sys, sys', immKeep, memKeep, logs, files, newLog)
    ensures Inv(sys'.st) && NumbersOk(sys'.st.version, newLog)
    ensures InSequence(sys.flushedLog + Survivors(sys, immKeep, memKeep), sys'.st.lastSequence + 1)
  {
    var survivors, last := Survivors(sys, immKeep, memKeep), sys.manifest[|sys.manifest| - 1];
    BeforeCrash(sys, immKeep, memKeep);
    assert Unfold(IN_SYSTEM);
    SurvivorsInSequence(sys.flushedLog, survivors, sys.st.lastSequence, last.lastSequence.value);
    RecoveredStateInv(sys.st.version, files, last.nextFile.value + 1, newLog, sys.st.flushed, survivors, sys.st.floor,
                      sys'.st.lastSequence);
  }

  lemma RestartFilesOk(sys: Sys, sys': Sys, immKeep: nat, memKeep: nat, logs: map<nat, seq<Batch>>, files: seq<File>,
                   newLog: nat)
    requires SysInv(sys) && RestartsRight(sys, sys', immKeep, memKeep, logs, files, newLog)
        && NumbersOk(sys'.st.version, newLog)
    ensures SysFilesOk(sys')
  {
    BeforeCrash(sys, immKeep, memKeep);
    assert Unfold(IN_SYSTEM);
    RecoveredFilesOk(sys.st.version, files, sys.manifest[|sys.manifest| - 1].nextFile.value + 1, newLog,
        sys'.manifest[1],
                     sys.tables, sys'.tables);
  }

  lemma RestartLogsOk(sys: Sys, sys': Sys, immKeep: nat, memKeep: nat, logs: map<nat, seq<Batch>>, files: seq<File>,
                   newLog: nat)
    requires SysInv(sys) && RestartsRight(sys, sys', immKeep, memKeep, logs, files, newLog)
    requires InSequence(sys.flushedLog + Survivors(sys, immKeep, memKeep), sys'.st.lastSequence + 1)
    ensures LogsOk(sys') && Groups(sys') == sys.flushedLog + Survivors(sys, immKeep, memKeep) == sys'.flushedLog
  {
    BeforeCrash(sys, immKeep, memKeep);
    RecoveredLogsOk(sys, sys', Survivors(sys, immKeep, memKeep), newLog);
  }

  /** Such a restart keeps the invariant, and the history is a prefix of the write groups with every synced one. */
  lemma RestartKeepsInv(sys: Sys, sys': Sys, immKeep: nat, memKeep: nat, logs: map<nat, seq<Batch>>, files: seq<File>,
      newLog: nat)
    requires SysInv(sys) && RestartsRight(sys, sys', immKeep, memKeep, logs, files, newLog)
    ensures SysInv(sys')
    ensures var k := |sys.flushedLog| + immKeep + memKeep;
      sys.synced <= k <= |Groups(sys)| && Groups(sys') == Groups(sys)[..k]
  {
    RestartStateInv(sys, sys', immKeep, memKeep, logs, files, newLog);
    RestartFilesOk(sys, sys', immKeep, memKeep, logs, files, newLog);
    RestartLogsOk(sys, sys', immKeep, memKeep, logs, files, newLog);
    SurvivorsArePrefix(sys, immKeep, memKeep);
    LastRecordFits(sys'.st, sys'.manifest[1], newLog);
    PartsMakeSys(sys');
  }
}
