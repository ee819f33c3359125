/** Writes, memtable switches, snapshots and flushes keep the invariant (db/db_impl.cc, db/write_batch.cc). */
module EngineWrites {
  import opened Wrappers
  import opened DbFormat
  import opened Versions
  import opened Picking
  import opened Edits
  import opened Engine

  /** The entries a write group adds: its operations under consecutive sequence numbers. */
  ghost function OpEntries(first: nat, ops: seq<(UserKey, Op)>): set<Entry>
    requires first + |ops| <= MAX_SEQUENCE
  {
    set i | 0 <= i < |ops| :: Entry(ops[i].0, first + i, ops[i].1)
  }

  lemma {:induction false} OpEntriesStep(first: nat, ops: seq<(UserKey, Op)>)
    requires first + |ops| <= MAX_SEQUENCE && ops != []
    ensures OpEntries(first, ops) == {Entry(ops[0].0, first, ops[0].1)} + OpEntries(first + 1, ops[1..])
  {
    var tail := OpEntries(first + 1, ops[1..]);
    forall e | e in OpEntries(first, ops) ensures e == Entry(ops[0].0, first, ops[0].1) || e in tail {
      var i :| 0 <= i < |ops| && e == Entry(ops[i].0, first + i, ops[i].1);
      if i > 0 {
        assert ops[1..][i - 1] == ops[i];
      }
    }
    forall e | e in tail ensures e in OpEntries(first, ops) {
      var i :| 0 <= i < |ops| - 1 && e == Entry(ops[1..][i].0, first + 1 + i, ops[1..][i].1);
      assert ops[1..][i] == ops[i + 1];
    }
  }

  lemma {:induction false} AddOpsAddsEntries(mem: Run, first: nat, ops: seq<(UserKey, Op)>)
    requires first + |ops| <= MAX_SEQUENCE && Sorted(mem) && forall e :: e in mem ==> e.sn < first
    ensures Sorted(AddOps(mem, first, ops))
    ensures Entries(AddOps(mem, first, ops)) == Entries(mem) + OpEntries(first, ops)
    decreases |ops|
  {
    if ops != [] {
      var e := Entry(ops[0].0, first, ops[0].1);
      InsertSorted(mem, e);
      forall x | x in Insert(mem, e) ensures x.sn < first + 1 {
        assert x in Entries(Insert(mem, e));
      }
      AddOpsAddsEntries(Insert(mem, e), first + 1, ops[1..]);
      OpEntriesStep(first, ops);
    }
  }

  lemma WriteKeepsMem(mem: Run, imm: Option<Run>, flushed: set<Entry>, last: nat, ops: seq<(UserKey, Op)>)
    requires MemOk(mem, imm, flushed, last) && last + |ops| + 1 <= MAX_SEQUENCE
    ensures MemOk(AddOps(mem, last + 1, ops), imm, flushed, last + |ops|)
    ensures Entries(AddOps(mem, last + 1, ops)) == Entries(mem) + OpEntries(last + 1, ops)
  {
    forall e | e in mem ensures e.sn < last + 1 {
      assert e in Entries(mem);
    }
    AddOpsAddsEntries(mem, last + 1, ops);
  }

  lemma SnapshotsOutlastWrite(snapshots: seq<SeqNo>, floor: nat, last: nat, last': nat, running: Option<Running>)
    requires SnapshotsOk(snapshots, floor, last, running) && last <= last' < MAX_SEQUENCE - 1
    ensures SnapshotsOk(snapshots, floor, last', running)
  {
  }

  /** A write group puts exactly its entries into the history, all newer than everything before. */
  lemma WriteKeepsInv(st: State, st': State, ops: seq<(UserKey, Op)>)
    requires Inv(st) && WriteStep(st, st', ops)
    ensures Inv(st')
    ensures History(st') == History(st) + OpEntries(st.lastSequence + 1, ops)
  {
    InvHasParts(st);
    WriteKeepsMem(st.mem, st.imm, st.flushed, st.lastSequence, ops);
    SnapshotsOutlastWrite(st.snapshots, st.floor, st.lastSequence, st'.lastSequence, st.running);
    PartsMakeInv(st');
    assert MemEntries(st') == MemEntries(st) + OpEntries(st.lastSequence + 1, ops);
  }

  lemma SwitchKeepsInv(st: State, st': State)
    requires Inv(st) && SwitchStep(st, st')
    ensures Inv(st') && History(st') == History(st)
  {
    assert Unfold(IN_ENGINE);
    assert MemEntries(st') == {} && ImmEntries(st') == MemEntries(st) && ImmEntries(st) == {};
  }

  lemma TakeSnapshotKeepsInv(st: State, st': State)
    requires Inv(st) && TakeSnapshotStep(st, st')
    ensures Inv(st') && History(st') == History(st)
  {
    assert Unfold(IN_ENGINE);
    assert SnapshotsOk(st'.snapshots, st'.floor, st'.lastSequence, st'.running);
  }

  lemma RemovalKeepsSnapshots(snapshots: seq<SeqNo>, i: nat, floor: nat, lastSequence: nat, running: Option<Running>)
    requires i < |snapshots| && SnapshotsOk(snapshots, floor, lastSequence, running)
    ensures SnapshotsOk(snapshots[..i] + snapshots[i + 1..], floor, lastSequence, running)
  {
  }

  lemma ReleaseSnapshotKeepsInv(st: State, st': State, i: nat)
    requires Inv(st) && ReleaseSnapshotStep(st, st', i)
    ensures Inv(st') && History(st') == History(st)
  {
    assert Unfold(IN_ENGINE);
    RemovalKeepsSnapshots(st.snapshots, i, st.floor, st.lastSequence, st.running);
  }

  // ---------------------------------------------------------------------------------------------
  // Versions after an edit
  // ---------------------------------------------------------------------------------------------

  /** Any two files are apart in internal keys. */
  ghost predicate Apart(fs: seq<File>) {
    forall f, g :: f in fs && g in fs && f != g ==> Before(Largest(f), Smallest(g)) || Before(Largest(g), Smallest(f))
  }

  lemma ApartInOrderIsDisjoint(fs: seq<File>)
    requires Apart(fs) && InFileOrder(fs)
    ensures Disjoint(fs)
  {
    forall i, j | 0 <= i < j < |fs| ensures Before(Largest(fs[i]), Smallest(fs[j])) {
      assert FileBefore(fs[i], fs[j]);
      RunBounds(fs[i], Largest(fs[i]));
      RunBounds(fs[j], Largest(fs[j]));
    }
  }

  lemma DisjointIsApart(fs: seq<File>)
    requires Disjoint(fs)
    ensures Apart(fs)
  {
    forall f, g | f in fs && g in fs && f != g
      ensures Before(Largest(f), Smallest(g)) || Before(Largest(g), Smallest(f))
    {
      var i, j :| 0 <= i < |fs| && 0 <= j < |fs| && fs[i] == f && fs[j] == g;
    }
  }

  // ---------------------------------------------------------------------------------------------
  // Flushing the immutable memtable
  // ---------------------------------------------------------------------------------------------

  /** A table newer than everything, placed where nothing above or beside it meets its range. */
  ghost predicate Placed(v: Version, level: nat, f: File) {
    && level < NUM_LEVELS
    && Newer(Entries(f.run), Tables(v))
    && (level > 0 ==> forall l, g :: 0 <= l <= level && g in v[l] ==> !Meets(g, Lo(f), Hi(f)))
    && (forall g :: g in v[0] ==> g.number < f.number)
  }

  lemma AppliedFiles(v: Version, v': Version, level: nat, f: File, l: nat, g: File)
    requires level < NUM_LEVELS && l < NUM_LEVELS && Applied(v, {}, [(level, f)], v')
    ensures g in v'[l] <==> g in v[l] || (l == level && g == f)
  {
    assert (l, g) in [(level, f)] <==> l == level && g == f;
  }

  lemma PlacedContents(v: Version, v': Version, level: nat, f: File)
    requires level < NUM_LEVELS && Applied(v, {}, [(level, f)], v')
    ensures forall l :: 0 <= l < NUM_LEVELS ==>
        Contents(v'[l]) == if l == level then Contents(v[l]) + Entries(f.run) else Contents(v[l])
    ensures Tables(v') == Tables(v) + Entries(f.run)
  {
    forall l | 0 <= l < NUM_LEVELS
      ensures Contents(v'[l]) == if l == level then Contents(v[l]) + Entries(f.run) else Contents(v[l])
    {
      forall g ensures g in v'[l] <==> g in v[l] || (l == level && g == f) {
        AppliedFiles(v, v', level, f, l, g);
      }
    }
    forall e ensures e in Tables(v') <==> e in Tables(v) || e in f.run {
      if e in f.run { assert e in Contents(v'[level]); }
    }
  }

  lemma PlacedLevelDisjoint(v: Version, v': Version, level: nat, f: File, l: nat)
    requires LevelsDisjoint(v) && Placed(v, level, f) && Applied(v, {}, [(level, f)], v') && 1 <= l < NUM_LEVELS
    ensures Disjoint(v'[l])
  {
    DisjointIsApart(v[l]);
    forall g, h | g in v'[l] && h in v'[l] && g != h
      ensures Before(Largest(g), Smallest(h)) || Before(Largest(h), Smallest(g))
    {
      AppliedFiles(v, v', level, f, l, g);
      AppliedFiles(v, v', level, f, l, h);
      if g == f && h in v[l] {
        assert l == level ==> !Meets(h, Lo(f), Hi(f));
      } else if h == f && g in v[l] {
        assert l == level ==> !Meets(g, Lo(f), Hi(f));
      }
    }
    ApartInOrderIsDisjoint(v'[l]);
  }

  /** Upper levels that f does not meet share no key with it. */
  lemma NotMetSharesNoKey(fs: seq<File>, f: File)
    requires forall g :: g in fs ==> !Meets(g, Lo(f), Hi(f))
    ensures Newer(Contents(fs), Entries(f.run))
  {
    forall a, b | a in Contents(fs) && b in f.run ensures a.key != b.key {
      var g :| g in fs && a in g.run;
      RunBounds(g, a);
      RunBounds(f, b);
    }
  }

  lemma PlacedLevelsNewer(v: Version, v': Version, level: nat, f: File, i: nat, j: nat)
    requires Recent(v) && Placed(v, level, f) && Applied(v, {}, [(level, f)], v') && i < j < NUM_LEVELS
    ensures Newer(Contents(v'[i]), Contents(v'[j]))
  {
    PlacedContents(v, v', level, f);
    if j == level {
      NotMetSharesNoKey(v[i], f);
    }
    assert forall e :: e in Contents(v[j]) ==> e in Tables(v);
  }

  lemma PlacedLevel0(v: Version, v': Version, level: nat, f: File)
    requires Recent(v) && Placed(v, level, f) && Applied(v, {}, [(level, f)], v')
    ensures NumberedByAge(v'[0])
  {
    forall g ensures g in v'[0] <==> g in v[0] || (level == 0 && g == f) {
      AppliedFiles(v, v', level, f, 0, g);
    }
    forall g | g in v[0] ensures Newer(Entries(f.run), Entries(g.run)) {
      forall e | e in g.run ensures e in Tables(v) {
        assert e in Contents(v[0]);
      }
    }
  }

  lemma PlacedKeepsRecent(v: Version, v': Version, level: nat, f: File)
    requires Recent(v) && Placed(v, level, f) && Applied(v, {}, [(level, f)], v')
    ensures Recent(v')
  {
    PlacedLevel0(v, v', level, f);
    forall l | 1 <= l < NUM_LEVELS ensures Disjoint(v'[l]) {
      PlacedLevelDisjoint(v, v', level, f, l);
    }
    forall i, j | 0 <= i < j < NUM_LEVELS ensures Newer(Contents(v'[i]), Contents(v'[j])) {
      PlacedLevelsNewer(v, v', level, f, i, j);
    }
  }

  lemma PlacedKeepsNumbers(v: Version, v': Version, level: nat, f: File)
    requires NumbersOk(v, f.number) && level < NUM_LEVELS && Applied(v, {}, [(level, f)], v')
    ensures NumbersOk(v', f.number + 1)
  {
    forall g | Holds(v', g) ensures Holds(v, g) || g == f {
      var l :| 0 <= l < NUM_LEVELS && g in v'[l];
      AppliedFiles(v, v', level, f, l, g);
    }
  }

  lemma FlushIsPlaced(v: Version, nextFile: nat, flushed: set<Entry>, f: File, maxGrandParentBytes: nat, level: nat)
    requires NumbersOk(v, nextFile) && Tables(v) <= flushed && Earlier(flushed, Entries(f.run)) && f.number == nextFile
    requires MemTableLevel(v, Lo(f), Hi(f), maxGrandParentBytes, level)
    ensures Placed(v, level, f)
  {
    assert forall g :: g in v[0] ==> Holds(v, g);
    if level > 0 {
      forall l, g | 0 <= l <= level && g in v[l] ensures !Meets(g, Lo(f), Hi(f)) {
        MemTableLevelIsClear(v, Lo(f), Hi(f), maxGrandParentBytes, level, l);
      }
    }
  }

  /** A file that meets no input lies on one side of all of them: the inputs leave no gap. */
  lemma NotMeetingAvoids(f: File, c: Compaction)
    requires Gapless(c.in0 + c.in1)
    requires forall g :: g in c.in0 + c.in1 ==> !Meets(g, Lo(f), Hi(f))
    ensures Avoids(f, c)
  {
    RunBounds(f, Smallest(f));
    var inputs := c.in0 + c.in1;
    assert !Covers(inputs, Lo(f));
    if g :| g in inputs && Hi(f) < Lo(g) {
      RunBounds(g, Smallest(g));
      forall h | h in inputs ensures Hi(f) < Lo(h) {
        RunBounds(h, Smallest(h));
        assert !(Lo(h) <= Lo(f) <= Hi(g));
      }
    }
  }

  lemma InputsInTables(v: Version, c: Compaction, input: Run)
    requires c.level + 1 < NUM_LEVELS && InputsPresent(v, c) && IsMergeOf(input, c)
    ensures Entries(input) <= Tables(v)
  {
    forall x | x in input ensures x in Tables(v) {
      assert x in Entries(input);
      assert x in Contents(v[c.level]) || x in Contents(v[c.level + 1]);
    }
  }

  lemma PlacedIsLater(v: Version, level: nat, f: File, input: Run)
    requires Placed(v, level, f) && Entries(input) <= Tables(v)
    ensures LaterThan(f, input)
  {
    forall e, x | e in f.run && x in input && e.key == x.key ensures e.sn > x.sn {
      assert x in Entries(input) && e in Entries(f.run);
    }
  }

  lemma PlacedAvoidsInputs(v: Version, level: nat, f: File, c: Compaction)
    requires Placed(v, level, f) && c.level + 1 < NUM_LEVELS && level > c.level && Gapless(c.in0 + c.in1)
    requires InputsPresent(v, c)
    ensures Avoids(f, c)
  {
    NotMeetingAvoids(f, c);
  }

  lemma PlacedIsFlushedMeanwhile(v: Version, v': Version, level: nat, f: File, r: Running)
    requires level < NUM_LEVELS && Applied(v, {}, [(level, f)], v') && FlushedMeanwhile(v, r)
    requires LaterThan(f, r.input) && (level > r.c.level ==> Avoids(f, r.c))
    ensures FlushedMeanwhile(v', r)
  {
    forall l, g | 0 <= l < NUM_LEVELS && g in v'[l] && g !in r.base[l]
      ensures LaterThan(g, r.input) && (l > r.c.level ==> Avoids(g, r.c))
    {
      AppliedFiles(v, v', level, f, l, g);
    }
  }

  lemma InputsStay(v: Version, v': Version, level: nat, f: File, l: nat, inputs: seq<File>)
    requires level < NUM_LEVELS && l < NUM_LEVELS && Applied(v, {}, [(level, f)], v')
    requires forall g :: g in inputs ==> g in v[l]
    ensures forall g :: g in inputs ==> g in v'[l]
  {
    forall g | g in inputs ensures g in v'[l] {
      AppliedFiles(v, v', level, f, l, g);
    }
  }

  lemma PlacedKeepsRunning(v: Version, v': Version, level: nat, f: File, r: Running)
    requires Placed(v, level, f) && Applied(v, {}, [(level, f)], v') && RunningOk(v, r)
    ensures RunningOk(v', r)
  {
    assert Unfold(IN_PICKS);
    InputsInTables(v, r.c, r.input);
    PlacedIsLater(v, level, f, r.input);
    if level > r.c.level {
      PlacedAvoidsInputs(v, level, f, r.c);
    }
    PlacedIsFlushedMeanwhile(v, v', level, f, r);
    InputsStay(v, v', level, f, r.c.level, r.c.in0);
    InputsStay(v, v', level, f, r.c.level + 1, r.c.in1);
  }

  lemma AgreeAfterFlush(N: set<Entry>, T: set<Entry>, flushed: set<Entry>, floor: nat)
    requires T <= flushed && Agree(T, flushed, floor)
    requires Coherent(N + flushed) && Newer(N, flushed)
    ensures T + N <= flushed + N && Agree(T + N, flushed + N, floor)
  {
    CoherentSubset(N + T, N + flushed);
    AgreeUnderOverlay(N, T, flushed, floor);
    assert N + T == T + N && N + flushed == flushed + N;
  }

  lemma PlacedKeepsTables(v: Version, v': Version, level: nat, f: File, flushed: set<Entry>, floor: nat)
    requires TablesOk(v, f.number, flushed, floor) && Placed(v, level, f) && Applied(v, {}, [(level, f)], v')
    requires Coherent(Entries(f.run) + flushed) && Newer(Entries(f.run), flushed)
    ensures TablesOk(v', f.number + 1, flushed + Entries(f.run), floor)
  {
    PlacedKeepsRecent(v, v', level, f);
    PlacedKeepsNumbers(v, v', level, f);
    PlacedContents(v, v', level, f);
    AgreeAfterFlush(Entries(f.run), Tables(v), flushed, floor);
  }

  lemma FlushKeepsTables(st: State, st': State, size: nat, maxGrandParentBytes: nat, level: nat)
    requires Inv(st) && FlushStep(st, st', size, maxGrandParentBytes, level) && st.imm.value != []
    ensures TablesOk(st'.version, st'.nextFile, st'.flushed, st'.floor)
    ensures st.running.Some? ==> RunningOk(st'.version, st.running.value)
  {
    assert Unfold(IN_ENGINE);
    var f: File := File(st.nextFile, size, st.imm.value);
    HistoryIsCoherent(st);
    FlushIsPlaced(st.version, st.nextFile, st.flushed, f, maxGrandParentBytes, level);
    PlacedKeepsTables(st.version, st'.version, level, f, st.flushed, st.floor);
    if st.running.Some? {
      PlacedKeepsRunning(st.version, st'.version, level, f, st.running.value);
    }
  }

  lemma FlushKeepsBands(mem: Run, imm: Run, flushed: set<Entry>, lastSequence: nat)
    requires MemOk(mem, Some(imm), flushed, lastSequence)
    ensures MemOk(mem, None, flushed + Entries(imm), lastSequence)
    ensures Entries(mem) + (Entries(imm) + flushed) == Entries(mem) + ({} + (flushed + Entries(imm)))
  {
    SeekGetIsLatest(imm, 0.0, 0);
  }

  /** A flush moves entries from the memtable to the tables; nobody can tell. */
  lemma FlushKeepsInv(st: State, st': State, size: nat, maxGrandParentBytes: nat, level: nat)
    requires Inv(st) && FlushStep(st, st', size, maxGrandParentBytes, level)
    ensures Inv(st') && History(st') == History(st)
  {
    assert Unfold(IN_ENGINE);
    FlushKeepsBands(st.mem, st.imm.value, st.flushed, st.lastSequence);
    if st.imm.value == [] {
      assert st'.flushed == st.flushed;
      assert TablesOk(st'.version, st'.nextFile, st'.flushed, st'.floor);
    } else {
      FlushKeepsTables(st, st', size, maxGrandParentBytes, level);
    }
  }
}
