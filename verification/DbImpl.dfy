/** The store object: every method is one step of the engine (db/db_impl.cc, db/version_set.cc). */
module DbImpl {
  import opened Wrappers
  import opened DbFormat
  import opened Versions
  import opened Picking
  import opened Compacting
  import opened Edits
  import opened Manifest
  import opened Engine
  import opened EngineWrites
  import opened EngineCompact
  import opened EngineRuns
  import opened InputMerge

  /** An edit one version can take: no number twice, nothing added that is there or taken back. */
  ghost predicate FitsVersion(v: Version, e: Edit) {
    && LevelsInRange(e) && NoNumberTwice(e.added)
    && (forall p, f :: p in e.added && f in v[p.0] ==> f.number != p.1.number)
    && (forall p :: p in e.added ==> (p.0, p.1.number) !in e.deleted)
  }

  lemma SavedIsApplied(base: seq<File>, e: Edit, l: nat, r: seq<File>)
    requires NoNumberTwice(e.added) && InFileOrder(base)
    requires forall p, f :: p in e.added && p.0 == l && f in base ==> f.number != p.1.number
    requires forall p :: p in e.added ==> (p.0, p.1.number) !in e.deleted
    ensures var s := AfterEdit(LevelState({}, []), l, e);
      && Mergeable(base, s)
      && (Saved(base, s.deleted, s.added, r) ==>
            InFileOrder(r) && forall f :: f in r <==> (f in base || (l, f) in e.added) && (l, f.number) !in e.deleted)
  {
    AddAllInOrder([], e.added, l);
    var s := AfterEdit(LevelState({}, []), l, e);
    forall f | f in base || (l, f) in e.added ensures f.number in s.deleted <==> (l, f.number) in e.deleted {
      if (l, f) in e.added {
        assert f.number in NumbersAt(e.added, l);
      }
    }
  }

  /** The part of VersionSet::LogAndApply that builds the next version. */
  method ApplyEdit(v: Version, e: Edit) returns (v': Version)
    requires FitsVersion(v, e) && forall l :: 0 <= l < NUM_LEVELS ==> InFileOrder(v[l])
    ensures Applied(v, e.deleted, e.added, v')
  {
    var builder := new Builder(v);
    builder.Apply(e);
    forall l | 0 <= l < NUM_LEVELS ensures Mergeable(v[l], builder.levels[l]) {
      SavedIsApplied(v[l], e, l, []);
    }
    v' := builder.SaveTo();
    forall l | 0 <= l < NUM_LEVELS
      ensures InFileOrder(v'[l]) && forall f :: f in v'[l] <==>
          (f in v[l] || (l, f) in e.added) && (l, f.number) !in e.deleted
    {
      SavedIsApplied(v[l], e, l, v'[l]);
    }
  }

  function TablesEdit(deleted: set<(nat, nat)>, added: seq<(nat, File)>): Edit {
    Edit(None, None, None, deleted, added)
  }

  class DBImpl {
    var mem: Run
    var imm: Option<Run>
    var current: Version
    var snapshots: seq<SeqNo>
    var lastSequence: SeqNo
    var nextFile: nat
    var running: Option<Running>
    ghost var flushed: set<Entry>
    ghost var floor: SeqNo

    ghost function Abs(): State
      reads this
    {
      State(mem, imm, current, snapshots, lastSequence, nextFile, running, flushed, floor)
    }

    ghost predicate Valid()
      reads this
    {
      Inv(Abs()) && (running.Some? ==> running.value.first <= nextFile)
    }

    constructor (nextFile: nat)
      ensures Valid() && History(Abs()) == {}
    {
      mem, imm, current, snapshots, lastSequence := [], None, EMPTY_VERSION, [], 0;
      this.nextFile, running, flushed, floor := nextFile, None, {}, 0;
      new;
      InitialInv(Abs());
    }

    /** The value a reader sees, at a live snapshot or at the last sequence number. */
    method Get(u: UserKey, snapshot: Option<SeqNo>) returns (r: Option<UserValue>)
      requires Valid() && (snapshot.Some? ==> snapshot.value in snapshots)
      ensures r == Read(History(Abs()), u, if snapshot.Some? then snapshot.value else lastSequence)
    {
      var s := if snapshot.Some? then snapshot.value else lastSequence;
      InvParts(Abs());
      LookupReadsHistory(Abs(), u, s);
      var e := SeekGet(mem, u, s);
      if e.None? && imm.Some? {
        e := SeekGet(imm.value, u, s);
      }
      if e.None? {
        LevelsAreInOrder(Abs());
        e := Versions.Get(current, u, s);
      }
      return Answer(e);
    }

    method GetSnapshot() returns (s: SeqNo)
      requires Valid()
      modifies this
      ensures Valid() && s == old(lastSequence) && TakeSnapshotStep(old(Abs()), Abs())
          && History(Abs()) == old(History(Abs()))
    {
      ghost var before := Abs();
      s := lastSequence;
      snapshots := snapshots + [lastSequence];
      TakeSnapshotKeepsInv(before, Abs());
    }

    method ReleaseSnapshot(i: nat)
      requires Valid() && i < |snapshots|
      modifies this
      ensures Valid() && ReleaseSnapshotStep(old(Abs()), Abs(), i) && History(Abs()) == old(History(Abs()))
    {
      ghost var before := Abs();
      snapshots := snapshots[..i] + snapshots[i + 1..];
      ReleaseSnapshotKeepsInv(before, Abs(), i);
    }

    /** The part of DBImpl::Write that touches the memtable. */
    method Write(ops: seq<(UserKey, Op)>)
      requires Valid() && lastSequence + |ops| + 1 < MAX_SEQUENCE
      modifies this
      ensures Valid() && WriteStep(old(Abs()), Abs(), ops)
      ensures AddsToHistory(old(Abs()), Abs(), ops)
    {
      ghost var before := Abs();
      var next := InsertInto(mem, lastSequence + 1, ops);
      ghost var after := AfterWrite(before, next, ops);
      mem, lastSequence := next, lastSequence + |ops|;
      assert Abs() == after;
    }

    /** The switch in MakeRoomForWrite. */
    method SwitchMemTable()
      requires Valid() && imm.None?
      modifies this
      ensures Valid() && SwitchStep(old(Abs()), Abs()) && History(Abs()) == old(History(Abs()))
    {
      ghost var before := Abs();
      imm, mem := Some(mem), [];
      SwitchKeepsInv(before, Abs());
    }

    /** CompactMemTable: write the immutable memtable as a table and install it. */
    method CompactMemTable(size: nat, maxGrandParentBytes: nat) returns (ghost level: nat)
      requires Valid() && imm.Some?
      modifies this
      ensures Valid() && FlushStep(old(Abs()), Abs(), size, maxGrandParentBytes, level)
          && History(Abs()) == old(History(Abs()))
    {
      ghost var before := Abs();
      var installed, chosen := WriteLevel0Table(current, nextFile, size, imm.value, maxGrandParentBytes, before);
      level := chosen;
      ghost var after := before.(imm := None, flushed := flushed + ImmEntries(before), nextFile := nextFile + 1,
          version := installed);
      FlushKeepsInv(before, after, size, maxGrandParentBytes, level);
      current, flushed, imm, nextFile := installed, flushed + ImmEntries(before), None, nextFile + 1;
      assert Abs() == after;
    }

    /** BackgroundCompaction with a lone input file that meets nothing below: only the MANIFEST changes. */
    method MoveFile(level: nat, chosen: File, limit: nat, maxGrandParentBytes: nat)
        returns (moved: bool, ghost c: Compaction)
      requires Valid() && imm.None? && running.None? && level + 1 < NUM_LEVELS && chosen in current[level]
      modifies this
      ensures moved && MoveClean(old(current), c) ==>
        Valid() && History(Abs()) == old(History(Abs()))
      ensures moved ==> MoveStep(old(Abs()), Abs(), level, chosen, limit, maxGrandParentBytes, c)
      ensures !moved ==> Abs() == old(Abs())
    {
      ghost var before := Abs();
      var pick := PickCompaction(current, level, chosen, limit);
      c := pick;
      PickIsSound(current, level, chosen, limit, pick);
      moved := IsTrivial(current, pick, maxGrandParentBytes);
      if moved {
        var f := pick.in0[0];
        MoveFits(before, pick, f);
        current := ApplyEdit(current, TablesEdit({(level, f.number)}, [(level + 1, f)]));
        if MoveClean(before.version, pick) {
          MoveKeepsInv(before, Abs(), level, chosen, limit, maxGrandParentBytes, pick);
        }
      }
    }

    /** BackgroundCompaction up to the point where the mutex is released: the pick, and the input of its merge. */
    method StartCompaction(level: nat, chosen: File, limit: nat)
      requires Valid() && imm.None? && running.None? && level + 1 < NUM_LEVELS && chosen in current[level]
      modifies this
      ensures running.Some? && StartStep(old(Abs()), Abs(), level, chosen, limit, running.value)
      ensures BoundaryClean(running.value) ==> Valid() && History(Abs()) == old(History(Abs()))
    {
      ghost var before := Abs();
      var pick := PickCompaction(current, level, chosen, limit);
      InputIsReady(before, level, chosen, limit, pick);
      var input := MergeInputs(current, pick);
      var smallest := if snapshots == [] then lastSequence else snapshots[0];
      running := Some(Running(pick, input, smallest, current, nextFile));
      if BoundaryClean(running.value) {
        StartKeepsInv(before, Abs(), level, chosen, limit, running.value);
      }
    }

    /** One round of BackgroundCompaction: a trivial move, or the start of a compaction. */
    method BackgroundCompaction(level: nat, chosen: File, limit: nat, maxGrandParentBytes: nat)
        returns (moved: bool, ghost c: Compaction)
      requires Valid() && imm.None? && running.None? && level + 1 < NUM_LEVELS && chosen in current[level]
      modifies this
      ensures moved ==> MoveStep(old(Abs()), Abs(), level, chosen, limit, maxGrandParentBytes, c)
      ensures !moved ==> running.Some? && StartStep(old(Abs()), Abs(), level, chosen, limit, running.value)
      ensures moved && MoveClean(old(current), c) ==> Valid() && History(Abs()) == old(History(Abs()))
      ensures !moved && BoundaryClean(running.value) ==> Valid() && History(Abs()) == old(History(Abs()))
    {
      moved, c := MoveFile(level, chosen, limit, maxGrandParentBytes);
      if !moved {
        StartCompaction(level, chosen, limit);
      }
    }

    /** DoCompactionWork and InstallCompactionResults. */
    method FinishCompaction(stopBefore: nat -> bool, full: nat -> bool, size: nat)
      requires Valid() && running.Some?
      modifies this
      ensures Valid() && running.None? && History(Abs()) == old(History(Abs()))
      ensures exists outputs :: FinishStep(old(Abs()), Abs(), outputs)
    {
      ghost var before := Abs();
      var r := running.value;
      FinishReady(Abs());
      var outputs := OutputsOf(r, nextFile, stopBefore, full, size);
      OutputsFit(before, outputs);
      current := ApplyEdit(current, TablesEdit(InputNumbersOf(r.c), AtLevel(r.c.level + 1, outputs)));
      nextFile := nextFile + |outputs|;
      floor := if floor < r.snapshot then r.snapshot else floor;
      running := None;
      FinishIsStep(before, Abs(), outputs);
      FinishKeepsInv(before, Abs(), outputs);
    }
  }

  /** The version with a new table for the run, at the level that PickLevelForMemTableOutput chooses; an empty run makes
      no table. */
  method WriteLevel0Table(v: Version, number: nat, size: nat, run: Run, maxGrandParentBytes: nat, ghost st: State)
    returns (v': Version, level: nat)
    requires Inv(st) && st.imm == Some(run) && st.version == v && st.nextFile == number
    ensures Sorted(run)
    ensures if run == [] then v' == v else
            var f := RawFile.File(number, size, run);
            MemTableLevel(v, Lo(f), Hi(f), maxGrandParentBytes, level) && Applied(v, {}, [(level, f)], v')
  {
    FlushReady(st);
    level := 0;
    if run == [] {
      return v, level;
    }
    var f: File := File(number, size, run);
    RunBounds(f, Smallest(f));
    level := PickLevelForMemTableOutput(v, Lo(f), Hi(f), maxGrandParentBytes);
    NewNumberFits(v, number, {}, level, f);
    v' := ApplyEdit(v, TablesEdit({}, [(level, f)]));
  }

  /** Compaction::IsTrivialMove. */
  method IsTrivial(v: Version, c: Compaction, maxGrandParentBytes: nat) returns (r: bool)
    requires c.level + 1 < NUM_LEVELS && c.in0 != []
    ensures r <==> IsTrivialMove(v, c, maxGrandParentBytes)
  {
    r := |c.in0| == 1 && c.in1 == [];
    if r && c.level + 2 < NUM_LEVELS {
      var first, last := GetRange(c.in0);
      RangeInOrder(c.in0);
      var overlaps, a, b := GetOverlappingInputs(c.level + 2, v[c.level + 2], first.key, last.key);
      var grandparents := TotalFileSize(overlaps);
      r := grandparents <= maxGrandParentBytes;
    }
    assert Unfold(IN_PICKS);
  }

  /** WriteBatchInternal::InsertInto: one Insert after the other, with consecutive sequence numbers. */
  method InsertInto(mem: Run, first: SeqNo, ops: seq<(UserKey, Op)>) returns (mem': Run)
    requires first + |ops| <= MAX_SEQUENCE
    ensures mem' == AddOps(mem, first, ops)
  {
    mem' := mem;
    for i := 0 to |ops|
      invariant AddOps(mem, first, ops) == AddOps(mem', first + i, ops[i..])
    {
      assert ops[i..][1..] == ops[i + 1..];
      mem' := Insert(mem', Entry(ops[i].0, first + i, ops[i].1));
    }
  }

  /** The multi-version map has exactly these operations in addition, under consecutive sequence numbers. */
  ghost predicate AddsToHistory(st: State, st': State, ops: seq<(UserKey, Op)>) {
    && st.lastSequence + 1 + |ops| <= MAX_SEQUENCE
    && forall k {:trigger Unfold(k)} :: k == IN_HISTORY && Unfold(k) ==>
        History(st') == History(st) + OpEntries(st.lastSequence + 1, ops)
  }

  lemma AfterWrite(st: State, mem: Run, ops: seq<(UserKey, Op)>) returns (st': State)
    requires Inv(st) && st.lastSequence + |ops| + 1 < MAX_SEQUENCE && mem == AddOps(st.mem, st.lastSequence + 1, ops)
    ensures st' == st.(mem := mem, lastSequence := st.lastSequence + |ops|) && WriteStep(st, st', ops) && Inv(st')
    ensures AddsToHistory(st, st', ops)
  {
    st' := st.(mem := mem, lastSequence := st.lastSequence + |ops|);
    WriteKeepsInv(st, st', ops);
  }

  /** The unlocked part of a compaction: merge, drop, cut, name. */
  method OutputsOf(r: Running, next: nat, stopBefore: nat -> bool, full: nat -> bool, size: nat)
      returns (outputs: seq<File>)
    requires Ready(r)
    ensures CutOfKept(r, outputs) && forall i :: 0 <= i < |outputs| ==> outputs[i].number == next + i
  {
    var scan := new BaseLevelScan(r.base, r.c.level);
    var compact := new CompactionState();
    DoCompactionWork(r.input, r.snapshot, scan, compact, stopBefore, full);
    KeptIsTheRest(r.input, |r.input|, r.snapshot, r.base, r.c.level);
    outputs := NameOutputs(compact.outputs, next, size);
  }

  ghost predicate Ready(r: Running) {
    && r.c.level + 1 < NUM_LEVELS && Sorted(r.input) && r.snapshot < MAX_SEQUENCE
    && forall l :: 1 <= l < NUM_LEVELS ==> Disjoint(r.base[l])
  }

  lemma FinishIsStep(st: State, st': State, outputs: seq<File>)
    requires st.running.Some? && Ready(st.running.value) && CutOfKept(st.running.value, outputs)
    requires forall i :: 0 <= i < |outputs| ==> outputs[i].number == st.nextFile + i
    requires forall f, g :: Holds(st.version, f) && g in outputs ==> f.number != g.number
    requires st.running.value.first <= st.nextFile
    requires Applied(st.version, InputNumbers(st.running.value.c), AtLevel(st.running.value.c.level + 1, outputs),
        st'.version)
    requires st' == st.(version := st'.version, nextFile := st.nextFile + |outputs|, running := None,
                        floor := if st.floor < st.running.value.snapshot then st.running.value.snapshot else st.floor)
    ensures FinishStep(st, st', outputs)
  {
  }

  /** AddInputDeletions. */
  function InputNumbersOf(c: Compaction): (r: set<(nat, nat)>)
    ensures r == InputNumbers(c)
  {
    (set f | f in c.in0 :: (c.level, f.number)) + (set f | f in c.in1 :: (c.level + 1, f.number))
  }

  /** The finished outputs as files with consecutive new numbers. */
  method NameOutputs(runs: seq<Run>, first: nat, size: nat) returns (files: seq<File>)
    requires Sorted(Concat(runs)) && forall k :: 0 <= k < |runs| ==> |runs[k]| > 0
    ensures Runs(files) == runs
    ensures forall i :: 0 <= i < |files| ==> files[i].number == first + i
  {
    files := [];
    for i := 0 to |runs|
      invariant |files| == i
      invariant forall k :: 0 <= k < i ==> files[k].run == runs[k] && files[k].number == first + k
    {
      PieceOfConcat(runs, runs[i]);
      files := files + [File(first + i, size, runs[i])];
    }
  }

  lemma LevelsAreInOrder(st: State)
    requires Inv(st)
    ensures LevelsInOrder(st.version)
  {
    assert Unfold(IN_ENGINE);
    forall l | 0 <= l < NUM_LEVELS ensures Coherent(Contents(st.version[l])) {
      assert Contents(st.version[l]) <= Tables(st.version);
      CoherentSubset(Contents(st.version[l]), st.flushed);
    }
  }

  lemma FlushReady(st: State)
    requires Inv(st) && st.imm.Some?
    ensures Sorted(st.imm.value) && NumbersOk(st.version, st.nextFile)
    ensures forall l :: 1 <= l < NUM_LEVELS ==> Disjoint(st.version[l])
  {
    assert Unfold(IN_ENGINE);
  }

  lemma NewNumberFits(v: Version, nextFile: nat, deleted: set<(nat, nat)>, level: nat, f: File)
    requires NumbersOk(v, nextFile) && f.number == nextFile && level < NUM_LEVELS && deleted == {}
    ensures FitsVersion(v, TablesEdit(deleted, [(level, f)]))
  {
    assert forall l, g :: 0 <= l < NUM_LEVELS && g in v[l] ==> Holds(v, g);
  }

  lemma MoveFits(st: State, c: Compaction, f: File)
    requires Inv(st) && SoundPick(st.version, c) && c.in0 == [f]
    ensures NumbersOk(st.version, st.nextFile)
    ensures FitsVersion(st.version, TablesEdit({(c.level, f.number)}, [(c.level + 1, f)]))
  {
    assert Unfold(IN_ENGINE);
    assert f in st.version[c.level] by { assert Unfold(IN_PICKS) && f in c.in0; }
    forall g | g in st.version[c.level + 1] ensures g.number != f.number {
      assert Holds(st.version, f) && Holds(st.version, g);
      if g.number == f.number {
        OneHome(st.version, c.level, f, c.level + 1, g, Smallest(f));
      }
    }
  }

  lemma VersionIsReady(st: State)
    requires Inv(st)
    ensures Recent(st.version) && NumbersOk(st.version, st.nextFile) && Coherent(Tables(st.version))
  {
    InvHasParts(st);
    CoherentSubset(Tables(st.version), st.flushed);
  }

  lemma InputIsReady(st: State, level: nat, chosen: File, limit: nat, c: Compaction)
    requires Inv(st) && Picked(st.version, level, chosen, limit, c)
    ensures Recent(st.version) && Coherent(Tables(st.version)) && c.level == level && level + 1 < NUM_LEVELS
    ensures InputsPresent(st.version, c) && NoFileTwice(c.in0) && NoFileTwice(c.in1)
  {
    VersionIsReady(st);
    PickIsReady(st.version, st.nextFile, level, chosen, limit, c);
  }

  lemma FinishReady(st: State)
    requires Inv(st) && st.running.Some?
    ensures Ready(st.running.value)
    ensures InputsPresent(st.version, st.running.value.c) && NumbersOk(st.version, st.nextFile)
  {
    assert Unfold(IN_ENGINE) && Unfold(IN_PICKS);
  }

  lemma OutputsFit(st: State, outputs: seq<File>)
    requires Inv(st) && st.running.Some? && st.running.value.c.level + 1 < NUM_LEVELS
    requires InputsPresent(st.version, st.running.value.c) && NumbersOk(st.version, st.nextFile)
    requires forall i :: 0 <= i < |outputs| ==> outputs[i].number == st.nextFile + i
    ensures FitsVersion(st.version,
        TablesEdit(InputNumbers(st.running.value.c), AtLevel(st.running.value.c.level + 1, outputs)))
    ensures forall f, g :: Holds(st.version, f) && g in outputs ==> f.number != g.number
  {
    var c := st.running.value.c;
    var e := TablesEdit(InputNumbers(c), AtLevel(c.level + 1, outputs));
    assert forall l, g :: 0 <= l < NUM_LEVELS && g in st.version[l] ==> Holds(st.version, g);
    forall p | p in e.added ensures p.0 == c.level + 1 && p.1 in outputs && (p.0, p.1.number) !in e.deleted {
      AtLevelHolds(c.level + 1, outputs, p.0, p.1);
      InputNumbersAt(c, p.0, p.1.number);
    }
  }
}
