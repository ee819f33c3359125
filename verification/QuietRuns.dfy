/** Runs in which compactions start without a snapshot to look after: then no user key ever lies in two files of one
    level below 0, and the hypothesis about file boundaries holds by itself (db/db_impl.cc, db/version_set.cc). */
module QuietRuns {
  import opened Wrappers
  import opened DbFormat
  import opened Versions
  import opened Picking
  import opened Compacting
  import opened Engine
  import opened EngineWrites
  import opened EngineCompact
  import opened EngineRuns
  import opened Boundary

  /** The user-key ranges of the files do not meet. */
  predicate Beside(f: File, g: File) {
    Hi(f) < Lo(g) || Hi(g) < Lo(f)
  }

  ghost predicate KeysApart(fs: seq<File>) {
    forall f, g :: f in fs && g in fs && f != g ==> Beside(f, g)
  }

  /** No user key lies in two files of one level below 0. */
  ghost predicate LevelsApart(v: Version) {
    forall l :: 1 <= l < NUM_LEVELS ==> KeysApart(v[l])
  }

  /** Every entry of the input is one that all readers may see. */
  ghost predicate Settled(r: Running) {
    LevelsApart(r.base) && UpTo(Entries(r.input), r.snapshot)
  }

  ghost predicate Quiet(st: State) {
    forall k {:trigger Unfold(k)} :: k == IN_QUIET && Unfold(k) ==>
      LevelsApart(st.version) && (st.running.Some? ==> Settled(st.running.value))
  }

  // ---------------------------------------------------------------------------------------------
  // The hypothesis holds
  // ---------------------------------------------------------------------------------------------

  lemma ApartEnds(fs: seq<File>, inputs: seq<File>)
    requires KeysApart(fs) && forall f :: f in inputs ==> f in fs
    ensures KeysEnd(fs, inputs)
  {
    forall f, g | f in inputs && g in fs && g !in inputs ensures Hi(f) != Lo(g) {
      assert Beside(f, g);
      RunBounds(f, Smallest(f));
      RunBounds(g, Smallest(g));
    }
  }

  lemma ApartStartIsClean(r: Running)
    requires Recent(r.base) && LevelsApart(r.base) && StartedWell(r)
    ensures BoundaryClean(r)
  {
    PickedFiles(r.base, r.c);
    ApartEnds(r.base[r.c.level + 1], r.c.in1);
    if r.c.level > 0 {
      ApartEnds(r.base[r.c.level], r.c.in0);
    }
    EndsAreEnough(r);
  }

  lemma ApartMoveIsClean(v: Version, c: Compaction)
    requires SoundPick(v, c) && LevelsApart(v)
    ensures MoveClean(v, c)
  {
    PickedFiles(v, c);
    if c.level > 0 {
      forall d, g, e | d in Contents(c.in0) && g in v[c.level] && g !in c.in0 && e in g.run ensures e.key != d.key {
        var f := EntryHome(c.in0, d);
        RunBounds(f, d);
        RunBounds(g, e);
        assert Beside(f, g);
      }
    }
  }

  /** What the store says about a state, for these proofs. */
  lemma TablesAreUpTo(st: State)
    requires Inv(st)
    ensures Recent(st.version) && NumbersOk(st.version, st.nextFile) && UpTo(Tables(st.version), st.lastSequence)
    ensures st.running.Some? ==> RunningOk(st.version, st.running.value)
  {
    InvHasParts(st);
  }

  /** Without a snapshot the smallest one is the last sequence number, which no entry exceeds. */
  lemma StartIsSettled(st: State, level: nat, chosen: File, limit: nat, r: Running)
    requires Inv(st) && LevelsApart(st.version) && Picked(st.version, level, chosen, limit, r.c)
    requires IsMergeOf(r.input, r.c) && r.base == st.version && r.snapshot == SmallestSnapshot(st)
    requires st.snapshots == [] || UpTo(Entries(r.input), r.snapshot)
    ensures Settled(r) && BoundaryClean(r)
  {
    TablesAreUpTo(st);
    PickIsSound(st.version, level, chosen, limit, r.c);
    SoundStartIsRunning(st.version, r);
    InputIsInTables(st.version, r);
    ApartStartIsClean(r);
  }

  // ---------------------------------------------------------------------------------------------
  // Every step keeps files apart
  // ---------------------------------------------------------------------------------------------

  lemma FlushKeepsApart(v: Version, level: nat, f: File, v': Version)
    requires LevelsApart(v) && Placed(v, level, f) && Applied(v, {}, [(level, f)], v')
    ensures LevelsApart(v')
  {
    forall l, g, h | 1 <= l < NUM_LEVELS && g in v'[l] && h in v'[l] && g != h ensures Beside(g, h) {
      AppliedFiles(v, v', level, f, l, g);
      AppliedFiles(v, v', level, f, l, h);
      if g == f {
        assert !Meets(h, Lo(f), Hi(f));
      } else if h == f {
        assert !Meets(g, Lo(f), Hi(f));
      } else {
        assert KeysApart(v[l]);
      }
    }
  }

  /** A key has at most one entry in the output. */
  lemma KeptOnce(input: Run, snapshot: SeqNo, v: Version, level: nat, x: Entry, y: Entry)
    requires Sorted(input) && UpTo(Entries(input), snapshot)
    requires x in Kept(input, |input|, snapshot, v, level) && y in Kept(input, |input|, snapshot, v, level)
    requires x.key == y.key
    ensures x == y
  {
    KeptIsTheRest(input, |input|, snapshot, v, level);
    var i :| 0 <= i < |input| && input[i] == x && !Dropped(input, i, snapshot, v, level);
    var j :| 0 <= j < |input| && input[j] == y && !Dropped(input, j, snapshot, v, level);
    if i < j {
      NeighbourHides(input, i, j, snapshot);
    } else if j < i {
      NeighbourHides(input, j, i, snapshot);
    }
  }

  lemma NeighbourHides(input: Run, i: nat, j: nat, snapshot: SeqNo)
    requires Sorted(input) && UpTo(Entries(input), snapshot) && i < j < |input| && input[i].key == input[j].key
    ensures Hidden(input, j, snapshot)
  {
    assert input[j - 1] in Entries(input);
    assert i == j - 1 || Before(input[i], input[j - 1]);
    assert Before(input[j - 1], input[j]);
  }

  lemma OutputsApart(r: Running, outputs: seq<File>)
    requires Sorted(r.input) && CutOfKept(r, outputs) && UpTo(Entries(r.input), r.snapshot)
    ensures KeysApart(outputs)
  {
    OutputsFromInput(outputs, r);
    DisjointIsApart(outputs);
    forall f, g | f in outputs && g in outputs && f != g ensures Beside(f, g) {
      if Before(Largest(f), Smallest(g)) {
        NoSharedEnd(r, outputs, f, g);
      } else {
        NoSharedEnd(r, outputs, g, f);
      }
    }
  }

  lemma NoSharedEnd(r: Running, outputs: seq<File>, f: File, g: File)
    requires Sorted(r.input) && UpTo(Entries(r.input), r.snapshot) && f in outputs && g in outputs
    requires Contents(outputs) == Entries(Kept(r.input, |r.input|, r.snapshot, r.base, r.c.level))
    requires Before(Largest(f), Smallest(g))
    ensures Hi(f) < Lo(g)
  {
    FileEntryInContents(outputs, f, Largest(f));
    FileEntryInContents(outputs, g, Smallest(g));
    if Hi(f) == Lo(g) {
      KeptOnce(r.input, r.snapshot, r.base, r.c.level, Largest(f), Smallest(g));
    }
  }

  /** All keys of the input lie on one side of g. */
  ghost predicate ClearOf(g: File, input: Run) {
    (forall x :: x in input ==> Hi(g) < x.key) || (forall x :: x in input ==> x.key < Lo(g))
  }

  /** A file beside the first inputs is beside the second inputs, too. */
  lemma UnmetIsClear(r: Running, g: File)
    requires StartedWell(r) && LevelsApart(r.base) && g in r.base[r.c.level + 1] && g !in r.c.in1
    ensures ClearOf(g, r.input)
  {
    assert Unfold(IN_PICKS);
    RunBounds(g, Smallest(g));
    assert !Meets(g, MinLo(r.c.in0), MaxHi(r.c.in0));
    forall x | x in r.input
      ensures if Hi(g) < MinLo(r.c.in0) then Hi(g) < x.key else x.key < Lo(g)
    {
      var f := InputFile(r, x);
      RunBounds(f, x);
      if f in r.c.in1 {
        assert Beside(f, g) by { assert KeysApart(r.base[r.c.level + 1]); }
      }
    }
  }

  lemma AvoidingIsClear(r: Running, g: File)
    requires IsMergeOf(r.input, r.c) && Avoids(g, r.c)
    ensures ClearOf(g, r.input)
  {
    forall x | x in r.input ensures exists f :: f in r.c.in0 + r.c.in1 && Lo(f) <= x.key <= Hi(f) {
      var f := InputFile(r, x);
      RunBounds(f, x);
      assert f in r.c.in0 + r.c.in1;
    }
  }

  lemma StaysClear(v: Version, r: Running, g: File)
    requires RunningOk(v, r) && LevelsApart(r.base) && Stays(v, r.c, r.c.level + 1, g)
    ensures ClearOf(g, r.input)
  {
    assert Unfold(IN_PICKS);
    if g in r.base[r.c.level + 1] {
      UnmetIsClear(r, g);
    } else {
      AvoidingIsClear(r, g);
    }
  }

  lemma OutputIsClear(v: Version, r: Running, outputs: seq<File>, g: File, o: File)
    requires RunningOk(v, r) && LevelsApart(r.base) && Stays(v, r.c, r.c.level + 1, g)
    requires FromInput(outputs, r.input) && o in outputs
    ensures Beside(g, o)
  {
    StaysClear(v, r, g);
    assert Smallest(o) in r.input && Largest(o) in r.input;
  }

  lemma FinishKeepsApart(v: Version, r: Running, outputs: seq<File>, v': Version)
    requires LevelsApart(v) && RunningOk(v, r) && Settled(r) && After(v, r.c, outputs, v') && CutOfKept(r, outputs)
    ensures LevelsApart(v')
  {
    RunningParts(v, r);
    OutputsFromInput(outputs, r);
    OutputsApart(r, outputs);
    forall l, g, h | 1 <= l < NUM_LEVELS && g in v'[l] && h in v'[l] && g != h ensures Beside(g, h) {
      if Stays(v, r.c, l, g) && Stays(v, r.c, l, h) {
        assert KeysApart(v[l]);
      } else if Stays(v, r.c, l, g) {
        OutputIsClear(v, r, outputs, g, h);
      } else if Stays(v, r.c, l, h) {
        OutputIsClear(v, r, outputs, h, g);
      }
    }
  }

  lemma MoveKeepsApart(v: Version, c: Compaction, v': Version, nextFile: nat)
    requires LevelsApart(v) && SoundPick(v, c) && NumbersOk(v, nextFile) && |c.in0| == 1 && c.in1 == []
    requires Applied(v, {(c.level, c.in0[0].number)}, [(c.level + 1, c.in0[0])], v')
    ensures LevelsApart(v')
  {
    var f := c.in0[0];
    assert c.in0 == [f] && f in c.in0;
    PickedFiles(v, c);
    MovedIsAfter(v, c, f, v', nextFile);
    SingleRange(f);
    assert Unfold(IN_PICKS);
    forall l, g, h | 1 <= l < NUM_LEVELS && g in v'[l] && h in v'[l] && g != h ensures Beside(g, h) {
      if Stays(v, c, l, g) && Stays(v, c, l, h) {
        assert KeysApart(v[l]);
      } else if Stays(v, c, l, g) {
        assert h == f && !Meets(g, Lo(f), Hi(f));
      } else {
        assert g == f && !Meets(h, Lo(f), Hi(f));
      }
    }
  }

  // ---------------------------------------------------------------------------------------------
  // Whole runs
  // ---------------------------------------------------------------------------------------------

  /** A step of the program, with no snapshot held when a compaction starts, or none that is older than its input. */
  ghost predicate QuietStep(st: State, step: Step, st': State) {
    && Next(st, step, st')
    && (step.Start? ==> st.snapshots == [] || UpTo(Entries(step.r.input), step.r.snapshot))
  }

  ghost predicate IsQuietRun(states: seq<State>, steps: seq<Step>) {
    && |states| == |steps| + 1 && Initial(states[0])
    && forall k {:trigger Unfold(k)} :: k == IN_STEPS && Unfold(k) ==>
        forall i :: 0 <= i < |steps| ==> QuietStep(states[i], steps[i], states[i + 1])
  }

  lemma QuietFlush(st: State, st': State, size: nat, maxBytes: nat, level: nat)
    requires Inv(st) && Quiet(st) && FlushStep(st, st', size, maxBytes, level)
    ensures Quiet(st')
  {
    assert Unfold(IN_QUIET);
    InvHasParts(st);
    if st.imm.value != [] {
      var f: File := File(st.nextFile, size, st.imm.value);
      FlushIsPlaced(st.version, st.nextFile, st.flushed, f, maxBytes, level);
      FlushKeepsApart(st.version, level, f, st'.version);
    }
  }

  lemma QuietStart(st: State, st': State, level: nat, chosen: File, limit: nat, r: Running)
    requires Inv(st) && Quiet(st) && StartStep(st, st', level, chosen, limit, r)
    requires st.snapshots == [] || UpTo(Entries(r.input), r.snapshot)
    ensures Quiet(st') && BoundaryClean(r)
  {
    assert Unfold(IN_QUIET);
    StartIsSettled(st, level, chosen, limit, r);
  }

  lemma QuietFinish(st: State, st': State, outputs: seq<File>)
    requires Inv(st) && Quiet(st) && FinishStep(st, st', outputs)
    ensures Quiet(st')
  {
    assert Unfold(IN_QUIET) && Unfold(IN_FINISH);
    TablesAreUpTo(st);
    var r := st.running.value;
    FinishedIsAfter(st.version, st.nextFile, r, outputs, st'.version);
    FinishKeepsApart(st.version, r, outputs, st'.version);
  }

  lemma QuietMove(st: State, st': State, level: nat, chosen: File, limit: nat, maxBytes: nat, c: Compaction)
    requires Inv(st) && Quiet(st) && MoveStep(st, st', level, chosen, limit, maxBytes, c)
    ensures Quiet(st') && MoveClean(st.version, c)
  {
    assert Unfold(IN_QUIET);
    TablesAreUpTo(st);
    PickIsSound(st.version, level, chosen, limit, c);
    ApartMoveIsClean(st.version, c);
    MoveKeepsApart(st.version, c, st'.version, st.nextFile);
  }

  lemma QuietStepIsClean(st: State, step: Step, st': State)
    requires Inv(st) && Quiet(st) && QuietStep(st, step, st')
    ensures Quiet(st') && CleanStep(st, step, st')
  {
    match step
    case Flush(size, maxBytes, level) => QuietFlush(st, st', size, maxBytes, level);
    case Start(level, chosen, limit, r) => QuietStart(st, st', level, chosen, limit, r);
    case Finish(outputs) => QuietFinish(st, st', outputs);
    case Move(level, chosen, limit, maxBytes, c) => QuietMove(st, st', level, chosen, limit, maxBytes, c);
    case _ => assert Unfold(IN_QUIET);
  }

  lemma InitialIsQuiet(st: State)
    requires Initial(st)
    ensures Quiet(st)
  {
    assert forall l :: 0 <= l < NUM_LEVELS ==> EMPTY_VERSION[l] == [];
  }

  /** Whatever was written, flushed, compacted and moved: no user key lies in two files of a level below 0, and the run
      is one that the main theorems allow. */
  lemma {:induction false} QuietRunIsRun(states: seq<State>, steps: seq<Step>, n: nat)
    requires IsQuietRun(states, steps) && n <= |steps|
    ensures IsRun(states[..n + 1], steps[..n]) && Inv(states[n]) && LevelsApart(states[n].version) && Quiet(states[n])
  {
    assert Unfold(IN_STEPS) && Unfold(IN_QUIET);
    if n == 0 {
      InitialInv(states[0]);
      InitialIsQuiet(states[0]);
    } else {
      QuietRunIsRun(states, steps, n - 1);
      QuietStepIsClean(states[n - 1], steps[n - 1], states[n]);
      NextKeepsInv(states[n - 1], steps[n - 1], states[n]);
      RunGrows(states, steps, n);
    }
  }

  lemma RunGrows(states: seq<State>, steps: seq<Step>, n: nat)
    requires |states| == |steps| + 1 && 0 < n <= |steps| && IsRun(states[..n], steps[..n - 1])
    requires CleanStep(states[n - 1], steps[n - 1], states[n])
    ensures IsRun(states[..n + 1], steps[..n])
  {
    forall i | 0 <= i < n ensures CleanStep(states[..n + 1][i], steps[..n][i], states[..n + 1][i + 1]) {
      if i < n - 1 {
        assert CleanStep(states[..n][i], steps[..n - 1][i], states[..n][i + 1]);
      }
    }
  }

  /** Then Get answers like the multi-version map, with no hypothesis about picks. */
  lemma QuietGetReadsMap(states: seq<State>, steps: seq<Step>, u: UserKey, s: SeqNo)
    requires IsQuietRun(states, steps)
    requires var st := states[|steps|]; s in st.snapshots || s == st.lastSequence
    ensures |OpsOf(steps, |steps|)| < MAX_SEQUENCE
    ensures Answer(Lookup(states[|steps|], u, s)) == Read(MultiVersionMap(OpsOf(steps, |steps|)), u, s)
  {
    QuietRunIsRun(states, steps, |steps|);
    assert states[..|steps| + 1] == states && steps[..|steps|] == steps;
    GetReadsMap(states, steps, |steps|, u, s);
  }
}
