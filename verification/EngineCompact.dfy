/** Compactions and trivial moves keep the invariant (db/db_impl.cc, db/version_set.cc). */
module EngineCompact {
  import opened Wrappers
  import opened DbFormat
  import opened Versions
  import opened Picking
  import opened Compacting
  import opened Edits
  import opened Engine
  import opened EngineWrites

  // ---------------------------------------------------------------------------------------------
  // Starting
  // ---------------------------------------------------------------------------------------------

  /** A compaction may drop what no snapshot that is held, and no later reader, can see: its snapshot is the least of
      those that are held, and the last sequence number if none is. */
  lemma SmallestIsLeast(st: State)
    requires Inv(st)
    ensures var s := SmallestSnapshot(st);
      && s <= st.lastSequence && (forall t :: t in st.snapshots ==> s <= t)
      && (s in st.snapshots || (st.snapshots == [] && s == st.lastSequence))
  {
    assert Unfold(IN_ENGINE);
    assert SnapshotsOk(st.snapshots, st.floor, st.lastSequence, st.running);
  }

  lemma SmallestSnapshotFits(snapshots: seq<SeqNo>, floor: nat, lastSequence: SeqNo, r: Running)
    requires SnapshotsOk(snapshots, floor, lastSequence, None)
    requires r.snapshot == if snapshots == [] then lastSequence else snapshots[0]
    ensures SnapshotsOk(snapshots, floor, lastSequence, Some(r))
  {
  }

  lemma StartIsRunning(v: Version, level: nat, chosen: File, limit: nat, r: Running)
    requires Picked(v, level, chosen, limit, r.c) && IsMergeOf(r.input, r.c) && r.base == v && LevelsDisjoint(v)
    ensures RunningOk(v, r)
  {
    PickIsSound(v, level, chosen, limit, r.c);
    SoundStartIsRunning(v, r);
  }

  lemma SoundStartIsRunning(v: Version, r: Running)
    requires SoundPick(v, r.c) && IsMergeOf(r.input, r.c) && r.base == v && LevelsDisjoint(v)
    ensures RunningOk(v, r)
  {
    assert InputsPresent(v, r.c) by { assert Unfold(IN_PICKS); }
  }

  lemma StartKeepsInv(st: State, st': State, level: nat, chosen: File, limit: nat, r: Running)
    requires Inv(st) && StartStep(st, st', level, chosen, limit, r) && BoundaryClean(r)
    ensures Inv(st') && History(st') == History(st)
  {
    assert Unfold(IN_ENGINE);
    StartIsRunning(st.version, level, chosen, limit, r);
    SmallestSnapshotFits(st.snapshots, st.floor, st.lastSequence, r);
  }

  // ---------------------------------------------------------------------------------------------
  // Files that stay
  // ---------------------------------------------------------------------------------------------

  /** g stays at level l when the compaction's inputs are deleted. */
  ghost predicate Stays(v: Version, c: Compaction, l: nat, g: File) {
    l < NUM_LEVELS && g in v[l] && !(l == c.level && g in c.in0) && !(l == c.level + 1 && g in c.in1)
  }

  lemma OneHomeInLevel(v: Version, l: nat, f: File, g: File, e: Entry)
    requires Recent(v) && l < NUM_LEVELS && f in v[l] && g in v[l] && e in f.run && e in g.run
    ensures f == g
  {
    if l == 0 {
      assert e in Entries(f.run) && e in Entries(g.run);
      assert f != g ==> Newer(Entries(f.run), Entries(g.run)) || Newer(Entries(g.run), Entries(f.run));
    } else {
      DisjointIsApart(v[l]);
      RunBounds(f, e);
      RunBounds(g, e);
    }
  }

  /** An entry lies in one file of one level. */
  lemma OneHome(v: Version, l: nat, f: File, m: nat, g: File, e: Entry)
    requires Recent(v) && l < NUM_LEVELS && m < NUM_LEVELS && f in v[l] && g in v[m] && e in f.run && e in g.run
    ensures l == m && f == g
  {
    assert e in Contents(v[l]) && e in Contents(v[m]);
    assert l < m ==> Newer(Contents(v[l]), Contents(v[m]));
    assert m < l ==> Newer(Contents(v[m]), Contents(v[l]));
    assert l == m;
    OneHomeInLevel(v, l, f, g, e);
  }

  /** At level 0 the files that stay share no key with the first inputs. */
  lemma LevelZeroIsApart(r: Running, f: File, g: File, d: Entry, e: Entry)
    requires StartedWell(r) && r.c.level == 0 && g in r.base[0] && g !in r.c.in0 && f in r.c.in0 && d in f.run
        && e in g.run
    ensures d.key != e.key
  {
    assert Unfold(IN_PICKS);
    RunBounds(f, d);
    RunBounds(g, e);
    assert g !in r.c.in0 ==> !Meets(g, MinLo(r.c.in0), MaxHi(r.c.in0));
  }

  lemma HigherIsNewer(v: Version, l: nat, g: File, e: Entry, m: nat, f: File, d: Entry)
    requires Recent(v) && l < m < NUM_LEVELS && g in v[l] && e in g.run && f in v[m] && d in f.run && d.key == e.key
    ensures e.sn > d.sn
  {
    assert d in Contents(v[m]) && e in Contents(v[l]);
  }

  /** A file flushed since the start is newer. */
  lemma FlushedSinceIsNewer(v: Version, r: Running, l: nat, g: File)
    requires RunningOk(v, r) && l < NUM_LEVELS && g in v[l] && g !in r.base[l]
    ensures LaterThan(g, r.input)
  {
    assert Unfold(IN_PICKS);
  }

  /** An entry d of the input comes from a file of one of the two input levels. */
  lemma InputHome(v: Version, r: Running, d: Entry)
    requires RunningOk(v, r) && d in r.input
    ensures (exists f :: f in r.c.in0 && d in f.run) || (exists f :: f in r.c.in1 && d in f.run)
  {
    RunningParts(v, r);
    assert d in Entries(r.input);
  }

  /** The hypothesis about the first version goes on holding: files flushed since are newer. */
  lemma NoneContinuedSince(v: Version, r: Running, l: nat, inputs: seq<File>, D: set<Entry>)
    requires RunningOk(v, r) && l < NUM_LEVELS && D <= Entries(r.input) && NoneContinued(r.base[l], inputs, D)
    ensures NoneContinued(v[l], inputs, D)
  {
    forall d, g, e | d in D && g in v[l] && g !in inputs && e in g.run && e.key == d.key ensures e.sn > d.sn {
      if g in r.base[l] {
        assert !Continued(r.base[l], inputs, d);
      } else {
        FlushedSinceIsNewer(v, r, l, g);
      }
    }
  }

  /** Nothing that a compaction writes or lets go is continued by a file it leaves behind. */
  ghost predicate CleanNow(v: Version, r: Running, D: set<Entry>) {
    r.c.level + 1 < NUM_LEVELS && (r.c.level > 0 ==> NoneContinued(v[r.c.level], r.c.in0, D))
  }

  lemma StaysAtLevelZeroIsNewer(v: Version, r: Running, g: File, d: Entry, e: Entry)
    requires Recent(v) && RunningOk(v, r) && r.c.level == 0 && Stays(v, r.c, 0, g) && d in r.input && e in g.run
        && d.key == e.key
    ensures e.sn > d.sn
  {
    RunningParts(v, r);
    InputHome(v, r, d);
    if g !in r.base[0] {
      FlushedSinceIsNewer(v, r, 0, g);
    } else if f :| f in r.c.in0 && d in f.run {
      assert StartedWell(r) by { assert Unfold(IN_PICKS); }
      LevelZeroIsApart(r, f, g, d, e);
    } else {
      var f :| f in r.c.in1 && d in f.run;
      HigherIsNewer(v, 0, g, e, 1, f, d);
    }
  }

  /** Whatever stays at or above the compaction's level is newer, key by key, than what the compaction writes. */
  lemma StaysIsNewer(v: Version, r: Running, D: set<Entry>, l: nat, g: File, d: Entry, e: Entry)
    requires Recent(v) && RunningOk(v, r) && CleanNow(v, r, D) && Stays(v, r.c, l, g) && l <= r.c.level
    requires d in D && d in r.input && e in g.run && d.key == e.key
    ensures e.sn > d.sn
  {
    if l < r.c.level {
      var m, f := InputPlace(v, r, d);
      HigherIsNewer(v, l, g, e, m, f, d);
    } else if l == 0 {
      StaysAtLevelZeroIsNewer(v, r, g, d, e);
    } else {
      assert !Continued(v[l], r.c.in0, d);
    }
  }

  lemma EntryOutsideStays(v: Version, r: Running, l: nat, g: File, e: Entry)
    requires RunningOk(v, r) && l < NUM_LEVELS && g in v[l] && e in g.run && e !in r.input
    ensures Stays(v, r.c, l, g)
  {
    RunningParts(v, r);
    assert e !in Entries(r.input);
  }

  /** Entries of the key of a dropped tombstone that are not in the input are newer. */
  lemma NotUnder(v: Version, r: Running, D: set<Entry>, l: nat, g: File, d: Entry, e: Entry)
    requires Recent(v) && RunningOk(v, r) && CleanNow(v, r, D) && NoneContinued(v[r.c.level + 1], r.c.in1, D)
    requires l < NUM_LEVELS && g in v[l] && e in g.run && e !in r.input
    requires d in D && d in r.input && BaseLevel(r.base, r.c.level, d.key) && e.key == d.key
    ensures e.sn > d.sn
  {
    EntryOutsideStays(v, r, l, g, e);
    if l <= r.c.level {
      StaysIsNewer(v, r, D, l, g, d, e);
    } else if l == r.c.level + 1 {
      assert !Continued(v[l], r.c.in1, d);
    } else {
      RunBounds(g, e);
      assert InRange(g, d.key);
      assert g !in r.base[l];
      FlushedSinceIsNewer(v, r, l, g);
    }
  }

  /** A tombstone that readers find is not hidden. */
  lemma RevealerIsDropped(input: Run, snapshot: SeqNo, v: Version, level: nat, E: set<Entry>, t: Entry)
    requires Sorted(input) && Entries(input) <= E && Reveals(t, input, snapshot, v, level, E)
    ensures t in DroppedTombstones(input, snapshot, v, level)
  {
    var i :| 0 <= i < |input| && input[i] == t;
    if Hidden(input, i, snapshot) {
      assert Before(input[i - 1], input[i]) && VisibleIn(E, t.key, snapshot, input[i - 1]);
      assert false;
    }
  }

  /** Nothing comes out from under the tombstones that a compaction drops. */
  lemma NothingUnder(v: Version, r: Running)
    requires Recent(v) && RunningOk(v, r) && BoundaryClean(r)
    ensures NothingRevealed(r.input, r.snapshot, r.base, r.c.level, Tables(v))
  {
    var gone := DroppedTombstones(r.input, r.snapshot, r.base, r.c.level);
    TombstonesAreClean(v, r);
    InputIsInTables(v, r);
    forall t ensures !Reveals(t, r.input, r.snapshot, r.base, r.c.level, Tables(v)) {
      if Reveals(t, r.input, r.snapshot, r.base, r.c.level, Tables(v)) {
        RevealerIsDropped(r.input, r.snapshot, r.base, r.c.level, Tables(v), t);
        var x := Latest(Tables(v) - Entries(r.input), t.key, r.snapshot).value;
        var l :| 0 <= l < NUM_LEVELS && x in Contents(v[l]);
        var g :| g in v[l] && x in g.run;
        NotUnder(v, r, gone, l, g, t, x);
        assert VisibleIn(Tables(v), t.key, r.snapshot, x);
        assert false;
      }
    }
  }

  lemma TombstonesAreClean(v: Version, r: Running)
    requires RunningOk(v, r) && BoundaryClean(r)
    ensures var gone := DroppedTombstones(r.input, r.snapshot, r.base, r.c.level);
      gone <= Entries(r.input) && CleanNow(v, r, gone) && NoneContinued(v[r.c.level + 1], r.c.in1, gone)
  {
    assert Unfold(IN_PICKS);
    var gone := DroppedTombstones(r.input, r.snapshot, r.base, r.c.level);
    NoneContinuedSince(v, r, r.c.level + 1, r.c.in1, gone);
    if r.c.level > 0 {
      NoneContinuedSince(v, r, r.c.level, r.c.in0, gone);
    }
  }

  lemma OutputsAreClean(v: Version, r: Running)
    requires RunningOk(v, r) && BoundaryClean(r)
    ensures CleanNow(v, r, Entries(Kept(r.input, |r.input|, r.snapshot, r.base, r.c.level)))
  {
    assert Unfold(IN_PICKS);
    RunningParts(v, r);
    var kept := Entries(Kept(r.input, |r.input|, r.snapshot, r.base, r.c.level));
    KeptIsTheRest(r.input, |r.input|, r.snapshot, r.base, r.c.level);
    if r.c.level > 0 {
      NoneContinuedSince(v, r, r.c.level, r.c.in0, kept);
    }
  }

  // ---------------------------------------------------------------------------------------------
  // The version after the results are installed
  // ---------------------------------------------------------------------------------------------

  /** v' is v without the inputs and with the outputs at the level below. */
  ghost predicate After(v: Version, c: Compaction, outputs: seq<File>, v': Version) {
    && c.level + 1 < NUM_LEVELS
    && (forall l, g :: 0 <= l < NUM_LEVELS ==>
        (g in v'[l] <==> Stays(v, c, l, g) || (l == c.level + 1 && g in outputs)))
    && (forall l :: 0 <= l < NUM_LEVELS ==> InFileOrder(v'[l]))
  }

  lemma InputNumbersAt(c: Compaction, l: nat, n: nat)
    ensures (l, n) in InputNumbers(c) <==>
      || (l == c.level && exists f :: f in c.in0 && f.number == n)
      || (l == c.level + 1 && exists f :: f in c.in1 && f.number == n)
  {
  }

  lemma AtLevelHolds(level: nat, fs: seq<File>, l: nat, g: File)
    ensures (l, g) in AtLevel(level, fs) <==> l == level && g in fs
  {
    var s := AtLevel(level, fs);
    if l == level && g in fs {
      var i :| 0 <= i < |fs| && fs[i] == g;
      assert s[i] == (l, g);
    }
  }

  /** Deleting by number removes exactly the inputs. */
  lemma InstalledIsAfter(v: Version, c: Compaction, outputs: seq<File>, v': Version, nextFile: nat)
    requires c.level + 1 < NUM_LEVELS && NumbersOk(v, nextFile) && InputsPresent(v, c)
    requires forall f, g :: Holds(v, f) && g in outputs ==> f.number != g.number
    requires Applied(v, InputNumbers(c), AtLevel(c.level + 1, outputs), v')
    ensures After(v, c, outputs, v')
  {
    forall l, g | 0 <= l < NUM_LEVELS
      ensures g in v'[l] <==> Stays(v, c, l, g) || (l == c.level + 1 && g in outputs)
    {
      AtLevelHolds(c.level + 1, outputs, l, g);
      InputNumbersAt(c, l, g.number);
      assert g in v[l] ==> Holds(v, g);
      assert forall f :: f in c.in0 || f in c.in1 ==> Holds(v, f);
    }
  }

  ghost predicate FromInput(outputs: seq<File>, input: Run) {
    forall f, e :: f in outputs && e in f.run ==> e in input
  }

  lemma EntryHome(fs: seq<File>, e: Entry) returns (f: File)
    requires e in Contents(fs)
    ensures f in fs && e in f.run
  {
    f :| f in fs && e in f.run;
  }

  lemma RunningParts(v: Version, r: Running)
    requires RunningOk(v, r)
    ensures r.c.level + 1 < NUM_LEVELS && InputsPresent(v, r.c) && IsMergeOf(r.input, r.c)
  {
    assert Unfold(IN_PICKS);
  }

  /** An input entry lies at one of the two input levels of the version. */
  lemma InputPlace(v: Version, r: Running, d: Entry) returns (l: nat, f: File)
    requires RunningOk(v, r) && d in r.input
    ensures r.c.level <= l <= r.c.level + 1 && l < NUM_LEVELS && f in v[l] && d in f.run && !Stays(v, r.c, l, f)
  {
    RunningParts(v, r);
    InputHome(v, r, d);
    if g :| g in r.c.in0 && d in g.run {
      l, f := r.c.level, g;
    } else {
      l := r.c.level + 1;
      f :| f in r.c.in1 && d in f.run;
    }
  }

  lemma AfterNewer(v: Version, r: Running, outputs: seq<File>, v': Version, i: nat, j: nat)
    requires Recent(v) && RunningOk(v, r) && After(v, r.c, outputs, v') && FromInput(outputs, r.input)
        && i < j < NUM_LEVELS
    requires CleanNow(v, r, Contents(outputs))
    ensures Newer(Contents(v'[i]), Contents(v'[j]))
  {
    forall e, d | e in Contents(v'[i]) && d in Contents(v'[j]) && e.key == d.key ensures e.sn > d.sn {
      var g := EntryHome(v'[i], e);
      var h := EntryHome(v'[j], d);
      if !Stays(v, r.c, i, g) {
        var l, f := InputPlace(v, r, e);
        assert Stays(v, r.c, j, h);
        HigherIsNewer(v, l, f, e, j, h, d);
      } else if !Stays(v, r.c, j, h) {
        assert h in outputs && d in Contents(outputs);
        StaysIsNewer(v, r, Contents(outputs), i, g, d, e);
      } else {
        HigherIsNewer(v, i, g, e, j, h, d);
      }
    }
  }

  /** What stays at the output level lies wholly before or wholly after the input. */
  lemma StaysBeside(v: Version, r: Running, g: File)
    requires RunningOk(v, r) && Stays(v, r.c, r.c.level + 1, g)
    ensures (forall x :: x in r.input ==> Before(Largest(g), x))
        || (forall x :: x in r.input ==> Before(x, Smallest(g)))
  {
    assert Unfold(IN_PICKS);
    if g !in r.base[r.c.level + 1] {
      AvoidsBeside(r, g);
    } else if Hi(g) < MinLo(r.c.in0) {
      UnmetBefore(r, g);
    } else {
      UnmetAfter(r, g);
    }
  }

  lemma AvoidsBeside(r: Running, g: File)
    requires IsMergeOf(r.input, r.c) && Avoids(g, r.c)
    ensures (forall x :: x in r.input ==> Before(Largest(g), x))
        || (forall x :: x in r.input ==> Before(x, Smallest(g)))
  {
    forall x | x in r.input
      ensures exists f :: f in r.c.in0 + r.c.in1 && Lo(f) <= x.key <= Hi(f)
    {
      assert x in Entries(r.input);
      var f :| f in r.c.in0 + r.c.in1 && x in f.run;
      RunBounds(f, x);
    }
  }

  lemma UnmetBefore(r: Running, g: File)
    requires StartedWell(r) && g in r.base[r.c.level + 1] && g !in r.c.in1 && Hi(g) < MinLo(r.c.in0)
    ensures forall x :: x in r.input ==> Before(Largest(g), x)
  {
    assert Unfold(IN_PICKS);
    DisjointIsApart(r.base[r.c.level + 1]);
    RunBounds(g, Smallest(g));
    forall x | x in r.input ensures Before(Largest(g), x) {
      assert x in Entries(r.input);
      var f :| f in r.c.in0 + r.c.in1 && x in f.run;
      RunBounds(f, x);
    }
  }

  lemma UnmetAfter(r: Running, g: File)
    requires StartedWell(r) && g in r.base[r.c.level + 1] && g !in r.c.in1 && Lo(g) > MaxHi(r.c.in0)
    ensures forall x :: x in r.input ==> Before(x, Smallest(g))
  {
    assert Unfold(IN_PICKS);
    DisjointIsApart(r.base[r.c.level + 1]);
    RunBounds(g, Smallest(g));
    forall x | x in r.input ensures Before(x, Smallest(g)) {
      assert x in Entries(r.input);
      var f :| f in r.c.in0 + r.c.in1 && x in f.run;
      RunBounds(f, x);
    }
  }

  lemma OutputsFromInput(outputs: seq<File>, r: Running)
    requires Sorted(r.input) && CutOfKept(r, outputs)
    ensures FromInput(outputs, r.input) && Disjoint(outputs)
    ensures Contents(outputs) == Entries(Kept(r.input, |r.input|, r.snapshot, r.base, r.c.level))
  {
    assert Unfold(IN_OUTPUTS);
    var runs := Runs(outputs);
    KeptIsTheRest(r.input, |r.input|, r.snapshot, r.base, r.c.level);
    PiecesInOrder(runs);
    assert forall i :: 0 <= i < |outputs| ==> runs[i] == outputs[i].run;
    forall e ensures e in Contents(outputs) <==> e in Concat(runs) {
      ConcatHolds(runs, e);
      if f :| f in outputs && e in f.run {
        var i :| 0 <= i < |outputs| && outputs[i] == f;
        assert runs[i] in runs;
      }
    }
    forall f, e | f in outputs && e in f.run ensures e in r.input {
      assert e in Contents(outputs);
    }
  }

  lemma OutputBeside(v: Version, r: Running, outputs: seq<File>, g: File, o: File)
    requires RunningOk(v, r) && Stays(v, r.c, r.c.level + 1, g) && FromInput(outputs, r.input) && o in outputs
    ensures Before(Largest(g), Smallest(o)) || Before(Largest(o), Smallest(g))
  {
    StaysBeside(v, r, g);
    assert Smallest(o) in r.input && Largest(o) in r.input;
  }

  /** The output level stays disjoint, however the outputs were cut. */
  lemma AfterDisjoint(v: Version, r: Running, outputs: seq<File>, v': Version, l: nat)
    requires Recent(v) && RunningOk(v, r) && After(v, r.c, outputs, v') && FromInput(outputs, r.input)
        && Disjoint(outputs)
    requires 1 <= l < NUM_LEVELS
    ensures Disjoint(v'[l])
  {
    DisjointIsApart(v[l]);
    DisjointIsApart(outputs);
    forall g, h | g in v'[l] && h in v'[l] && g != h
      ensures Before(Largest(g), Smallest(h)) || Before(Largest(h), Smallest(g))
    {
      if Stays(v, r.c, l, g) && Stays(v, r.c, l, h) {
      } else if Stays(v, r.c, l, g) {
        OutputBeside(v, r, outputs, g, h);
      } else if Stays(v, r.c, l, h) {
        OutputBeside(v, r, outputs, h, g);
      }
    }
    ApartInOrderIsDisjoint(v'[l]);
  }

  lemma AfterRecent(v: Version, r: Running, outputs: seq<File>, v': Version)
    requires Recent(v) && RunningOk(v, r) && After(v, r.c, outputs, v') && FromInput(outputs, r.input)
        && Disjoint(outputs)
    requires CleanNow(v, r, Contents(outputs))
    ensures Recent(v')
  {
    forall l | 1 <= l < NUM_LEVELS ensures Disjoint(v'[l]) {
      AfterDisjoint(v, r, outputs, v', l);
    }
    forall i, j | 0 <= i < j < NUM_LEVELS ensures Newer(Contents(v'[i]), Contents(v'[j])) {
      AfterNewer(v, r, outputs, v', i, j);
    }
    AfterLevel0(v, r.c, outputs, v');
  }

  lemma AfterLevel0(v: Version, c: Compaction, outputs: seq<File>, v': Version)
    requires Recent(v) && After(v, c, outputs, v')
    ensures NumberedByAge(v'[0])
  {
    forall g | g in v'[0] ensures g in v[0] {
      assert Stays(v, c, 0, g);
    }
  }

  /** The tables lose the dropped entries and nothing else. */
  lemma AfterTables(v: Version, r: Running, outputs: seq<File>, v': Version)
    requires Recent(v) && RunningOk(v, r) && After(v, r.c, outputs, v')
    ensures Tables(v') == Tables(v) - Entries(r.input) + Contents(outputs)
  {
    forall e | e in Tables(v') ensures e in Tables(v) - Entries(r.input) + Contents(outputs) {
      var l :| 0 <= l < NUM_LEVELS && e in Contents(v'[l]);
      var g := EntryHome(v'[l], e);
      if Stays(v, r.c, l, g) {
        StaysOutside(v, r, l, g, e);
      }
    }
    forall e | e in Contents(outputs) ensures e in Tables(v') {
      var g := EntryHome(outputs, e);
      assert g in v'[r.c.level + 1];
      assert e in Contents(v'[r.c.level + 1]);
    }
    forall e | e in Tables(v) && e !in r.input ensures e in Tables(v') {
      var l :| 0 <= l < NUM_LEVELS && e in Contents(v[l]);
      var g := EntryHome(v[l], e);
      EntryOutsideStays(v, r, l, g, e);
      assert e in Contents(v'[l]);
    }
  }

  lemma StaysOutside(v: Version, r: Running, l: nat, g: File, e: Entry)
    requires Recent(v) && RunningOk(v, r) && Stays(v, r.c, l, g) && e in g.run
    ensures e in Tables(v) && e !in r.input
  {
    assert e in Contents(v[l]);
    if e in r.input {
      var m, f := InputPlace(v, r, e);
      OneHome(v, l, g, m, f, e);
    }
  }

  /** Readers at or above the smallest snapshot see the same through the new tables. */
  lemma AfterAgrees(v: Version, r: Running, outputs: seq<File>, v': Version)
    requires Recent(v) && RunningOk(v, r) && BoundaryClean(r) && After(v, r.c, outputs, v') && Coherent(Tables(v))
    requires Contents(outputs) == Entries(Kept(r.input, |r.input|, r.snapshot, r.base, r.c.level))
    ensures Agree(Tables(v'), Tables(v), r.snapshot) && Tables(v') <= Tables(v)
  {
    AfterTables(v, r, outputs, v');
    NothingUnder(v, r);
    InputIsInTables(v, r);
    KeptIsTheRest(r.input, |r.input|, r.snapshot, r.base, r.c.level);
    DropIsInvisibleExactly(r.input, r.snapshot, r.base, r.c.level, Tables(v));
  }

  lemma InputIsInTables(v: Version, r: Running)
    requires RunningOk(v, r)
    ensures Entries(r.input) <= Tables(v) && Sorted(r.input)
  {
    RunningParts(v, r);
    InputsInTables(v, r.c, r.input);
  }

  lemma AfterNumbers(v: Version, c: Compaction, outputs: seq<File>, v': Version, nextFile: nat, nextFile': nat)
    requires NumbersOk(v, nextFile) && nextFile <= nextFile' && After(v, c, outputs, v')
    requires forall f :: f in outputs ==> f.number < nextFile'
    requires forall i, j :: 0 <= i < j < |outputs| ==> outputs[i].number != outputs[j].number
    requires forall f, g :: Holds(v, f) && g in outputs ==> f.number != g.number
    ensures NumbersOk(v', nextFile')
  {
    forall g | Holds(v', g) ensures Holds(v, g) || g in outputs {
      var l :| 0 <= l < NUM_LEVELS && g in v'[l];
      assert Stays(v, c, l, g) || g in outputs;
    }
    forall f, g | f in outputs && g in outputs && f.number == g.number ensures f == g {
      var i, j :| 0 <= i < |outputs| && 0 <= j < |outputs| && outputs[i] == f && outputs[j] == g;
    }
  }

  lemma FinishedIsAfter(v: Version, nextFile: nat, r: Running, outputs: seq<File>, v': Version)
    requires NumbersOk(v, nextFile) && RunningOk(v, r)
    requires forall f, g :: Holds(v, f) && g in outputs ==> f.number != g.number
    requires r.c.level + 1 < NUM_LEVELS && Applied(v, InputNumbers(r.c), AtLevel(r.c.level + 1, outputs), v')
    ensures After(v, r.c, outputs, v')
  {
    RunningParts(v, r);
    InstalledIsAfter(v, r.c, outputs, v', nextFile);
  }

  lemma FinishKeepsAgreement(v: Version, r: Running, outputs: seq<File>, v': Version, flushed: set<Entry>, floor: nat)
    requires Recent(v) && RunningOk(v, r) && BoundaryClean(r) && After(v, r.c, outputs, v')
    requires Contents(outputs) == Entries(Kept(r.input, |r.input|, r.snapshot, r.base, r.c.level))
    requires Coherent(flushed) && Tables(v) <= flushed && Agree(Tables(v), flushed, floor)
    ensures Tables(v') <= flushed
    ensures Agree(Tables(v'), flushed, if floor < r.snapshot then r.snapshot else floor)
  {
    CoherentSubset(Tables(v), flushed);
    AfterAgrees(v, r, outputs, v');
    AgreeTransitive(Tables(v'), Tables(v), flushed, r.snapshot, floor, if floor < r.snapshot then r.snapshot
        else floor);
  }

  /** A finished compaction keeps the invariant and is invisible: it only raises the floor to its snapshot. */
  lemma FinishKeepsTables(v: Version, nextFile: nat, flushed: set<Entry>, floor: nat, r: Running, outputs: seq<File>,
                          v': Version, nextFile': nat)
    requires TablesOk(v, nextFile, flushed, floor) && RunningOk(v, r) && Coherent(flushed) && nextFile <= nextFile'
    requires CutOfKept(r, outputs) && BoundaryClean(r)
    requires After(v, r.c, outputs, v') && NumbersOk(v', nextFile')
    ensures TablesOk(v', nextFile', flushed, if floor < r.snapshot then r.snapshot else floor)
  {
    RunningParts(v, r);
    OutputsFromInput(outputs, r);
    OutputsAreClean(v, r);
    AfterRecent(v, r, outputs, v');
    FinishKeepsAgreement(v, r, outputs, v', flushed, floor);
  }

  lemma FinishKeepsInv(st: State, st': State, outputs: seq<File>)
    requires Inv(st) && FinishStep(st, st', outputs)
    ensures Inv(st') && History(st') == History(st) && st'.lastSequence == st.lastSequence
  {
    assert Unfold(IN_ENGINE) && Unfold(IN_FINISH);
    var r := st.running.value;
    FinishedIsAfter(st.version, st.nextFile, r, outputs, st'.version);
    AfterNumbers(st.version, r.c, outputs, st'.version, st.nextFile, st'.nextFile);
    FinishKeepsTables(st.version, st.nextFile, st.flushed, st.floor, r, outputs, st'.version, st'.nextFile);
    FinishKeepsSnapshots(st.snapshots, st.floor, st.lastSequence, r);
  }

  lemma FinishKeepsSnapshots(snapshots: seq<SeqNo>, floor: nat, lastSequence: nat, r: Running)
    requires SnapshotsOk(snapshots, floor, lastSequence, Some(r))
    ensures SnapshotsOk(snapshots, if floor < r.snapshot then r.snapshot else floor, lastSequence, None)
  {
  }

  // ---------------------------------------------------------------------------------------------
  // Trivial moves
  // ---------------------------------------------------------------------------------------------

  lemma MovedIsAfter(v: Version, c: Compaction, f: File, v': Version, nextFile: nat)
    requires c.level + 1 < NUM_LEVELS && c.in0 == [f] && c.in1 == [] && f in v[c.level] && NumbersOk(v, nextFile)
    requires Applied(v, {(c.level, f.number)}, [(c.level + 1, f)], v')
    ensures After(v, c, [f], v')
  {
    forall l, g | 0 <= l < NUM_LEVELS
      ensures g in v'[l] <==> Stays(v, c, l, g) || (l == c.level + 1 && g in [f])
    {
      assert (l, g) in [(c.level + 1, f)] <==> l == c.level + 1 && g == f;
      assert (l, g.number) in {(c.level, f.number)} <==> l == c.level && g.number == f.number;
      assert Holds(v, f) && (g in v[l] ==> Holds(v, g));
    }
  }

  lemma MovedNumbers(v: Version, c: Compaction, f: File, v': Version, nextFile: nat)
    requires NumbersOk(v, nextFile) && After(v, c, [f], v') && f in v[c.level]
    ensures NumbersOk(v', nextFile)
  {
    assert Holds(v, f);
    forall g | Holds(v', g) ensures Holds(v, g) {
      var l :| 0 <= l < NUM_LEVELS && g in v'[l];
      assert Stays(v, c, l, g) || g in [f];
    }
  }

  lemma MoveIsRunning(v: Version, c: Compaction, f: File, snapshot: SeqNo)
    requires SoundPick(v, c) && c.in0 == [f] && c.in1 == [] && LevelsDisjoint(v)
    ensures RunningOk(v, Running(c, f.run, snapshot, v, 0))
  {
    assert Contents([f]) == Entries(f.run) && Contents([]) == {};
    SoundStartIsRunning(v, Running(c, f.run, snapshot, v, 0));
  }

  lemma MoveKeepsTables(v: Version, c: Compaction, f: File, v': Version, nextFile: nat)
    requires Recent(v) && NumbersOk(v, nextFile) && SoundPick(v, c) && MoveClean(v, c) && c.in0 == [f] && c.in1 == []
    requires Applied(v, {(c.level, f.number)}, [(c.level + 1, f)], v')
    ensures Recent(v') && NumbersOk(v', nextFile) && Tables(v') == Tables(v)
  {
    var r := Running(c, f.run, 0, v, 0);
    assert f in v[c.level] by { assert Unfold(IN_PICKS) && f in c.in0; }
    assert Contents([f]) == Entries(f.run);
    MoveIsRunning(v, c, f, 0);
    MovedIsAfter(v, c, f, v', nextFile);
    MovedNumbers(v, c, f, v', nextFile);
    AfterRecent(v, r, [f], v');
    AfterTables(v, r, [f], v');
    InputIsInTables(v, r);
  }

  lemma MoveKeepsTablesOk(v: Version, c: Compaction, v': Version, nextFile: nat, flushed: set<Entry>, floor: nat)
    requires TablesOk(v, nextFile, flushed, floor) && SoundPick(v, c) && MoveClean(v, c) && |c.in0| == 1 && c.in1 == []
    requires Applied(v, {(c.level, c.in0[0].number)}, [(c.level + 1, c.in0[0])], v')
    ensures TablesOk(v', nextFile, flushed, floor)
  {
    assert c.in0 == [c.in0[0]];
    MoveKeepsTables(v, c, c.in0[0], v', nextFile);
  }

  lemma MoveKeepsInv(st: State, st': State, level: nat, chosen: File, limit: nat, maxGrandParentBytes: nat,
      c: Compaction)
    requires Inv(st) && MoveStep(st, st', level, chosen, limit, maxGrandParentBytes, c)
    requires MoveClean(st.version, c)
    ensures Inv(st') && History(st') == History(st)
  {
    assert Unfold(IN_ENGINE);
    PickIsSound(st.version, level, chosen, limit, c);
    MoveKeepsTablesOk(st.version, c, st'.version, st.nextFile, st.flushed, st.floor);
  }
}
