/** The boundary hypothesis: exactly when moving one file down keeps every answer, and what goes wrong without
    it (db/version_set.cc). */
module Boundary {
  import opened Wrappers
  import opened DbFormat
  import opened Versions
  import opened Picking
  import opened Compacting
  import opened Engine
  import opened EngineWrites
  import opened EngineCompact

  /** The next file of the level does not go on with the last user key of file i. */
  predicate KeyEndsWithFile(fs: seq<File>, i: nat)
    requires i < |fs|
  {
    i + 1 < |fs| ==> Lo(fs[i + 1]) != Hi(fs[i])
  }

  lemma KeyEndsMeansClean(fs: seq<File>, i: nat)
    requires Disjoint(fs) && i < |fs|
    ensures KeyEndsWithFile(fs, i) <==> NoneContinued(fs, [fs[i]], Contents([fs[i]]))
  {
    if KeyEndsWithFile(fs, i) {
      forall d, g, e | d in Contents([fs[i]]) && g in fs && g !in [fs[i]] && e in g.run
          && e.key == d.key ensures e.sn > d.sn {
        var k :| 0 <= k < |fs| && fs[k] == g;
        EndedKeyIsNewer(fs, i, k, d, e);
      }
    } else {
      var f, g := fs[i], fs[i + 1];
      assert Before(Largest(f), Smallest(g));
      RunBounds(f, Smallest(f));
      RunBounds(g, Smallest(g));
      FileEntryInContents([f], f, Largest(f));
      assert g in fs && g !in [f] && Smallest(g) in g.run;
      assert Continued(fs, [f], Largest(f));
    }
  }

  lemma EndedKeyIsNewer(fs: seq<File>, i: nat, k: nat, d: Entry, e: Entry)
    requires Disjoint(fs) && i < |fs| && k < |fs| && k != i && KeyEndsWithFile(fs, i)
    requires d in fs[i].run && e in fs[k].run && e.key == d.key
    ensures e.sn > d.sn
  {
    RunBounds(fs[i], d);
    RunBounds(fs[k], e);
    if k > i {
      RunBounds(fs[i + 1], Smallest(fs[i + 1]));
    }
  }

  /** v' is v with file i of the level moved one level down, where it meets nothing. */
  ghost predicate Moved(v: Version, level: nat, i: nat, v': Version) {
    && 1 <= level && level + 1 < NUM_LEVELS && i < |v[level]|
    && !Hit(v[level + 1], Lo(v[level][i]), Hi(v[level][i]))
    && Applied(v, {(level, v[level][i].number)}, [(level + 1, v[level][i])], v')
  }

  lemma SingleRange(f: File)
    ensures MinLo([f]) == Lo(f) && MaxHi([f]) == Hi(f) && Gapless([f] + [])
  {
    assert f in [f];
    forall g, h, x | g in [f] + [] && h in [f] + [] && Lo(g) <= x <= Hi(h) ensures Covers([f] + [], x) {
      assert f in [f] + [];
    }
  }

  lemma MovedIsSoundPick(v: Version, level: nat, i: nat, v': Version)
    requires Moved(v, level, i, v')
    ensures SoundPick(v, Compaction(level, [v[level][i]], []))
  {
    SingleRange(v[level][i]);
  }

  lemma MovedKeepsAnswers(v: Version, level: nat, i: nat, v': Version, nextFile: nat)
    requires Recent(v) && NumbersOk(v, nextFile) && Coherent(Tables(v)) && Moved(v, level, i, v')
    requires KeyEndsWithFile(v[level], i)
    ensures forall u: UserKey, s: SeqNo :: Search(v', u, s, 0) == Search(v, u, s, 0)
  {
    var c := Compaction(level, [v[level][i]], []);
    KeyEndsMeansClean(v[level], i);
    MovedIsSoundPick(v, level, i, v');
    MoveKeepsTables(v, c, v[level][i], v', nextFile);
    forall u: UserKey, s: SeqNo ensures Search(v', u, s, 0) == Search(v, u, s, 0) {
      SearchFindsLatest(v, u, s, 0);
      SearchFindsLatest(v', u, s, 0);
    }
  }

  /** Searching levels that hold nothing visible leads on to the next one. */
  lemma {:induction false} SearchSkips(v: Version, u: UserKey, s: SeqNo, from: nat, until: nat)
    requires from <= until < NUM_LEVELS
    requires forall l :: from <= l < until ==> Latest(Contents(v[l]), u, s).None?
    ensures Search(v, u, s, from) == Search(v, u, s, until)
    decreases until - from
  {
    if from < until {
      SearchSkips(v, u, s, from + 1, until);
    }
  }

  lemma FileEntryInContents(fs: seq<File>, f: File, e: Entry)
    requires f in fs && e in f.run
    ensures e in Contents(fs)
  {
  }

  lemma OwnSequenceFindsEntry(v: Version, level: nat, f: File, a: Entry)
    requires Recent(v) && Coherent(Tables(v)) && level < NUM_LEVELS && f in v[level] && a in f.run
    ensures Search(v, a.key, a.sn, 0) == Some(a)
  {
    FileEntryInContents(v[level], f, a);
    SearchFindsLatest(v, a.key, a.sn, 0);
    assert VisibleIn(Tables(v), a.key, a.sn, a);
    LatestIs(Tables(v), a.key, a.sn, a);
  }

  /** With a continuation g left behind, the search stops at its level without the moved entry. */
  lemma ContinuationAnswers(v: Version, c: Compaction, v': Version, f: File, g: File, level: nat, a: Entry, b: Entry)
    requires Recent(v) && After(v, c, [f], v') && c == Compaction(level, [f], []) && level < NUM_LEVELS
    requires f in v[level] && a in f.run && g in v[level] && g != f && b in g.run && b.key == a.key && b.sn < a.sn
    ensures Search(v', a.key, a.sn, 0) != Some(a)
  {
    FileEntryInContents(v[level], f, a);
    forall l | 0 <= l < level ensures Latest(Contents(v'[l]), a.key, a.sn).None? {
      AboveIsInvisible(v, c, v', [f], l, a, level);
    }
    SearchSkips(v', a.key, a.sn, 0, level);
    assert Stays(v, c, level, g);
    FileEntryInContents(v'[level], g, b);
    assert VisibleIn(Contents(v'[level]), a.key, a.sn, b);
    MovedEntryGone(v, c, v', f, level, a);
  }

  /** With a continuation left behind, the reader at the moved entry's own sequence number gets an older entry. */
  lemma MovedHidesEntry(v: Version, level: nat, i: nat, v': Version, nextFile: nat)
    requires Recent(v) && NumbersOk(v, nextFile) && Coherent(Tables(v)) && Moved(v, level, i, v')
    requires !KeyEndsWithFile(v[level], i)
    ensures var a := Largest(v[level][i]); Search(v, a.key, a.sn, 0) == Some(a) && Search(v', a.key, a.sn, 0) != Some(a)
  {
    var f, g := v[level][i], v[level][i + 1];
    var c := Compaction(level, [f], []);
    assert Before(Largest(f), Smallest(g));
    RunBounds(f, Smallest(f));
    OwnSequenceFindsEntry(v, level, f, Largest(f));
    MovedIsAfter(v, c, f, v', nextFile);
    ContinuationAnswers(v, c, v', f, g, level, Largest(f), Smallest(g));
  }

  lemma AboveIsInvisible(v: Version, c: Compaction, v': Version, outputs: seq<File>, l: nat, a: Entry, level: nat)
    requires Recent(v) && After(v, c, outputs, v') && c.level == level && l < level < NUM_LEVELS
        && a in Contents(v[level])
    ensures Latest(Contents(v'[l]), a.key, a.sn).None?
  {
    forall x ensures !VisibleIn(Contents(v'[l]), a.key, a.sn, x) {
      if x in Contents(v'[l]) {
        var g := EntryHome(v'[l], x);
        assert Stays(v, c, l, g);
        assert x in Contents(v[l]);
      }
    }
  }

  lemma MovedEntryGone(v: Version, c: Compaction, v': Version, f: File, level: nat, a: Entry)
    requires Recent(v) && After(v, c, [f], v') && c == Compaction(level, [f], []) && f in v[level] && a in f.run
    ensures a !in Contents(v'[level])
  {
    if a in Contents(v'[level]) {
      var g := EntryHome(v'[level], a);
      assert Stays(v, c, level, g);
      OneHome(v, level, f, level, g, a);
    }
  }

  /** A trivial move from a level >= 1 keeps every answer exactly when the key of the moved file's last entry ends
      with it.  The program does not check this. */
  lemma MoveIsInvisibleExactly(v: Version, level: nat, i: nat, v': Version, nextFile: nat)
    requires Recent(v) && NumbersOk(v, nextFile) && Coherent(Tables(v)) && Moved(v, level, i, v')
    ensures (forall u: UserKey, s: SeqNo :: Search(v', u, s, 0) == Search(v, u, s, 0)) <==> KeyEndsWithFile(v[level], i)
  {
    if KeyEndsWithFile(v[level], i) {
      MovedKeepsAnswers(v, level, i, v', nextFile);
    } else {
      MovedHidesEntry(v, level, i, v', nextFile);
    }
  }

  // ---------------------------------------------------------------------------------------------
  // Compactions in general
  // ---------------------------------------------------------------------------------------------

  /** A condition on file ends alone: no file left behind begins with the key that an input ends with. */
  ghost predicate KeysEnd(fs: seq<File>, inputs: seq<File>) {
    forall f, g :: f in inputs && g in fs && g !in inputs && Before(Largest(f), Smallest(g)) ==> Hi(f) != Lo(g)
  }

  lemma KeysEndIsClean(fs: seq<File>, inputs: seq<File>, f: File, d: Entry)
    requires Disjoint(fs) && KeysEnd(fs, inputs) && f in inputs && f in fs && d in f.run
    ensures !Continued(fs, inputs, d)
  {
    DisjointIsApart(fs);
    RunBounds(f, d);
    forall g, e | g in fs && g !in inputs && e in g.run && e.key == d.key ensures e.sn > d.sn {
      RunBounds(g, e);
    }
  }

  lemma PickedFiles(v: Version, c: Compaction)
    requires SoundPick(v, c)
    ensures (forall f :: f in c.in0 ==> f in v[c.level]) && (forall f :: f in c.in1 ==> f in v[c.level + 1])
  {
    assert Unfold(IN_PICKS);
  }

  /** The second inputs are all files of their level that meet the first. */
  lemma FirstEndsBelow(v: Version, c: Compaction, f: File, d: Entry)
    requires SoundPick(v, c) && f in c.in0 && d in f.run
    ensures !Continued(v[c.level + 1], c.in1, d)
  {
    assert Unfold(IN_PICKS);
    RunBounds(f, d);
    forall g, e | g in v[c.level + 1] && g !in c.in1 && e in g.run ensures e.key != d.key {
      RunBounds(g, e);
      assert !Meets(g, MinLo(c.in0), MaxHi(c.in0));
    }
  }

  lemma SecondEndsAbove(v: Version, level: nat, inputs: seq<File>, f: File, d: Entry)
    requires Recent(v) && level + 1 < NUM_LEVELS && f in v[level + 1] && d in f.run
    ensures !Continued(v[level], inputs, d)
  {
    forall g, e | g in v[level] && e in g.run && e.key == d.key ensures e.sn > d.sn {
      HigherIsNewer(v, level, g, e, level + 1, f, d);
    }
  }

  lemma InputFile(r: Running, d: Entry) returns (f: File)
    requires IsMergeOf(r.input, r.c) && d in r.input
    ensures (f in r.c.in0 || f in r.c.in1) && d in f.run
  {
    assert d in Entries(r.input);
    f :| (f in r.c.in0 || f in r.c.in1) && d in f.run;
  }

  /** An input entry is continued at neither input level. */
  lemma InputNotContinued(r: Running, d: Entry)
    requires Recent(r.base) && StartedWell(r) && d in r.input
    requires (r.c.level > 0 ==> KeysEnd(r.base[r.c.level], r.c.in0)) && KeysEnd(r.base[r.c.level + 1], r.c.in1)
    ensures (r.c.level > 0 ==> !Continued(r.base[r.c.level], r.c.in0, d))
        && !Continued(r.base[r.c.level + 1], r.c.in1, d)
  {
    var v, c := r.base, r.c;
    PickedFiles(v, c);
    var f := InputFile(r, d);
    if f in c.in0 {
      if c.level > 0 {
        KeysEndIsClean(v[c.level], c.in0, f, d);
      }
      FirstEndsBelow(v, c, f, d);
    } else {
      KeysEndIsClean(v[c.level + 1], c.in1, f, d);
      SecondEndsAbove(v, c.level, c.in0, f, d);
    }
  }

  lemma DroppedOrKeptIsInput(r: Running)
    requires Sorted(r.input)
    ensures Entries(Kept(r.input, |r.input|, r.snapshot, r.base, r.c.level)) <= Entries(r.input)
    ensures DroppedTombstones(r.input, r.snapshot, r.base, r.c.level) <= Entries(r.input)
  {
    KeptIsTheRest(r.input, |r.input|, r.snapshot, r.base, r.c.level);
  }

  lemma NoneContinuedOfLess(fs: seq<File>, inputs: seq<File>, D: set<Entry>, all: set<Entry>)
    requires NoneContinued(fs, inputs, all) && D <= all
    ensures NoneContinued(fs, inputs, D)
  {
  }

  lemma CleanWholly(r: Running)
    requires r.c.level + 1 < NUM_LEVELS && Sorted(r.input)
        && NoneContinued(r.base[r.c.level + 1], r.c.in1, Entries(r.input))
    requires r.c.level > 0 ==> NoneContinued(r.base[r.c.level], r.c.in0, Entries(r.input))
    ensures BoundaryClean(r)
  {
    DroppedOrKeptIsInput(r);
    var kept := Entries(Kept(r.input, |r.input|, r.snapshot, r.base, r.c.level));
    var gone := DroppedTombstones(r.input, r.snapshot, r.base, r.c.level);
    NoneContinuedOfLess(r.base[r.c.level + 1], r.c.in1, gone, Entries(r.input));
    if r.c.level > 0 {
      NoneContinuedOfLess(r.base[r.c.level], r.c.in0, kept + gone, Entries(r.input));
    }
  }

  /** The hypothesis holds of every pick whose keys end with its files, at both levels. */
  lemma EndsAreEnough(r: Running)
    requires Recent(r.base) && StartedWell(r)
    requires (r.c.level > 0 ==> KeysEnd(r.base[r.c.level], r.c.in0)) && KeysEnd(r.base[r.c.level + 1], r.c.in1)
    ensures BoundaryClean(r)
  {
    forall d | d in Entries(r.input)
      ensures (r.c.level > 0 ==> !Continued(r.base[r.c.level], r.c.in0, d))
          && !Continued(r.base[r.c.level + 1], r.c.in1, d)
    {
      InputNotContinued(r, d);
    }
    CleanWholly(r);
  }

  lemma ContinuedBreaksOrder(v: Version, c: Compaction, outputs: seq<File>, v': Version, d: Entry)
    requires After(v, c, outputs, v') && d in Contents(outputs) && Continued(v[c.level], c.in0, d)
    ensures !Newer(Contents(v'[c.level]), Contents(v'[c.level + 1]))
  {
    var g, e :| g in v[c.level] && g !in c.in0 && e in g.run && e.key == d.key && e.sn <= d.sn;
    assert Stays(v, c, c.level, g);
    FileEntryInContents(v'[c.level], g, e);
    var o := EntryHome(outputs, d);
    FileEntryInContents(v'[c.level + 1], o, d);
  }

  lemma RecentLevels(v: Version, l: nat)
    requires Recent(v) && l + 1 < NUM_LEVELS
    ensures Newer(Contents(v[l]), Contents(v[l + 1]))
  {
  }

  /** Newer data stays in smaller levels exactly when no file left at the compaction's level goes on with the key of an
      entry that is written. */
  lemma StaysRecentExactly(v: Version, r: Running, outputs: seq<File>, v': Version)
    requires Recent(v) && RunningOk(v, r) && After(v, r.c, outputs, v') && FromInput(outputs, r.input)
        && Disjoint(outputs)
    ensures Recent(v') <==> CleanNow(v, r, Contents(outputs))
  {
    if CleanNow(v, r, Contents(outputs)) {
      AfterRecent(v, r, outputs, v');
    } else if Recent(v') {
      var d :| d in Contents(outputs) && Continued(v[r.c.level], r.c.in0, d);
      RecentLevels(v', r.c.level);
      ContinuedBreaksOrder(v, r.c, outputs, v', d);
    }
  }

  /** Every reader at or after the snapshot gets the same answer. */
  ghost predicate SameAnswers(v: Version, v': Version, snapshot: SeqNo) {
    forall u: UserKey, s: SeqNo :: s >= snapshot ==> Answer(Search(v', u, s, 0)) == Answer(Search(v, u, s, 0))
  }

  lemma SearchReads(v: Version, u: UserKey, s: SeqNo)
    requires Recent(v) && Coherent(Tables(v))
    ensures Answer(Search(v, u, s, 0)) == Read(Tables(v), u, s)
  {
    SearchFindsLatest(v, u, s, 0);
  }

  lemma AgreementGivesAnswers(v: Version, v': Version, snapshot: SeqNo)
    requires Recent(v) && Coherent(Tables(v)) && Recent(v') && Coherent(Tables(v'))
        && Agree(Tables(v'), Tables(v), snapshot)
    ensures SameAnswers(v, v', snapshot)
  {
    forall u: UserKey, s: SeqNo | s >= snapshot ensures Answer(Search(v', u, s, 0)) == Answer(Search(v, u, s, 0)) {
      SearchReads(v, u, s);
      SearchReads(v', u, s);
      assert Read(Tables(v'), u, s) == Read(Tables(v), u, s);
    }
  }

  lemma DifferenceShows(v: Version, v': Version, snapshot: SeqNo, u: UserKey)
    requires Recent(v) && Coherent(Tables(v)) && Recent(v') && Coherent(Tables(v'))
    requires Read(Tables(v'), u, snapshot) != Read(Tables(v), u, snapshot)
    ensures !SameAnswers(v, v', snapshot)
  {
    SearchReads(v, u, snapshot);
    SearchReads(v', u, snapshot);
  }

  lemma FinishedTables(v: Version, r: Running, outputs: seq<File>, v': Version)
    requires Recent(v) && RunningOk(v, r) && After(v, r.c, outputs, v') && Coherent(Tables(v)) && CutOfKept(r, outputs)
    requires CleanNow(v, r, Contents(outputs))
    ensures Sorted(r.input) && Entries(r.input) <= Tables(v) && Recent(v') && Coherent(Tables(v'))
    ensures Tables(v') == Remaining(r.input, r.snapshot, r.base, r.c.level, Tables(v))
  {
    InputIsInTables(v, r);
    OutputsFromInput(outputs, r);
    AfterRecent(v, r, outputs, v');
    AfterTables(v, r, outputs, v');
    DroppedOrKeptIsInput(r);
    CoherentSubset(Tables(v'), Tables(v));
  }

  /** Then a compaction keeps every answer from its smallest snapshot on exactly when no value comes out from under a
      tombstone that it drops. */
  lemma CompactionIsInvisibleExactly(v: Version, r: Running, outputs: seq<File>, v': Version)
    requires Recent(v) && RunningOk(v, r) && After(v, r.c, outputs, v') && Coherent(Tables(v)) && CutOfKept(r, outputs)
    requires CleanNow(v, r, Contents(outputs))
    ensures SameAnswers(v, v', r.snapshot) <==> NothingRevealed(r.input, r.snapshot, r.base, r.c.level, Tables(v))
  {
    FinishedTables(v, r, outputs, v');
    DropIsInvisibleExactly(r.input, r.snapshot, r.base, r.c.level, Tables(v));
    if NothingRevealed(r.input, r.snapshot, r.base, r.c.level, Tables(v)) {
      AgreementGivesAnswers(v, v', r.snapshot);
    } else {
      var t :| Reveals(t, r.input, r.snapshot, r.base, r.c.level, Tables(v));
      RevealedChangesAnswer(r.input, r.snapshot, r.base, r.c.level, Tables(v), t);
      DifferenceShows(v, v', r.snapshot, t.key);
    }
  }
}
