/** The merged input of a compaction: the runs of its files, always the smallest entry next (db/version_set.cc,
    table/merger.cc). */
module InputMerge {
  import opened Wrappers
  import opened DbFormat
  import opened Versions
  import opened Picking
  import opened Edits
  import opened Engine
  import opened EngineCompact

  ghost predicate SameInternalKey(a: Entry, b: Entry) {
    a.key == b.key && a.sn == b.sn
  }

  /** Every run is sorted, and no internal key is in two of them. */
  ghost predicate RunsOk(runs: seq<Run>) {
    forall u {:trigger Unfold(u)} :: u == IN_MERGE && Unfold(u) ==>
    && (forall j :: 0 <= j < |runs| ==> Sorted(runs[j]))
    && forall i, j, a, b :: 0 <= i < |runs| && 0 <= j < |runs| && i != j && a in runs[i] && b in runs[j] ==>
        !SameInternalKey(a, b)
  }

  ghost predicate AllPos(runs: seq<Run>, pos: seq<nat>) {
    |pos| == |runs| && forall j :: 0 <= j < |runs| ==> pos[j] <= |runs[j]|
  }

  /** merged holds what has been taken, in order, and all of it comes before what is left. */
  ghost predicate MergedSoFar(runs: seq<Run>, pos: seq<nat>, merged: Run)
    requires AllPos(runs, pos)
  {
    forall u {:trigger Unfold(u)} :: u == IN_MERGE && Unfold(u) ==>
    && Sorted(merged)
    && (forall j, k :: 0 <= j < |runs| && 0 <= k < pos[j] ==> runs[j][k] in merged)
    && (forall e :: e in merged ==> exists j, k :: 0 <= j < |runs| && 0 <= k < pos[j] && runs[j][k] == e)
    && (forall e, j, k :: e in merged && 0 <= j < |runs| && pos[j] <= k < |runs[j]| ==> Before(e, runs[j][k]))
  }

  ghost predicate IsMerged(runs: seq<Run>, merged: Run) {
    Sorted(merged) && forall e :: e in merged <==> exists j :: 0 <= j < |runs| && e in runs[j]
  }

  lemma NothingTaken(runs: seq<Run>)
    ensures var pos: seq<nat> := seq(|runs|, j => 0); AllPos(runs, pos) && MergedSoFar(runs, pos, [])
  {
  }

  lemma AllTaken(runs: seq<Run>, pos: seq<nat>, merged: Run)
    requires AllPos(runs, pos) && MergedSoFar(runs, pos, merged) && IsSmallest(runs, pos, |runs|, None)
    ensures IsMerged(runs, merged)
  {
    assert Unfold(IN_MERGE);
    forall j, e | 0 <= j < |runs| && e in runs[j] ensures e in merged {
      var k :| 0 <= k < |runs[j]| && runs[j][k] == e;
    }
  }

  /** Among the first n runs, s is the one with the smallest entry left, if there is one. */
  ghost predicate IsSmallest(runs: seq<Run>, pos: seq<nat>, n: nat, s: Option<nat>)
    requires AllPos(runs, pos) && n <= |runs|
  {
    match s
    case None => forall j :: 0 <= j < n ==> pos[j] == |runs[j]|
    case Some(s) => s < n && pos[s] < |runs[s]| && forall j :: 0 <= j < n && j != s && pos[j] < |runs[j]| ==>
      Before(runs[s][pos[s]], runs[j][pos[j]])
  }

  lemma Different(runs: seq<Run>, i: nat, j: nat, a: Entry, b: Entry)
    requires RunsOk(runs) && i < |runs| && j < |runs| && i != j && a in runs[i] && b in runs[j]
    ensures Before(a, b) || Before(b, a)
  {
    assert Unfold(IN_MERGE);
    assert !SameInternalKey(a, b);
  }

  /** MergingIterator::FindSmallest. */
  method FindSmallest(runs: seq<Run>, pos: seq<nat>) returns (s: Option<nat>)
    requires RunsOk(runs) && AllPos(runs, pos)
    ensures IsSmallest(runs, pos, |runs|, s)
  {
    s := None;
    for i := 0 to |runs|
      invariant IsSmallest(runs, pos, i, s)
    {
      if pos[i] < |runs[i]| {
        if s.None? {
          s := Some(i);
        } else {
          Different(runs, i, s.value, runs[i][pos[i]], runs[s.value][pos[s.value]]);
          if Before(runs[i][pos[i]], runs[s.value][pos[s.value]]) {
            s := Some(i);
          }
        }
      }
    }
  }

  lemma SmallestIsFirst(runs: seq<Run>, pos: seq<nat>, s: nat, j: nat, k: nat)
    requires RunsOk(runs) && AllPos(runs, pos) && IsSmallest(runs, pos, |runs|, Some(s))
    requires j < |runs| && pos[j] <= k < |runs[j]| && (j == s ==> k > pos[s])
    ensures Before(runs[s][pos[s]], runs[j][k])
  {
    assert Unfold(IN_MERGE);
    if j != s && k > pos[j] {
      assert Before(runs[j][pos[j]], runs[j][k]);
    }
  }

  lemma TakeOne(runs: seq<Run>, pos: seq<nat>, merged: Run, s: nat)
    requires RunsOk(runs) && AllPos(runs, pos) && MergedSoFar(runs, pos, merged)
        && IsSmallest(runs, pos, |runs|, Some(s))
    ensures AllPos(runs, pos[s := pos[s] + 1])
        && MergedSoFar(runs, pos[s := pos[s] + 1], merged + [runs[s][pos[s]]])
  {
    assert Unfold(IN_MERGE);
    var pos', x := pos[s := pos[s] + 1], runs[s][pos[s]];
    var merged' := merged + [x];
    forall i | 0 <= i < |merged| ensures Before(merged[i], x) {
      assert merged[i] in merged;
    }
    forall e, j, k | e in merged' && 0 <= j < |runs| && pos'[j] <= k < |runs[j]| ensures Before(e, runs[j][k]) {
      if e == x {
        SmallestIsFirst(runs, pos, s, j, k);
      }
    }
    forall j, k | 0 <= j < |runs| && 0 <= k < pos'[j] ensures runs[j][k] in merged' {
      if !(j == s && k == pos[s]) {
        assert runs[j][k] in merged;
      }
    }
    forall e | e in merged' ensures exists j, k :: 0 <= j < |runs| && 0 <= k < pos'[j] && runs[j][k] == e {
      if e in merged {
        var j, k :| 0 <= j < |runs| && 0 <= k < pos[j] && runs[j][k] == e;
        assert k < pos'[j];
      } else {
        assert pos[s] < pos'[s];
      }
    }
  }

  ghost function LeftOver(runs: seq<Run>, pos: seq<nat>, n: nat): nat
    requires AllPos(runs, pos) && n <= |runs|
  {
    if n == 0 then 0 else LeftOver(runs, pos, n - 1) + |runs[n - 1]| - pos[n - 1]
  }

  lemma {:induction false} LessLeft(runs: seq<Run>, pos: seq<nat>, s: nat, n: nat)
    requires AllPos(runs, pos) && n <= |runs| && s < |runs| && pos[s] < |runs[s]|
    ensures AllPos(runs, pos[s := pos[s] + 1])
    ensures LeftOver(runs, pos[s := pos[s] + 1], n) == LeftOver(runs, pos, n) - if s < n then 1 else 0
  {
    if n > 0 {
      LessLeft(runs, pos, s, n - 1);
    }
  }

  /** All entries of the runs, in internal key order. */
  method MergeRuns(runs: seq<Run>) returns (merged: Run)
    requires RunsOk(runs)
    ensures IsMerged(runs, merged)
  {
    merged := [];
    NothingTaken(runs);
    var pos: seq<nat> := seq(|runs|, j => 0);
    var s := FindSmallest(runs, pos);
    while s.Some?
      invariant AllPos(runs, pos) && MergedSoFar(runs, pos, merged) && IsSmallest(runs, pos, |runs|, s)
      decreases LeftOver(runs, pos, |runs|)
    {
      TakeOne(runs, pos, merged, s.value);
      LessLeft(runs, pos, s.value, |runs|);
      merged := merged + [runs[s.value][pos[s.value]]];
      pos := pos[s.value := pos[s.value] + 1];
      s := FindSmallest(runs, pos);
    }
    AllTaken(runs, pos, merged);
  }

  // ----- the files of a compaction -----

  lemma {:induction false} MeetingInOrder(fs: seq<File>, lo: UserKey, hi: UserKey)
    requires InFileOrder(fs)
    ensures InFileOrder(Meeting(fs, lo, hi))
  {
    if fs != [] {
      var n := |fs| - 1;
      MeetingInOrder(fs[..n], lo, hi);
      forall g | g in Meeting(fs[..n], lo, hi) ensures FileBefore(g, fs[n]) {
        var i :| 0 <= i < n && fs[i] == g;
      }
    }
  }

  /** No file is listed twice. */
  ghost predicate NoFileTwice(fs: seq<File>) {
    forall i, j :: 0 <= i < j < |fs| ==> fs[i] != fs[j]
  }

  lemma MeetingOnce(fs: seq<File>, lo: UserKey, hi: UserKey)
    requires InFileOrder(fs)
    ensures NoFileTwice(Meeting(fs, lo, hi))
  {
    MeetingInOrder(fs, lo, hi);
    var r := Meeting(fs, lo, hi);
    forall i, j | 0 <= i < j < |r| ensures r[i] != r[j] {
      assert FileBefore(r[i], r[j]);
    }
  }

  lemma OverlappingOnce(level: nat, fs: seq<File>, begin: UserKey, end: UserKey, inputs: seq<File>)
    requires InFileOrder(fs) && Overlapping(level, fs, begin, end, inputs)
    ensures NoFileTwice(inputs)
  {
    if level > 0 {
      MeetingOnce(fs, begin, end);
    } else {
      var lo, hi :| LeastClosed(fs, begin, end, lo, hi) && Joined(fs, begin, end, lo, hi)
        && inputs == Meeting(fs, lo, hi);
      MeetingOnce(fs, lo, hi);
    }
  }

  lemma SetUpOnce(v: Version, level: nat, base: seq<File>, limit: nat, c: Compaction)
    requires level + 1 < NUM_LEVELS && base != [] && SetUp(v, level, base, limit, c) && NoFileTwice(base)
    requires InFileOrder(v[level]) && InFileOrder(v[level + 1])
    ensures NoFileTwice(c.in0) && NoFileTwice(c.in1)
  {
    var parents := Meeting(v[level + 1], MinLo(base), MaxHi(base));
    MeetingOnce(v[level + 1], MinLo(base), MaxHi(base));
    if parents != [] {
      var wide :| Widened(v, level, base, parents, wide) && Chosen(v, level, base, parents, wide, limit, c);
      OverlappingOnce(level, v[level], MinLo(base + parents), MaxHi(base + parents), wide);
      if Expands(v, level, base, parents, wide, limit) {
        MeetingOnce(v[level + 1], MinLo(wide), MaxHi(wide));
      }
    }
  }

  lemma PickedOnce(v: Version, level: nat, chosen: File, limit: nat, c: Compaction)
    requires Picked(v, level, chosen, limit, c) && InFileOrder(v[level]) && InFileOrder(v[level + 1])
    ensures NoFileTwice(c.in0) && NoFileTwice(c.in1)
  {
    assert Unfold(IN_PICKS);
    var base :| base != [] && StartsFrom(v, level, chosen, base) && SetUp(v, level, base, limit, c);
    if level == 0 {
      OverlappingOnce(0, v[0], Lo(chosen), Hi(chosen), base);
    }
    SetUpOnce(v, level, base, limit, c);
  }

  lemma SoundPickIsPresent(v: Version, c: Compaction)
    requires SoundPick(v, c)
    ensures InputsPresent(v, c)
  {
    assert Unfold(IN_PICKS);
  }

  lemma PickIsReady(v: Version, nextFile: nat, level: nat, chosen: File, limit: nat, c: Compaction)
    requires NumbersOk(v, nextFile) && Picked(v, level, chosen, limit, c)
    ensures c.level == level && level + 1 < NUM_LEVELS
    ensures InputsPresent(v, c) && NoFileTwice(c.in0) && NoFileTwice(c.in1)
  {
    PickIsSound(v, level, chosen, limit, c);
    SoundPickIsPresent(v, c);
    PickedOnce(v, level, chosen, limit, c);
  }

  /** Entries of different files of a version have different internal keys. */
  lemma FilesDiffer(v: Version, l: nat, f: File, m: nat, g: File, a: Entry, b: Entry)
    requires Recent(v) && Coherent(Tables(v)) && l < NUM_LEVELS && m < NUM_LEVELS && f in v[l] && g in v[m]
    requires a in f.run && b in g.run && (l != m || f != g)
    ensures !SameInternalKey(a, b)
  {
    assert a in Contents(v[l]) && b in Contents(v[m]);
    if SameInternalKey(a, b) {
      OneHome(v, l, f, m, g, a);
    }
  }

  lemma InputRunsOk(v: Version, c: Compaction)
    requires Recent(v) && Coherent(Tables(v)) && c.level + 1 < NUM_LEVELS && InputsPresent(v, c)
    requires NoFileTwice(c.in0) && NoFileTwice(c.in1)
    ensures RunsOk(Runs(c.in0 + c.in1))
  {
    var fs := c.in0 + c.in1;
    var runs := Runs(fs);
    forall i, j, a, b | 0 <= i < |runs| && 0 <= j < |runs| && i != j && a in runs[i] && b in runs[j]
      ensures !SameInternalKey(a, b)
    {
      var l, m := InputLevel(v, c, i), InputLevel(v, c, j);
      assert runs[i] == fs[i].run && runs[j] == fs[j].run;
      FilesDiffer(v, l, fs[i], m, fs[j], a, b);
    }
  }

  /** The level of the i-th input. */
  ghost function InputLevel(v: Version, c: Compaction, i: nat): (l: nat)
    requires c.level + 1 < NUM_LEVELS && InputsPresent(v, c) && i < |c.in0 + c.in1|
    ensures l < NUM_LEVELS && (c.in0 + c.in1)[i] in v[l] && (l == c.level <==> i < |c.in0|)
  {
    if i < |c.in0| then
      assert (c.in0 + c.in1)[i] in c.in0;
      c.level
    else
      assert (c.in0 + c.in1)[i] == c.in1[i - |c.in0|];
      assert (c.in0 + c.in1)[i] in c.in1;
      c.level + 1
  }

  lemma MergedIsInput(c: Compaction, merged: Run)
    requires IsMerged(Runs(c.in0 + c.in1), merged)
    ensures IsMergeOf(merged, c)
  {
    var fs := c.in0 + c.in1;
    forall e ensures e in merged <==> e in Contents(c.in0) + Contents(c.in1) {
      if e in Contents(c.in0) + Contents(c.in1) {
        var f :| f in fs && e in f.run;
        var j :| 0 <= j < |fs| && fs[j] == f;
        assert e in Runs(fs)[j];
      }
      if e in merged {
        var j :| 0 <= j < |fs| && e in Runs(fs)[j];
        assert fs[j] in c.in0 || fs[j] in c.in1;
      }
    }
  }

  /** VersionSet::MakeInputIterator, read to its end: the sorted input of a pick. */
  method MergeInputs(v: Version, c: Compaction) returns (input: Run)
    requires Recent(v) && Coherent(Tables(v)) && c.level + 1 < NUM_LEVELS && InputsPresent(v, c)
    requires NoFileTwice(c.in0) && NoFileTwice(c.in1)
    ensures IsMergeOf(input, c)
  {
    InputRunsOk(v, c);
    input := MergeRuns(Runs(c.in0 + c.in1));
    MergedIsInput(c, input);
  }
}
