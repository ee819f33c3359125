/** What goes wrong when a key goes on in a file that a pick leaves behind: two runs of the store, each from the empty
    store on, with every step one that the program takes (db/version_set.cc, db/db_impl.cc). */
module BoundaryExamples {
  import opened Wrappers
  import opened DbFormat
  import opened Versions
  import opened Picking
  import opened Compacting
  import opened Edits
  import opened Engine
  import opened EngineRuns
  import opened Boundary

  // ---------------------------------------------------------------------------------------------
  // Entries, tables, versions
  // ---------------------------------------------------------------------------------------------

  const OLD: Entry := Entry(2.0, 1, Value([67]))
  const SIDE: Entry := Entry(1.0, 2, Value([66]))
  const LATE: Entry := Entry(1.0, 4, Value([65]))

  /** What happens to key 2.0 after OLD. */
  function Update(op: Op): Entry {
    Entry(2.0, 3, op)
  }

  // The byte limits of the program.
  const GRANDPARENTS: nat := 20_971_520
  const LIMIT: nat := 52_428_800
  const SIZE: nat := 1000

  function OldTable(): File {
    File(1, SIZE, [OLD])
  }

  function NewTable(op: Op): File {
    File(2, SIZE, [SIDE, Update(op)])
  }

  /** The first compaction cuts its output between the two entries of key 2.0. */
  function Upper(op: Op): File {
    File(3, SIZE, [SIDE, Update(op)])
  }

  function Lower(): File {
    File(4, SIZE, [OLD])
  }

  function LateTable(): File {
    File(5, SIZE, [LATE])
  }

  function Output(): File {
    File(6, SIZE, [LATE])
  }

  /** A version with files in levels 1 to 3 only. */
  function Levels(one: seq<File>, two: seq<File>, three: seq<File>): Version {
    [[], one, two, three, [], [], []]
  }

  function Cut(op: Op): Version {
    Levels([], [Upper(op), Lower()], [])
  }

  function BeforePick(op: Op): Version {
    Levels([LateTable()], [Upper(op), Lower()], [])
  }

  const AFTER_PICK: Version := Levels([], [Output(), Lower()], [])

  function AfterMove(op: Op): Version {
    Levels([], [Lower()], [Upper(op)])
  }

  function FirstCompaction(op: Op): Running {
    var c := Compaction(1, [NewTable(op)], [OldTable()]);
    Running(c, [SIDE, Update(op), OLD], 1, Levels([NewTable(op)], [OldTable()], []), 3)
  }

  function SecondCompaction(op: Op): Running {
    var c := Compaction(1, [LateTable()], [Upper(op)]);
    Running(c, [LATE, SIDE, Update(op)], 4, BeforePick(op), 6)
  }

  // ---------------------------------------------------------------------------------------------
  // The run
  // ---------------------------------------------------------------------------------------------

  const LENGTH: nat := 13

  function StepAt(op: Op, i: nat): Step {
    match i
    case 0 => Write([(2.0, OLD.op)])
    case 1 => TakeSnapshot
    case 2 => Switch
    case 3 => Flush(SIZE, GRANDPARENTS, 2)
    case 4 => Write([(1.0, SIDE.op), (2.0, op)])
    case 5 => Switch
    case 6 => Flush(SIZE, GRANDPARENTS, 1)
    case 7 => Start(1, NewTable(op), LIMIT, FirstCompaction(op))
    case 8 => Finish([Upper(op), Lower()])
    case 9 => Write([(1.0, LATE.op)])
    case 10 => Switch
    case 11 => Flush(SIZE, GRANDPARENTS, 1)
    case _ => ReleaseSnapshot(0)
  }

  function Older(): set<Entry> {
    {OLD}
  }

  function Both(op: Op): set<Entry> {
    {OLD, SIDE, Update(op)}
  }

  function Every(op: Op): set<Entry> {
    {OLD, SIDE, Update(op), LATE}
  }

  function S0(op: Op): State {
    State([], None, EMPTY_VERSION, [], 0, 1, None, {}, 0)
  }

  function S1(op: Op): State {
    State([OLD], None, EMPTY_VERSION, [], 1, 1, None, {}, 0)
  }

  function S2(op: Op): State {
    State([OLD], None, EMPTY_VERSION, [1], 1, 1, None, {}, 0)
  }

  function S3(op: Op): State {
    State([], Some([OLD]), EMPTY_VERSION, [1], 1, 1, None, {}, 0)
  }

  function S4(op: Op): State {
    State([], None, Levels([], [OldTable()], []), [1], 1, 2, None, Older(), 0)
  }

  function S5(op: Op): State {
    State([SIDE, Update(op)], None, Levels([], [OldTable()], []), [1], 3, 2, None, Older(), 0)
  }

  function S6(op: Op): State {
    State([], Some([SIDE, Update(op)]), Levels([], [OldTable()], []), [1], 3, 2, None, Older(), 0)
  }

  function S7(op: Op): State {
    State([], None, Levels([NewTable(op)], [OldTable()], []), [1], 3, 3, None, Both(op), 0)
  }

  function S8(op: Op): State {
    State([], None, Levels([NewTable(op)], [OldTable()], []), [1], 3, 3, Some(FirstCompaction(op)), Both(op), 0)
  }

  function S9(op: Op): State {
    State([], None, Cut(op), [1], 3, 5, None, Both(op), 1)
  }

  function S10(op: Op): State {
    State([LATE], None, Cut(op), [1], 4, 5, None, Both(op), 1)
  }

  function S11(op: Op): State {
    State([], Some([LATE]), Cut(op), [1], 4, 5, None, Both(op), 1)
  }

  function S12(op: Op): State {
    State([], None, BeforePick(op), [1], 4, 6, None, Every(op), 1)
  }

  function S13(op: Op): State {
    State([], None, BeforePick(op), [], 4, 6, None, Every(op), 1)
  }

  function StateAt(op: Op, i: nat): State {
    match i
    case 0 => S0(op)
    case 1 => S1(op)
    case 2 => S2(op)
    case 3 => S3(op)
    case 4 => S4(op)
    case 5 => S5(op)
    case 6 => S6(op)
    case 7 => S7(op)
    case 8 => S8(op)
    case 9 => S9(op)
    case 10 => S10(op)
    case 11 => S11(op)
    case 12 => S12(op)
    case _ => S13(op)
  }

  function States(op: Op, n: nat): seq<State> {
    seq(n + 1, i requires i >= 0 => StateAt(op, i))
  }

  function Steps(op: Op, n: nat): seq<Step> {
    seq(n, i requires i >= 0 => StepAt(op, i))
  }

  lemma Writes(op: Op)
    ensures CleanStep(S0(op), Write([(2.0, OLD.op)]), S1(op))
    ensures CleanStep(S4(op), Write([(1.0, SIDE.op), (2.0, op)]), S5(op))
    ensures CleanStep(S9(op), Write([(1.0, LATE.op)]), S10(op))
  {
    assert AddOps([], 1, [(2.0, OLD.op)]) == [OLD];
    assert Insert([SIDE], Update(op)) == [SIDE, Update(op)];
    assert AddOps([], 2, [(1.0, SIDE.op), (2.0, op)]) == AddOps([SIDE], 3, [(2.0, op)]) == [SIDE, Update(op)];
    assert AddOps([], 4, [(1.0, LATE.op)]) == [LATE];
  }

  lemma Switches(op: Op)
    ensures CleanStep(S2(op), Switch, S3(op)) && CleanStep(S5(op), Switch, S6(op))
        && CleanStep(S10(op), Switch, S11(op))
  {
  }

  lemma Snapshots(op: Op)
    ensures CleanStep(S1(op), TakeSnapshot, S2(op)) && CleanStep(S12(op), ReleaseSnapshot(0), S13(op))
  {
  }

  // ---------------------------------------------------------------------------------------------
  // Flushes
  // ---------------------------------------------------------------------------------------------

  lemma InOrder(op: Op)
    ensures InFileOrder([]) && InFileOrder([Upper(op), Lower()]) && InFileOrder([Output(), Lower()])
  {
  }

  /** A table for an empty level. */
  lemma AddsOne(v: Version, level: nat, f: File, v': Version)
    requires level < NUM_LEVELS && v[level] == [] && v' == v[level := [f]]
        && forall l :: 0 <= l < NUM_LEVELS ==> InFileOrder(v[l])
    ensures Applied(v, {}, [(level, f)], v')
  {
    forall l, g | 0 <= l < NUM_LEVELS ensures g in v'[l] <==> g in v[l] || (l, g) in [(level, f)] {
      assert (l, g) in [(level, f)] <==> l == level && g == f;
    }
  }

  lemma SmallTotal(fs: seq<File>, lo: UserKey, hi: UserKey)
    requires |fs| <= 2 && forall f :: f in fs ==> f.size == SIZE
    ensures TotalSize(Meeting(fs, lo, hi)) <= GRANDPARENTS
  {
    var r := Meeting(fs, lo, hi);
    assert r != [] ==> r[|r| - 1] in r;
    assert |r| == 2 ==> r[0] in r && r[..1] == [r[0]];
    assert TotalSize([]) == 0;
    assert |r| == 1 ==> r[..0] == [];
    assert |r| == 2 ==> r[..1][..0] == [];
  }

  lemma FlushesToTwo()
    ensures MemTableLevel(EMPTY_VERSION, 2.0, 2.0, GRANDPARENTS, 2)
  {
    SmallTotal([], 2.0, 2.0);
  }

  /** Level 2 holds a file in the way, and levels 0 and 1 none. */
  lemma FlushesToOne(v: Version, f: File, lo: UserKey, hi: UserKey)
    requires v[0] == [] && v[1] == [] && |v[2]| <= 2 && (forall g :: g in v[2] ==> g.size == SIZE)
    requires f in v[2] && Meets(f, lo, hi)
    ensures MemTableLevel(v, lo, hi, GRANDPARENTS, 1)
  {
    assert MayPushBelow(v, lo, hi, GRANDPARENTS, 0) by { SmallTotal(v[2], lo, hi); }
    assert Hit(v[2], lo, hi);
  }

  /** f belongs to that level of v, and v' is v with it. */
  ghost predicate FlushFits(v: Version, f: File, level: nat, v': Version) {
    forall k {:trigger Unfold(k)} :: k == IN_EXAMPLE && Unfold(k) ==>
        MemTableLevel(v, Lo(f), Hi(f), GRANDPARENTS, level) && Applied(v, {}, [(level, f)], v')
  }

  /** The states around a flush differ in what it changes. */
  ghost predicate Flushes(st: State, f: File, st': State) {
    && st.imm == Some(f.run) && f.number == st.nextFile && f.size == SIZE
    && st' == st.(imm := None, flushed := st.flushed + Entries(f.run), nextFile := st.nextFile + 1,
                  version := st'.version)
  }

  lemma FlushedSets(op: Op)
    ensures Older() == {} + Entries(OldTable().run) && Both(op) == Older() + Entries(NewTable(op).run)
    ensures Every(op) == Both(op) + Entries(LateTable().run)
  {
  }

  lemma FitsInEmptyLevel(v: Version, f: File, level: nat, v': Version)
    requires MemTableLevel(v, Lo(f), Hi(f), GRANDPARENTS, level) && v[level] == [] && v' == v[level := [f]]
    requires forall l :: 0 <= l < NUM_LEVELS ==> InFileOrder(v[l])
    ensures FlushFits(v, f, level, v')
  {
    AddsOne(v, level, f, v');
  }

  lemma FirstPlace()
    ensures FlushFits(EMPTY_VERSION, OldTable(), 2, Levels([], [OldTable()], []))
  {
    FlushesToTwo();
    FitsInEmptyLevel(EMPTY_VERSION, OldTable(), 2, Levels([], [OldTable()], []));
  }

  lemma SecondPlace(op: Op)
    ensures FlushFits(Levels([], [OldTable()], []), NewTable(op), 1, Levels([NewTable(op)], [OldTable()], []))
  {
    var v := Levels([], [OldTable()], []);
    assert MemTableLevel(v, 1.0, 2.0, GRANDPARENTS, 1) by { FlushesToOne(v, OldTable(), 1.0, 2.0); }
    FitsInEmptyLevel(v, NewTable(op), 1, Levels([NewTable(op)], [OldTable()], []));
  }

  lemma CutInOrder(op: Op, l: nat)
    requires l < NUM_LEVELS
    ensures InFileOrder(Cut(op)[l])
  {
    InOrder(op);
  }

  lemma ThirdLevel(op: Op)
    ensures MemTableLevel(Cut(op), 1.0, 1.0, GRANDPARENTS, 1)
  {
    FlushesToOne(Cut(op), Upper(op), 1.0, 1.0);
  }

  lemma ThirdPlace(op: Op)
    ensures FlushFits(Cut(op), LateTable(), 1, BeforePick(op))
  {
    ThirdLevel(op);
    forall l | 0 <= l < NUM_LEVELS ensures InFileOrder(Cut(op)[l]) {
      CutInOrder(op, l);
    }
    FitsInEmptyLevel(Cut(op), LateTable(), 1, BeforePick(op));
  }

  lemma FlushHappens(st: State, st': State, f: File, level: nat)
    requires Flushes(st, f, st') && FlushFits(st.version, f, level, st'.version)
    ensures CleanStep(st, Flush(SIZE, GRANDPARENTS, level), st')
  {
    assert Unfold(IN_EXAMPLE);
  }

  lemma FirstFlush(op: Op)
    ensures CleanStep(S3(op), Flush(SIZE, GRANDPARENTS, 2), S4(op))
  {
    FirstPlace();
    FlushedSets(op);
    FlushHappens(S3(op), S4(op), OldTable(), 2);
  }

  lemma SecondFlush(op: Op)
    ensures CleanStep(S6(op), Flush(SIZE, GRANDPARENTS, 1), S7(op))
  {
    SecondPlace(op);
    FlushedSets(op);
    FlushHappens(S6(op), S7(op), NewTable(op), 1);
  }

  lemma ThirdFlush(op: Op)
    ensures CleanStep(S11(op), Flush(SIZE, GRANDPARENTS, 1), S12(op))
  {
    ThirdPlace(op);
    FlushedSets(op);
    FlushHappens(S11(op), S12(op), LateTable(), 1);
  }

  // ---------------------------------------------------------------------------------------------
  // Compactions
  // ---------------------------------------------------------------------------------------------

  /** The only file of level 1 is picked with what it meets in level 2; there is nothing more in level 1 to take. */
  lemma PicksOne(v: Version, f: File, parents: seq<File>)
    requires v[1] == [f] && parents == Meeting(v[2], Lo(f), Hi(f)) && parents != []
    ensures Picked(v, 1, f, LIMIT, Compaction(1, [f], parents))
  {
    SingleRange(f);
    var wide := Meeting(v[1], MinLo([f] + parents), MaxHi([f] + parents));
    assert Widened(v, 1, [f], parents, wide) && Chosen(v, 1, [f], parents, wide, LIMIT, Compaction(1, [f], parents));
    assert StartsFrom(v, 1, f, [f]) && SetUp(v, 1, [f], LIMIT, Compaction(1, [f], parents));
  }

  lemma ContentsOfOne(f: File)
    ensures Contents([f]) == Entries(f.run)
  {
    assert f in [f];
  }

  lemma ContentsOfTwo(f: File, g: File)
    ensures Contents([f, g]) == Entries(f.run) + Entries(g.run)
  {
    var fs := [f, g];
    assert fs[0] in fs && fs[1] in fs;
  }

  lemma FirstMerge(op: Op)
    ensures var r := FirstCompaction(op); IsMergeOf(r.input, r.c) && BoundaryClean(r)
  {
    var r := FirstCompaction(op);
    ContentsOfOne(NewTable(op));
    ContentsOfOne(OldTable());
    assert Entries(r.input) == {SIDE, Update(op), OLD};
    CleanWholly(r);
  }

  lemma StartHappens(st: State, st': State, level: nat, chosen: File, r: Running)
    requires st.imm.None? && st.running.None? && st' == st.(running := Some(r))
    requires Picked(st.version, level, chosen, LIMIT, r.c) && IsMergeOf(r.input, r.c)
    requires r.snapshot == SmallestSnapshot(st) && r.base == st.version && r.first == st.nextFile
    ensures Next(st, Start(level, chosen, LIMIT, r), st')
    ensures BoundaryClean(r) ==> CleanStep(st, Start(level, chosen, LIMIT, r), st')
  {
  }

  lemma FirstStart(op: Op)
    ensures CleanStep(S7(op), Start(1, NewTable(op), LIMIT, FirstCompaction(op)), S8(op))
  {
    var r := FirstCompaction(op);
    assert Picked(r.base, 1, NewTable(op), LIMIT, r.c) by {
      assert Meeting([OldTable()], 1.0, 2.0) == [OldTable()];
      PicksOne(r.base, NewTable(op), [OldTable()]);
    }
    FirstMerge(op);
    StartHappens(S7(op), S8(op), 1, NewTable(op), r);
  }

  lemma AllKept(op: Op)
    ensures var r := FirstCompaction(op); Kept(r.input, 3, 1, r.base, 1) == r.input
  {
    var r := FirstCompaction(op);
    assert Kept(r.input, 0, 1, r.base, 1) == [];
    assert Kept(r.input, 1, 1, r.base, 1) == [SIDE];
    assert Kept(r.input, 2, 1, r.base, 1) == [SIDE, Update(op)];
  }

  lemma ConcatOfTwo(f: File, g: File)
    ensures Concat(Runs([f, g])) == f.run + g.run
  {
    var runs := Runs([f, g]);
    assert runs == [f.run, g.run] && runs[..1] == [f.run] && [f.run][..0] == [];
    assert Concat([]) == [] && Concat([f.run]) == f.run;
  }

  lemma NumbersOfOne(c: Compaction, f: File, g: File)
    requires c.in0 == [f] && c.in1 == [g]
    ensures InputNumbers(c) == {(c.level, f.number), (c.level + 1, g.number)}
  {
  }

  lemma FirstInstall(op: Op)
    ensures var r := FirstCompaction(op);
      Applied(r.base, InputNumbers(r.c), AtLevel(2, [Upper(op), Lower()]), Cut(op))
  {
    var r := FirstCompaction(op);
    InOrder(op);
    NumbersOfOne(r.c, NewTable(op), OldTable());
    var added := AtLevel(2, [Upper(op), Lower()]);
    assert added == [(2, Upper(op)), (2, Lower())];
    forall l, g | 0 <= l < NUM_LEVELS
      ensures g in Cut(op)[l] <==> (g in r.base[l] || (l, g) in added) && (l, g.number) !in InputNumbers(r.c)
    {
      assert (l, g) in added <==> l == 2 && (g == Upper(op) || g == Lower());
    }
  }

  lemma HeldInTwo(op: Op, f: File)
    requires Holds(FirstCompaction(op).base, f)
    ensures f == NewTable(op) || f == OldTable()
  {
    var l :| 0 <= l < NUM_LEVELS && f in FirstCompaction(op).base[l];
  }

  lemma FinishHappens(st: State, st': State, r: Running, outputs: seq<File>)
    requires st.running == Some(r) && r.c.level + 1 < NUM_LEVELS && CutOfKept(r, outputs)
    requires FreshNumbers(st, r.first, outputs, st'.nextFile)
    requires Applied(st.version, InputNumbers(r.c), AtLevel(r.c.level + 1, outputs), st'.version)
    requires st' == st.(version := st'.version, nextFile := st'.nextFile, running := None,
                        floor := if st.floor < r.snapshot then r.snapshot else st.floor)
    ensures Next(st, Finish(outputs), st') && CleanStep(st, Finish(outputs), st')
  {
  }

  lemma FirstOutputs(op: Op)
    ensures CutOfKept(FirstCompaction(op), [Upper(op), Lower()])
    ensures FreshNumbers(S8(op), 3, [Upper(op), Lower()], 5)
  {
    var r := FirstCompaction(op);
    AllKept(op);
    ConcatOfTwo(Upper(op), Lower());
    assert Upper(op).run + Lower().run == r.input;
    forall f | Holds(r.base, f) ensures f.number < 3 {
      HeldInTwo(op, f);
    }
  }

  lemma FirstFinish(op: Op)
    ensures CleanStep(S8(op), Finish([Upper(op), Lower()]), S9(op))
  {
    FirstOutputs(op);
    FirstInstall(op);
    FinishHappens(S8(op), S9(op), FirstCompaction(op), [Upper(op), Lower()]);
  }

  /** Every step up to the last is one that the hypothesis allows. */
  lemma StepIsClean(op: Op, i: nat)
    requires i < LENGTH
    ensures CleanStep(StateAt(op, i), StepAt(op, i), StateAt(op, i + 1))
  {
    if i in {0, 1, 2, 4, 5, 9, 10, 12} {
      Writes(op);
      Switches(op);
      Snapshots(op);
    } else if i == 3 {
      FirstFlush(op);
    } else if i == 6 {
      SecondFlush(op);
    } else if i == 7 {
      FirstStart(op);
    } else if i == 8 {
      FirstFinish(op);
    } else {
      assert i == 11;
      ThirdFlush(op);
    }
  }

  lemma RunUpTo(op: Op, n: nat)
    requires n <= LENGTH
    ensures IsRun(States(op, n), Steps(op, n))
  {
    forall i | 0 <= i < n ensures CleanStep(States(op, n)[i], Steps(op, n)[i], States(op, n)[i + 1]) {
      StepIsClean(op, i);
    }
  }

  // ---------------------------------------------------------------------------------------------
  // A move that loses an update
  // ---------------------------------------------------------------------------------------------

  lemma LevelAnswer(v: Version, level: nat, u: UserKey, s: SeqNo, e: Entry)
    requires level < NUM_LEVELS && Coherent(Contents(v[level])) && Newest(Contents(v[level]), u, s, e)
    requires forall l :: 0 <= l < level ==> Latest(Contents(v[l]), u, s).None?
    ensures Search(v, u, s, 0) == Some(e)
  {
    SearchSkips(v, u, s, 0, level);
    LatestIs(Contents(v[level]), u, s, e);
  }

  lemma AnswerOfCut(op: Op)
    ensures Search(Cut(op), 2.0, 3, 0) == Some(Update(op))
  {
    ContentsOfTwo(Upper(op), Lower());
    assert Contents(Cut(op)[2]) == {SIDE, Update(op), OLD} && Contents([]) == {};
    LevelAnswer(Cut(op), 2, 2.0, 3, Update(op));
  }

  lemma AnswerOfMove(op: Op)
    ensures Search(AfterMove(op), 2.0, 3, 0) == Some(OLD)
  {
    ContentsOfOne(Lower());
    assert Contents(AfterMove(op)[2]) == {OLD} && Contents([]) == {};
    LevelAnswer(AfterMove(op), 2, 2.0, 3, OLD);
  }

  function Moved(op: Op): State {
    S9(op).(version := AfterMove(op))
  }

  lemma MovePicked(op: Op)
    ensures Picked(Cut(op), 2, Upper(op), LIMIT, Compaction(2, [Upper(op)], []))
        && IsTrivialMove(Cut(op), Compaction(2, [Upper(op)], []), GRANDPARENTS)
  {
    SingleRange(Upper(op));
    var c := Compaction(2, [Upper(op)], []);
    assert Upper(op) in Cut(op)[2];
    assert SetUp(Cut(op), 2, [Upper(op)], LIMIT, c) && StartsFrom(Cut(op), 2, Upper(op), [Upper(op)]);
    assert TotalSize(Meeting(Cut(op)[4], 1.0, 2.0)) == 0;
  }

  lemma MoveApplies(op: Op)
    ensures Applied(Cut(op), {(2, 3)}, [(3, Upper(op))], AfterMove(op))
  {
    forall l, f | 0 <= l < NUM_LEVELS ensures f in AfterMove(op)[l] <==>
        (f in Cut(op)[l] || (l, f) in [(3, Upper(op))]) && (l, f.number) !in {(2, 3)}
    {
      assert (l, f) in [(3, Upper(op))] <==> l == 3 && f == Upper(op);
      assert (l, f.number) in {(2, 3)} <==> l == 2 && f.number == 3;
    }
  }

  lemma MoveHappens(op: Op)
    ensures Next(S9(op), Move(2, Upper(op), LIMIT, GRANDPARENTS, Compaction(2, [Upper(op)], [])), Moved(op))
  {
    MovePicked(op);
    MoveApplies(op);
  }

  lemma AnswersOfMove(op: Op)
    ensures Answer(Lookup(S9(op), 2.0, 3)) == (if op.Value? then Some(op.data) else None)
    ensures Answer(Lookup(Moved(op), 2.0, 3)) == Some([67])
  {
    AnswerOfCut(op);
    AnswerOfMove(op);
  }

  /** A run that the hypothesis allows leaves two files of level 2 that share key 2.0: a snapshot kept both entries, and
      the output was cut between them.  Then the program moves the first of the two down, and from then on a reader gets
      the older value, whatever the update was. */
  lemma MoveLosesUpdate(op: Op)
    ensures IsRun(States(op, 9), Steps(op, 9)) && States(op, 9)[9] == S9(op)
    ensures Next(S9(op), Move(2, Upper(op), LIMIT, GRANDPARENTS, Compaction(2, [Upper(op)], [])), Moved(op))
    ensures Answer(Lookup(S9(op), 2.0, 3)) == (if op.Value? then Some(op.data) else None)
    ensures Answer(Lookup(Moved(op), 2.0, 3)) == Some([67])
  {
    RunUpTo(op, 9);
    MoveHappens(op);
    AnswersOfMove(op);
  }

  // ---------------------------------------------------------------------------------------------
  // A compaction that brings a deleted value back
  // ---------------------------------------------------------------------------------------------

  function S14(): State {
    S13(Deletion).(running := Some(SecondCompaction(Deletion)))
  }

  function S15(): State {
    S14().(version := AFTER_PICK, nextFile := 7, running := None, floor := 4)
  }

  lemma SecondMerge(op: Op)
    ensures var r := SecondCompaction(op); IsMergeOf(r.input, r.c)
  {
    ContentsOfOne(LateTable());
    ContentsOfOne(Upper(op));
    assert Entries(SecondCompaction(op).input) == {LATE, SIDE, Update(op)};
  }

  lemma SecondStart()
    ensures Next(S13(Deletion), Start(1, LateTable(), LIMIT, SecondCompaction(Deletion)), S14())
  {
    var r := SecondCompaction(Deletion);
    assert Picked(r.base, 1, LateTable(), LIMIT, r.c) by {
      assert [Upper(Deletion), Lower()][..1] == [Upper(Deletion)];
      assert Meeting([Upper(Deletion)], 1.0, 1.0) == [Upper(Deletion)];
      assert Meeting([Upper(Deletion), Lower()], 1.0, 1.0) == [Upper(Deletion)];
      PicksOne(r.base, LateTable(), [Upper(Deletion)]);
    }
    SecondMerge(Deletion);
    StartHappens(S13(Deletion), S14(), 1, LateTable(), r);
  }

  /** The entry of key 1.0 is hidden by the later one, and the tombstone has nothing of its key below level 2. */
  lemma OneKept()
    ensures var r := SecondCompaction(Deletion); Kept(r.input, 3, 4, r.base, 1) == [LATE]
  {
    var r := SecondCompaction(Deletion);
    assert BaseLevel(r.base, 1, 2.0);
    assert Obsolete(r.input[2], 4, r.base, 1);
    assert Kept(r.input, 0, 4, r.base, 1) == [];
    assert !Dropped(r.input, 0, 4, r.base, 1);
    assert Kept(r.input, 1, 4, r.base, 1) == [LATE];
    assert Hidden(r.input, 1, 4);
    assert Kept(r.input, 2, 4, r.base, 1) == [LATE];
  }

  lemma SecondOutputs()
    ensures CutOfKept(SecondCompaction(Deletion), [Output()]) && FreshNumbers(S14(), 6, [Output()], 7)
  {
    OneKept();
    var runs := Runs([Output()]);
    assert runs == [[LATE]] && runs[..0] == [] && Concat([]) == [];
    forall f | Holds(S14().version, f) ensures f.number < 6 {
      var l :| 0 <= l < NUM_LEVELS && f in S14().version[l];
    }
  }

  lemma SecondInstall()
    ensures var r := SecondCompaction(Deletion);
      Applied(r.base, InputNumbers(r.c), AtLevel(2, [Output()]), AFTER_PICK)
  {
    var r := SecondCompaction(Deletion);
    InOrder(Deletion);
    NumbersOfOne(r.c, LateTable(), Upper(Deletion));
    var added := AtLevel(2, [Output()]);
    assert added == [(2, Output())];
    forall l, g | 0 <= l < NUM_LEVELS
      ensures g in AFTER_PICK[l] <==> (g in r.base[l] || (l, g) in added) && (l, g.number) !in InputNumbers(r.c)
    {
      assert (l, g) in added <==> l == 2 && g == Output();
    }
  }

  lemma AnswerBefore()
    ensures Search(BeforePick(Deletion), 2.0, 4, 0) == Some(Update(Deletion))
  {
    ContentsOfOne(LateTable());
    ContentsOfTwo(Upper(Deletion), Lower());
    var v := BeforePick(Deletion);
    assert Contents(v[2]) == {SIDE, Update(Deletion), OLD} && Contents([]) == {} && Contents(v[1]) == {LATE};
    LevelAnswer(v, 2, 2.0, 4, Update(Deletion));
  }

  lemma AnswerAfter()
    ensures Search(AFTER_PICK, 2.0, 4, 0) == Some(OLD)
  {
    ContentsOfTwo(Output(), Lower());
    assert Contents(AFTER_PICK[2]) == {LATE, OLD} && Contents([]) == {};
    LevelAnswer(AFTER_PICK, 2, 2.0, 4, OLD);
  }

  lemma SecondFinish()
    ensures Next(S14(), Finish([Output()]), S15())
  {
    SecondOutputs();
    SecondInstall();
    FinishHappens(S14(), S15(), SecondCompaction(Deletion), [Output()]);
  }

  lemma AnswersOfDeletion()
    ensures Answer(Lookup(S13(Deletion), 2.0, 4)) == None && Answer(Lookup(S15(), 2.0, 4)) == Some([67])
  {
    AnswerBefore();
    AnswerAfter();
  }

  /** The same run goes on without a snapshot: key 2.0 is deleted for every reader.  The program picks the one file
      of level 1 with what it meets in level 2, which leaves the file with the old value beside it; the compaction
      drops the tombstone, as no deeper level has the key, and the value can be read again. */
  lemma DeletionUndone()
    ensures IsRun(States(Deletion, LENGTH), Steps(Deletion, LENGTH))
        && States(Deletion, LENGTH)[LENGTH] == S13(Deletion)
    ensures Next(S13(Deletion), Start(1, LateTable(), LIMIT, SecondCompaction(Deletion)), S14())
    ensures Next(S14(), Finish([Output()]), S15())
    ensures Answer(Lookup(S13(Deletion), 2.0, 4)) == None && Answer(Lookup(S15(), 2.0, 4)) == Some([67])
  {
    RunUpTo(Deletion, LENGTH);
    SecondStart();
    SecondFinish();
    AnswersOfDeletion();
  }
}
