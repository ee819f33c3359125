/** The store as a state machine: writes, memtable switches, flushes, compactions and snapshots (db/db_impl.cc).
    Each step is one critical section of the database mutex, or the unlocked work that only its thread can see. */
module Engine {
  import opened Wrappers
  import opened DbFormat
  import opened Versions
  import opened Picking
  import opened Compacting
  import opened Edits

  /** A compaction under way: its inputs, their merge, the smallest snapshot, the version it started from and the
      next file number at that time. */
  datatype Running = Running(c: Compaction, input: Run, snapshot: SeqNo, base: Version, first: nat)

  datatype State = State(
    mem: Run,
    imm: Option<Run>,
    version: Version,
    snapshots: seq<SeqNo>,      // live snapshots, oldest first
    lastSequence: SeqNo,
    nextFile: nat,
    running: Option<Running>,
    flushed: set<Entry>,        // every entry ever moved to a table
    floor: SeqNo)               // no compaction has used a larger smallest snapshot

  ghost function MemEntries(st: State): set<Entry> { Entries(st.mem) }
  ghost function ImmEntries(st: State): set<Entry> { RunEntries(st.imm) }

  /** Every entry ever written: the multi-version map the store stands for. */
  ghost function History(st: State): set<Entry> {
    MemEntries(st) + (ImmEntries(st) + st.flushed)
  }

  /** DBImpl::Get: memtable, immutable memtable, then the current version. */
  ghost function Lookup(st: State, u: UserKey, s: SeqNo): Option<Entry> {
    var m := SeekGet(st.mem, u, s);
    if m.Some? then m else
    var i := if st.imm.Some? then SeekGet(st.imm.value, u, s) else None;
    if i.Some? then i else Search(st.version, u, s, 0)
  }

  // ---------------------------------------------------------------------------------------------
  // Steps
  // ---------------------------------------------------------------------------------------------

  /** WriteBatchInternal::InsertInto: consecutive sequence numbers from first on. */
  function AddOps(mem: Run, first: SeqNo, ops: seq<(UserKey, Op)>): Run
    requires first + |ops| <= MAX_SEQUENCE
    decreases |ops|
  {
    if ops == [] then mem else AddOps(Insert(mem, Entry(ops[0].0, first, ops[0].1)), first + 1, ops[1..])
  }

  ghost predicate WriteStep(st: State, st': State, ops: seq<(UserKey, Op)>) {
    && st.lastSequence + |ops| + 1 < MAX_SEQUENCE
    && st' == st.(mem := AddOps(st.mem, st.lastSequence + 1, ops), lastSequence := st.lastSequence + |ops|)
  }

  ghost predicate SwitchStep(st: State, st': State) {
    st.imm.None? && st' == st.(imm := Some(st.mem), mem := [])
  }

  ghost predicate TakeSnapshotStep(st: State, st': State) {
    st' == st.(snapshots := st.snapshots + [st.lastSequence])
  }

  ghost predicate ReleaseSnapshotStep(st: State, st': State, i: nat) {
    i < |st.snapshots| && st' == st.(snapshots := st.snapshots[..i] + st.snapshots[i + 1..])
  }

  /** VersionSet::LogAndApply: the version after an edit. */
  ghost predicate Applied(v: Version, deleted: set<(nat, nat)>, added: seq<(nat, File)>, v': Version) {
    forall l :: 0 <= l < NUM_LEVELS ==>
      && InFileOrder(v'[l])
      && forall f :: f in v'[l] <==> (f in v[l] || (l, f) in added) && (l, f.number) !in deleted
  }

  /** CompactMemTable: the immutable memtable becomes a table, at the level PickLevelForMemTableOutput chose. */
  ghost predicate FlushStep(st: State, st': State, size: nat, maxGrandParentBytes: nat, level: nat) {
    && st.imm.Some? && Sorted(st.imm.value)
    && st'.imm == None && st'.flushed == st.flushed + ImmEntries(st)
    && st'.nextFile == st.nextFile + 1
    && st' == st.(imm := None, flushed := st'.flushed, nextFile := st'.nextFile, version := st'.version)
    && if st.imm.value == [] then st'.version == st.version else
       var f := File(st.nextFile, size, st.imm.value);
       && MemTableLevel(st.version, Lo(f), Hi(f), maxGrandParentBytes, level)
       && Applied(st.version, {}, [(level, f)], st'.version)
  }

  ghost function SmallestSnapshot(st: State): SeqNo {
    if st.snapshots == [] then st.lastSequence else st.snapshots[0]
  }

  ghost predicate IsMergeOf(input: Run, c: Compaction) {
    Sorted(input) && Entries(input) == Contents(c.in0) + Contents(c.in1)
  }

  ghost predicate StartStep(st: State, st': State, level: nat, chosen: File, limit: nat, r: Running) {
    && st.imm.None? && st.running.None?
    && Picked(st.version, level, chosen, limit, r.c)
    && IsMergeOf(r.input, r.c) && r.snapshot == SmallestSnapshot(st) && r.base == st.version && r.first == st.nextFile
    && st' == st.(running := Some(r))
  }

  ghost function InputNumbers(c: Compaction): set<(nat, nat)> {
    (set f | f in c.in0 :: (c.level, f.number)) + (set f | f in c.in1 :: (c.level + 1, f.number))
  }

  function AtLevel(level: nat, fs: seq<File>): seq<(nat, File)> {
    seq(|fs|, i requires 0 <= i < |fs| => (level, fs[i]))
  }

  function Runs(fs: seq<File>): seq<Run> {
    seq(|fs|, i requires 0 <= i < |fs| => fs[i].run)
  }

  /** f is a file of some level. */
  ghost predicate Holds(v: Version, f: File) {
    exists l :: 0 <= l < NUM_LEVELS && f in v[l]
  }

  /** Output numbers are new; a flush during the compaction may have taken numbers in between. */
  ghost predicate FreshNumbers(st: State, first: nat, outputs: seq<File>, nextFile: nat) {
    && nextFile >= st.nextFile
    && (forall f :: f in outputs ==> first <= f.number < nextFile)
    && (forall i, j :: 0 <= i < j < |outputs| ==> outputs[i].number != outputs[j].number)
    && (forall f, g :: Holds(st.version, f) && g in outputs ==> f.number != g.number)
  }

  /** The outputs are the kept entries, cut somehow. */
  ghost predicate CutOfKept(r: Running, outputs: seq<File>) {
    forall k {:trigger Unfold(k)} :: k == IN_OUTPUTS && Unfold(k) ==>
      Concat(Runs(outputs)) == Kept(r.input, |r.input|, r.snapshot, r.base, r.c.level)
  }

  /** InstallCompactionResults: any cut of the kept entries into output files replaces the inputs. */
  ghost predicate FinishStep(st: State, st': State, outputs: seq<File>) {
    && st.running.Some? && st.running.value.c.level + 1 < NUM_LEVELS
    && forall k {:trigger Unfold(k)} :: k == IN_FINISH && Unfold(k) ==>
       var r := st.running.value;
       && CutOfKept(r, outputs)
       && FreshNumbers(st, r.first, outputs, st'.nextFile)
       && Applied(st.version, InputNumbers(r.c), AtLevel(r.c.level + 1, outputs), st'.version)
       && st' == st.(version := st'.version, nextFile := st'.nextFile, running := None,
                     floor := if st.floor < r.snapshot then r.snapshot else st.floor)
  }

  /** IsTrivialMove: one input file, nothing to merge with, and little below. */
  ghost predicate IsTrivialMove(v: Version, c: Compaction, maxGrandParentBytes: nat) {
    && c.level + 1 < NUM_LEVELS && |c.in0| == 1 && c.in1 == []
    && forall k {:trigger Unfold(k)} :: k == IN_PICKS && Unfold(k) ==>
         c.level + 2 < NUM_LEVELS ==>
           TotalSize(Meeting(v[c.level + 2], MinLo(c.in0), MaxHi(c.in0))) <= maxGrandParentBytes
  }

  ghost predicate MoveStep(st: State, st': State, level: nat, chosen: File, limit: nat, maxGrandParentBytes: nat,
      c: Compaction) {
    && st.imm.None? && st.running.None?
    && Picked(st.version, level, chosen, limit, c) && IsTrivialMove(st.version, c, maxGrandParentBytes)
    && Applied(st.version, {(level, c.in0[0].number)}, [(level + 1, c.in0[0])], st'.version)
    && st' == st.(version := st'.version)
  }

  // ---------------------------------------------------------------------------------------------
  // Invariant
  // ---------------------------------------------------------------------------------------------

  /** A file of fs that is not among the inputs holds an entry of d's key that is not newer than d. */
  ghost predicate Continued(fs: seq<File>, inputs: seq<File>, d: Entry) {
    exists g, e :: g in fs && g !in inputs && e in g.run && e.key == d.key && e.sn <= d.sn
  }

  ghost predicate NoneContinued(fs: seq<File>, inputs: seq<File>, D: set<Entry>) {
    forall d :: d in D ==> !Continued(fs, inputs, d)
  }

  /** Entries that a compaction drops although no newer one hides them: tombstones without a key below. */
  ghost function DroppedTombstones(input: Run, snapshot: SeqNo, v: Version, level: nat): set<Entry> {
    set i | 0 <= i < |input| && !Hidden(input, i, snapshot) && Obsolete(input[i], snapshot, v, level) :: input[i]
  }

  /** What the program does not see to.  At a level below 0 a key may go on in the next file, which the pick leaves
      behind.  That does no harm unless older entries stay in front of what the compaction writes, or come out from
      under a tombstone that it drops. */
  ghost predicate BoundaryClean(r: Running) {
    && r.c.level + 1 < NUM_LEVELS
    && forall k {:trigger Unfold(k)} :: k == IN_PICKS && Unfold(k) ==>
      var kept := Entries(Kept(r.input, |r.input|, r.snapshot, r.base, r.c.level));
      var gone := DroppedTombstones(r.input, r.snapshot, r.base, r.c.level);
      && (r.c.level > 0 ==> NoneContinued(r.base[r.c.level], r.c.in0, kept + gone))
      && NoneContinued(r.base[r.c.level + 1], r.c.in1, gone)
  }

  /** The same for a file that is only moved: nothing is dropped. */
  ghost predicate MoveClean(v: Version, c: Compaction) {
    && c.level + 1 < NUM_LEVELS && (c.level > 0 ==> NoneContinued(v[c.level], c.in0, Contents(c.in0)))
  }

  /** f lies wholly on one side of all inputs. */
  ghost predicate Avoids(f: File, c: Compaction) {
    || (forall g :: g in c.in0 + c.in1 ==> Hi(f) < Lo(g))
    || (forall g :: g in c.in0 + c.in1 ==> Hi(g) < Lo(f))
  }

  ghost predicate LaterThan(f: File, input: Run) {
    forall e, x :: e in f.run && x in input && e.key == x.key ==> e.sn > x.sn
  }

  ghost predicate LevelsDisjoint(v: Version) {
    forall l :: 1 <= l < NUM_LEVELS ==> Disjoint(v[l])
  }

  /** Files that came in by flushes since the compaction started are newer than its input and, at or below
      its output level, out of its way. */
  ghost predicate FlushedMeanwhile(v: Version, r: Running) {
    forall l, f :: 0 <= l < NUM_LEVELS && f in v[l] && f !in r.base[l] ==>
      LaterThan(f, r.input) && (l > r.c.level ==> Avoids(f, r.c))
  }

  /** What holds of a running compaction from its start on. */
  ghost predicate StartedWell(r: Running) {
    SoundPick(r.base, r.c) && LevelsDisjoint(r.base) && IsMergeOf(r.input, r.c)
  }

  ghost predicate InputsPresent(v: Version, c: Compaction)
    requires c.level + 1 < NUM_LEVELS
  {
    && (forall f :: f in c.in0 ==> f in v[c.level])
    && (forall f :: f in c.in1 ==> f in v[c.level + 1])
  }

  ghost predicate RunningOk(v: Version, r: Running) {
    forall k {:trigger Unfold(k)} :: k == IN_PICKS && Unfold(k) ==>
        StartedWell(r) && InputsPresent(v, r.c) && FlushedMeanwhile(v, r)
  }

  ghost predicate Earlier(A: set<Entry>, B: set<Entry>) {
    forall a, b :: a in A && b in B ==> a.sn < b.sn
  }

  ghost predicate UpTo(A: set<Entry>, n: nat) {
    forall a :: a in A ==> a.sn <= n
  }

  ghost predicate NumbersOk(v: Version, nextFile: nat) {
    && (forall f :: Holds(v, f) ==> f.number < nextFile)
    && (forall f, g :: Holds(v, f) && Holds(v, g) && f.number == g.number ==> f == g)
    && (forall l :: 0 <= l < NUM_LEVELS ==> InFileOrder(v[l]))
  }

  ghost function RunEntries(run: Option<Run>): set<Entry> { if run.Some? then Entries(run.value) else {} }

  /** Memtable, immutable memtable and tables hold consecutive bands of sequence numbers. */
  ghost predicate MemOk(mem: Run, imm: Option<Run>, flushed: set<Entry>, lastSequence: nat) {
    && Sorted(mem) && (imm.Some? ==> Sorted(imm.value))
    && Earlier(flushed, RunEntries(imm)) && Earlier(flushed, Entries(mem)) && Earlier(RunEntries(imm), Entries(mem))
    && UpTo(Entries(mem), lastSequence) && UpTo(RunEntries(imm), lastSequence) && UpTo(flushed, lastSequence)
    && Coherent(flushed)
  }

  ghost predicate TablesOk(v: Version, nextFile: nat, flushed: set<Entry>, floor: nat) {
    && Recent(v) && NumbersOk(v, nextFile)
    && Tables(v) <= flushed
    && Agree(Tables(v), flushed, floor)
  }

  ghost predicate InBand(snapshots: seq<SeqNo>, low: nat, high: nat) {
    forall i :: 0 <= i < |snapshots| ==> low <= snapshots[i] <= high
  }

  ghost predicate SnapshotsOk(snapshots: seq<SeqNo>, floor: nat, lastSequence: nat, running: Option<Running>) {
    && floor <= lastSequence < MAX_SEQUENCE - 1
    && InBand(snapshots, floor, lastSequence)
    && (forall i, j :: 0 <= i < j < |snapshots| ==> snapshots[i] <= snapshots[j])
    && (running.Some? ==>
        running.value.snapshot <= lastSequence && InBand(snapshots, running.value.snapshot, lastSequence))
  }

  ghost predicate Inv(st: State) {
    forall k {:trigger Unfold(k)} :: k == IN_ENGINE && Unfold(k) ==>
    && MemOk(st.mem, st.imm, st.flushed, st.lastSequence)
    && TablesOk(st.version, st.nextFile, st.flushed, st.floor)
    && SnapshotsOk(st.snapshots, st.floor, st.lastSequence, st.running)
    && (st.running.Some? ==> RunningOk(st.version, st.running.value) && BoundaryClean(st.running.value))
  }

  lemma InvHasParts(st: State)
    requires Inv(st)
    ensures MemOk(st.mem, st.imm, st.flushed, st.lastSequence)
        && TablesOk(st.version, st.nextFile, st.flushed, st.floor)
    ensures SnapshotsOk(st.snapshots, st.floor, st.lastSequence, st.running)
    ensures st.running.Some? ==> RunningOk(st.version, st.running.value) && BoundaryClean(st.running.value)
  {
    assert Unfold(IN_ENGINE);
  }

  lemma PartsMakeInv(st: State)
    requires MemOk(st.mem, st.imm, st.flushed, st.lastSequence)
        && TablesOk(st.version, st.nextFile, st.flushed, st.floor)
    requires SnapshotsOk(st.snapshots, st.floor, st.lastSequence, st.running)
    requires st.running.Some? ==> RunningOk(st.version, st.running.value) && BoundaryClean(st.running.value)
    ensures Inv(st)
  {
  }

  lemma IdleInv(v: Version, nextFile: nat, flushed: set<Entry>, floor: SeqNo, last: SeqNo)
    requires TablesOk(v, nextFile, flushed, floor) && Coherent(flushed) && UpTo(flushed, last)
        && floor <= last < MAX_SEQUENCE - 1
    ensures Inv(State([], None, v, [], last, nextFile, None, flushed, floor))
  {
  }

  /** The layers answer like the multi-version map, at every snapshot from the floor on. */
  lemma LookupReadsHistory(st: State, u: UserKey, s: SeqNo)
    requires Inv(st) && s >= st.floor
    ensures Answer(Lookup(st, u, s)) == Read(History(st), u, s)
  {
    assert Unfold(IN_ENGINE);
    var below := ImmEntries(st) + st.flushed;
    HistoryIsCoherent(st);
    SeekGetIsLatest(st.mem, u, s);
    LatestOfOverlay(MemEntries(st), below, u, s);
    if st.imm.Some? {
      SeekGetIsLatest(st.imm.value, u, s);
    }
    LatestOfOverlay(ImmEntries(st), st.flushed, u, s);
    CoherentSubset(Tables(st.version), st.flushed);
    SearchFindsLatest(st.version, u, s, 0);
    assert Read(Tables(st.version), u, s) == Read(st.flushed, u, s);
  }

  lemma InvParts(st: State)
    requires Inv(st)
    ensures st.floor <= st.lastSequence < MAX_SEQUENCE - 1
    ensures forall s :: s in st.snapshots ==> st.floor <= s <= st.lastSequence
    ensures Coherent(History(st)) && UpTo(History(st), st.lastSequence)
  {
    assert Unfold(IN_ENGINE);
    HistoryIsCoherent(st);
  }

  lemma HistoryIsCoherent(st: State)
    requires MemOk(st.mem, st.imm, st.flushed, st.lastSequence)
    ensures Coherent(History(st)) && Coherent(ImmEntries(st) + st.flushed)
    ensures Newer(MemEntries(st), ImmEntries(st) + st.flushed) && Newer(ImmEntries(st), st.flushed)
  {
    SeekGetIsLatest(st.mem, 0.0, 0);
    if st.imm.Some? {
      SeekGetIsLatest(st.imm.value, 0.0, 0);
    }
  }
}
