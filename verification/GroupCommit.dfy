/** Group commit: the head of the queue of writers writes for several of them (db/db_impl.cc, db/write_batch.cc).  A
    step is what happens between taking and releasing the mutex, or one action of the leader while the mutex is
    free.  That there is one leader at a time, and that it is the head, is proved of the callers in WriteQueue, each
    of whose steps is one of these or changes nothing here. */
module GroupCommit {
  import opened Wrappers
  import opened DbFormat

  /** A batch and its size in bytes. */
  datatype Batch = Batch(ops: seq<(UserKey, Op)>, bytes: nat)

  /** One call of Write; a call without a batch only waits for the memtable to be switched. */
  datatype Writer = Writer(batch: Option<Batch>, sync: bool)

  function OpsOf(w: Writer): seq<(UserKey, Op)> {
    if w.batch.Some? then w.batch.value.ops else []
  }

  function BytesOf(w: Writer): nat {
    if w.batch.Some? then w.batch.value.bytes else 0
  }

  /** The operations of consecutive writers, in their order. */
  function Ops(ws: seq<Writer>): seq<(UserKey, Op)> {
    if ws == [] then [] else Ops(ws[..|ws| - 1]) + OpsOf(ws[|ws| - 1])
  }

  function Bytes(ws: seq<Writer>): nat {
    if ws == [] then 0 else Bytes(ws[..|ws| - 1]) + BytesOf(ws[|ws| - 1])
  }

  lemma {:induction false} OpsAppend(a: seq<Writer>, b: seq<Writer>)
    ensures Ops(a + b) == Ops(a) + Ops(b)
    decreases |b|
  {
    if b == [] {
      assert a + b == a;
    } else {
      var front, last := b[..|b| - 1], b[|b| - 1];
      OpsAppend(a, front);
      assert (a + b)[..|a + b| - 1] == a + front && (a + b)[|a + b| - 1] == last;
      Associative(Ops(a), Ops(front), OpsOf(last));
    }
  }

  lemma Associative<T>(a: seq<T>, b: seq<T>, c: seq<T>)
    ensures (a + b) + c == a + (b + c)
  {
  }

  // ---------------------------------------------------------------------------------------------
  // BuildBatchGroup
  // ---------------------------------------------------------------------------------------------

  /** A small write is not slowed down by a large group. */
  function MaxSize(first: nat): nat {
    if first <= 128 * 1024 then first + 128 * 1024 else 1024 * 1024
  }

  /** Writer j may join the group of the writers before it. */
  predicate Joins(queue: seq<Writer>, j: nat)
    requires j < |queue|
  {
    && (queue[j].sync ==> queue[0].sync)
    && (queue[j].batch.Some? ==> Bytes(queue[..j + 1]) <= MaxSize(BytesOf(queue[0])))
  }

  /** The first count writers of the queue are the group: the longest run whose members may all join. */
  ghost predicate IsGroup(queue: seq<Writer>, count: nat) {
    && 1 <= count <= |queue| && (forall j :: 1 <= j < count ==> Joins(queue, j))
    && (count < |queue| ==> !Joins(queue, count))
  }

  /** A group of more than one has at most 1 MiB, and less behind a small write; it ends at a sync write behind one that
      is not, or because the next batch would make it too large. */
  lemma GroupSize(queue: seq<Writer>, count: nat)
    requires IsGroup(queue, count)
    ensures count > 1 && queue[count - 1].batch.Some? ==> Bytes(queue[..count]) <= 1024 * 1024
    ensures count > 1 && queue[count - 1].batch.Some? && BytesOf(queue[0]) <= 128 * 1024 ==>
        Bytes(queue[..count]) <= BytesOf(queue[0]) + 128 * 1024
    ensures count < |queue| && (queue[count].sync ==> queue[0].sync) ==>
        queue[count].batch.Some? && Bytes(queue[..count + 1]) > 128 * 1024
    ensures count < |queue| && (queue[count].sync ==> queue[0].sync) && BytesOf(queue[0]) > 128 * 1024 ==>
        Bytes(queue[..count + 1]) > 1024 * 1024
  {
    assert count > 1 ==> Joins(queue, count - 1) && count - 1 + 1 == count;
  }

  /** The batch to write and the number of writers it is for. */
  method BuildBatchGroup(queue: seq<Writer>) returns (result: seq<(UserKey, Op)>, count: nat)
    requires queue != [] && queue[0].batch.Some?
    ensures IsGroup(queue, count) && result == Ops(queue[..count])
  {
    var first := queue[0];
    result := first.batch.value.ops;
    var size := first.batch.value.bytes;
    var maxSize := if size <= 128 * 1024 then size + 128 * 1024 else 1024 * 1024;
    count := 1;
    assert Ops(queue[..1]) == Ops([]) + OpsOf(first) && Bytes(queue[..1]) == Bytes([]) + BytesOf(first);
    while count < |queue|
      invariant 1 <= count <= |queue| && result == Ops(queue[..count]) && size == Bytes(queue[..count])
      invariant forall j :: 1 <= j < count ==> Joins(queue, j)
    {
      var w := queue[count];
      assert queue[..count + 1][..count] == queue[..count];
      if w.sync && !first.sync {
        break;
      }
      if w.batch.Some? {
        if size + w.batch.value.bytes > maxSize {
          break;
        }
        size := size + w.batch.value.bytes;
        result := result + w.batch.value.ops;
      }
      count := count + 1;
    }
  }

  // ---------------------------------------------------------------------------------------------
  // The state machine
  // ---------------------------------------------------------------------------------------------

  /** A log record: the operations of a group, with the sequence number of the first. */
  datatype Record = Record(first: nat, ops: seq<(UserKey, Op)>)

  /** What the head of the queue is doing. */
  datatype Phase = Quiet | MakingRoom | Writing(count: nat, ops: seq<(UserKey, Op)>, logged: bool, synced: bool,
      inserted: nat)

  datatype State = State(
    base: nat,              // the last sequence number at the start
    all: seq<Writer>,       // every call of Write, in the order in which they joined the queue
    popped: nat,            // calls before this one are done; the rest is the queue
    phase: Phase,
    log: seq<Record>,
    syncedLog: nat,         // records that a sync has made durable
    mem: seq<Entry>,        // memtable entries, in the order of their insertion
    lastSequence: nat,
    snapshots: set<nat>)    // sequence numbers that readers have taken

  function Flat(log: seq<Record>): seq<(UserKey, Op)> {
    if log == [] then [] else Flat(log[..|log| - 1]) + log[|log| - 1].ops
  }

  /** Consecutive sequence numbers from first on. */
  function Numbered(first: nat, ops: seq<(UserKey, Op)>): seq<Entry>
    requires first + |ops| <= MAX_SEQUENCE + 1
  {
    seq(|ops|, i requires 0 <= i < |ops| => Entry(ops[i].0, first + i, ops[i].1))
  }

  /** Operations of finished writers. */
  function Done(s: State): seq<(UserKey, Op)>
    requires s.popped <= |s.all|
  {
    Ops(s.all[..s.popped])
  }

  ghost predicate Join(s: State, s': State, w: Writer) {
    s' == s.(all := s.all + [w])
  }

  ghost predicate Lead(s: State, s': State) {
    s.phase.Quiet? && s.popped < |s.all| && s' == s.(phase := MakingRoom)
  }

  ghost predicate Skip(s: State, s': State) {
    s.phase.MakingRoom? && s.popped < |s.all| && s.all[s.popped].batch.None?
        && s' == s.(phase := Quiet, popped := s.popped + 1)
  }

  ghost predicate Build(s: State, s': State, count: nat) {
    && s.phase.MakingRoom? && s.popped < |s.all| && s.all[s.popped].batch.Some? && IsGroup(s.all[s.popped..], count)
    && var ops := Ops(s.all[s.popped..][..count]);
       s.lastSequence + |ops| <= MAX_SEQUENCE && s' == s.(phase := Writing(count, ops, false, false, 0))
  }

  ghost predicate AddLogRecord(s: State, s': State) {
    && s.phase.Writing? && !s.phase.logged
    && s' == s.(log := s.log + [Record(s.lastSequence + 1, s.phase.ops)], phase := s.phase.(logged := true))
  }

  ghost predicate Sync(s: State, s': State) {
    && s.phase.Writing? && s.phase.logged && s.popped < |s.all| && s.all[s.popped].sync
    && s' == s.(syncedLog := |s.log|, phase := s.phase.(synced := true))
  }

  /** The log record is written, and synced if the leader asked for it. */
  predicate LogReady(s: State) {
    s.phase.Writing? && s.phase.logged && s.popped < |s.all| && (s.all[s.popped].sync ==> s.phase.synced)
  }

  ghost predicate InsertOne(s: State, s': State) {
    && LogReady(s) && s.phase.inserted < |s.phase.ops| && s.lastSequence + |s.phase.ops| <= MAX_SEQUENCE
    && var (u, op) := s.phase.ops[s.phase.inserted];
       s' == s.(mem := s.mem + [Entry(u, s.lastSequence + 1 + s.phase.inserted, op)],
           phase := s.phase.(inserted := s.phase.inserted + 1))
  }

  ghost predicate Finish(s: State, s': State) {
    && LogReady(s) && s.phase.inserted == |s.phase.ops|
    && s' == s.(lastSequence := s.lastSequence + |s.phase.ops|, popped := s.popped + s.phase.count, phase := Quiet)
  }

  ghost predicate Snapshot(s: State, s': State) {
    s' == s.(snapshots := s.snapshots + {s.lastSequence})
  }

  ghost predicate Next(s: State, s': State) {
    || (exists w :: Join(s, s', w)) || Lead(s, s') || Skip(s, s') || (exists count :: Build(s, s', count))
    || AddLogRecord(s, s') || Sync(s, s') || InsertOne(s, s') || Finish(s, s') || Snapshot(s, s')
  }

  ghost predicate Init(s: State) {
    && s.base <= MAX_SEQUENCE && s == State(s.base, [], 0, Quiet, [], 0, [], s.base, {})
  }

  // ---------------------------------------------------------------------------------------------
  // What every step keeps
  // ---------------------------------------------------------------------------------------------

  /** What the leader has appended to the log, and put into the memtable, of the group it is writing. */
  function Logged(p: Phase): seq<(UserKey, Op)> {
    if p.Writing? && p.logged then p.ops else []
  }

  function Inserted(p: Phase): seq<(UserKey, Op)> {
    if p.Writing? && p.inserted <= |p.ops| then p.ops[..p.inserted] else []
  }

  /** The group is what IsGroup allows; a leader that does not sync writes for no writer that wants it. */
  ghost predicate GroupOk(all: seq<Writer>, popped: nat, count: nat, ops: seq<(UserKey, Op)>) {
    && 1 <= count && popped + count <= |all|
    && forall k {:trigger Unfold(k)} :: k == IN_GROUP && Unfold(k) ==>
         && ops == Ops(all[popped..popped + count])
         && forall j :: popped <= j < popped + count && all[j].sync ==> all[popped].sync
  }

  ghost predicate PhaseOk(s: State) {
    s.phase.Writing? ==>
      && GroupOk(s.all, s.popped, s.phase.count, s.phase.ops)
      && s.phase.inserted <= |s.phase.ops| && s.lastSequence + |s.phase.ops| <= MAX_SEQUENCE
      && (s.phase.inserted > 0 ==> s.phase.logged)
      && (s.phase.synced ==> s.phase.logged && s.syncedLog == |s.log|)
  }

  /** Each record starts with the number after the last one before it. */
  ghost predicate LogOk(base: nat, log: seq<Record>) {
    forall k {:trigger Unfold(k)} :: k == IN_GROUP_LOG && Unfold(k) ==>
      forall i :: 0 <= i < |log| ==> log[i].first == base + 1 + |Flat(log[..i])|
  }

  /** The operations of writer i are in the first n records. */
  ghost predicate Covered(all: seq<Writer>, log: seq<Record>, n: nat, i: nat)
    requires i < |all| && n <= |log|
  {
    |Ops(all[..i + 1])| <= |Flat(log[..n])|
  }

  /** Whoever asked for a sync and is done has its operations in a synced record. */
  ghost predicate SyncOk(all: seq<Writer>, popped: nat, log: seq<Record>, n: nat)
    requires popped <= |all| && n <= |log|
  {
    forall k {:trigger Unfold(k)} :: k == IN_GROUP_SYNC && Unfold(k) ==>
      forall i :: 0 <= i < popped && all[i].sync && all[i].batch.Some? ==> Covered(all, log, n, i)
  }

  /** x is the last sequence number of the first m writers. */
  ghost predicate EndsAt(all: seq<Writer>, base: nat, x: nat, m: nat)
    requires m <= |all|
  {
    x == base + |Ops(all[..m])|
  }

  /** Every snapshot was taken between two batches. */
  ghost predicate SnapshotsOk(all: seq<Writer>, popped: nat, base: nat, snapshots: set<nat>)
    requires popped <= |all|
  {
    forall k {:trigger Unfold(k)} :: k == IN_GROUP_SNAPSHOT && Unfold(k) ==>
      forall x :: x in snapshots ==> exists m :: 0 <= m <= popped && EndsAt(all, base, x, m)
  }

  /** The counters, the log and the memtable, in terms of the operations done so far. */
  ghost predicate Exact(s: State, done: seq<(UserKey, Op)>) {
    && s.base <= s.lastSequence == s.base + |done| <= MAX_SEQUENCE
    && Flat(s.log) == done + Logged(s.phase)
    && s.base + |done + Inserted(s.phase)| <= MAX_SEQUENCE
    && s.mem == Numbered(s.base + 1, done + Inserted(s.phase))
  }

  ghost predicate Inv(s: State) {
    && s.popped <= |s.all| && PhaseOk(s) && s.syncedLog <= |s.log|
    && Exact(s, Done(s)) && LogOk(s.base, s.log)
    && SyncOk(s.all, s.popped, s.log, s.syncedLog)
    && SnapshotsOk(s.all, s.popped, s.base, s.snapshots)
  }

  lemma InitInv(s: State)
    requires Init(s)
    ensures Inv(s)
  {
    assert s.all[..0] == [];
  }

  lemma OpsSplit(all: seq<Writer>, i: nat, j: nat)
    requires i <= j <= |all|
    ensures Ops(all[..j]) == Ops(all[..i]) + Ops(all[i..j])
  {
    assert all[..j] == all[..i] + all[i..j];
    OpsAppend(all[..i], all[i..j]);
  }

  lemma {:induction false} FlatGrow(log: seq<Record>, i: nat, j: nat)
    requires i <= j <= |log|
    ensures |Flat(log[..i])| <= |Flat(log[..j])|
    decreases j
  {
    if i < j {
      FlatGrow(log, i, j - 1);
      assert log[..j][..j - 1] == log[..j - 1];
    }
  }

  /** Snapshots stay boundaries as long as nothing before popped changes. */
  lemma SnapshotsStay(all: seq<Writer>, popped: nat, all': seq<Writer>, popped': nat, base: nat, snapshots: set<nat>)
    requires popped <= popped' <= |all'| && popped <= |all| && all <= all' && SnapshotsOk(all, popped, base, snapshots)
    ensures SnapshotsOk(all', popped', base, snapshots)
  {
    assert Unfold(IN_GROUP_SNAPSHOT);
    forall x | x in snapshots ensures exists m :: 0 <= m <= popped' && EndsAt(all', base, x, m) {
      var m: nat :| 0 <= m <= popped && EndsAt(all, base, x, m);
      assert all'[..m] == all[..m];
      assert EndsAt(all', base, x, m);
    }
  }

  lemma SyncStays(all: seq<Writer>, all': seq<Writer>, popped: nat, log: seq<Record>, log': seq<Record>, n: nat,
      n': nat)
    requires popped <= |all| && n <= |log| && n <= n' <= |log'| && SyncOk(all, popped, log, n) && all <= all'
        && log <= log'
    ensures SyncOk(all', popped, log', n')
  {
    assert Unfold(IN_GROUP_SYNC);
    FlatGrow(log', n, n');
    assert log'[..n] == log[..n];
    forall i | 0 <= i < popped && all'[i].sync && all'[i].batch.Some? ensures Covered(all', log', n', i) {
      assert Covered(all, log, n, i);
      assert all'[..i + 1] == all[..i + 1];
    }
  }

  lemma GroupStays(all: seq<Writer>, all': seq<Writer>, popped: nat, count: nat, ops: seq<(UserKey, Op)>)
    requires GroupOk(all, popped, count, ops) && all <= all'
    ensures GroupOk(all', popped, count, ops)
  {
    assert Unfold(IN_GROUP);
    assert all'[popped..popped + count] == all[popped..popped + count];
  }

  lemma JoinKeepsInv(s: State, s': State, w: Writer)
    requires Inv(s) && Join(s, s', w)
    ensures Inv(s')
  {
    assert s'.all[..s.popped] == s.all[..s.popped];
    if s.phase.Writing? {
      GroupStays(s.all, s'.all, s.popped, s.phase.count, s.phase.ops);
    }
    SnapshotsStay(s.all, s.popped, s'.all, s.popped, s.base, s.snapshots);
    SyncStays(s.all, s'.all, s.popped, s.log, s.log, s.syncedLog, s.syncedLog);
  }

  lemma SkippedNothing(all: seq<Writer>, popped: nat, log: seq<Record>, n: nat)
    requires popped < |all| && all[popped].batch.None? && n <= |log| && SyncOk(all, popped, log, n)
    ensures Ops(all[..popped + 1]) == Ops(all[..popped]) && SyncOk(all, popped + 1, log, n)
  {
    assert Unfold(IN_GROUP_SYNC);
    assert all[..popped + 1][..popped] == all[..popped];
  }

  lemma SkipKeepsInv(s: State, s': State)
    requires Inv(s) && Skip(s, s')
    ensures Inv(s')
  {
    SkippedNothing(s.all, s.popped, s.log, s.syncedLog);
    SnapshotsStay(s.all, s.popped, s.all, s.popped + 1, s.base, s.snapshots);
  }

  lemma GroupIsOk(all: seq<Writer>, popped: nat, count: nat, ops: seq<(UserKey, Op)>)
    requires popped < |all| && IsGroup(all[popped..], count) && ops == Ops(all[popped..][..count])
    ensures GroupOk(all, popped, count, ops)
  {
    assert all[popped..][..count] == all[popped..popped + count];
    forall j | popped <= j < popped + count && all[j].sync ensures all[popped].sync {
      assert j > popped ==> Joins(all[popped..], j - popped);
    }
  }

  lemma BuildKeepsInv(s: State, s': State, count: nat)
    requires Inv(s) && Build(s, s', count)
    ensures Inv(s')
  {
    GroupIsOk(s.all, s.popped, count, s'.phase.ops);
    assert Inserted(s'.phase) == [];
  }

  lemma LogGrows(base: nat, log: seq<Record>, r: Record)
    requires LogOk(base, log) && r.first == base + 1 + |Flat(log)|
    ensures LogOk(base, log + [r]) && Flat(log + [r]) == Flat(log) + r.ops
  {
    assert Unfold(IN_GROUP_LOG);
    assert (log + [r])[..|log|] == log;
    forall i | 0 <= i < |log| + 1 ensures (log + [r])[i].first == base + 1 + |Flat((log + [r])[..i])| {
      assert (log + [r])[..i] == log[..i];
      assert i == |log| ==> log[..i] == log;
    }
  }

  lemma AddLogRecordKeepsInv(s: State, s': State)
    requires Inv(s) && AddLogRecord(s, s')
    ensures Inv(s')
  {
    assert Done(s) + [] == Done(s);
    LogGrows(s.base, s.log, Record(s.lastSequence + 1, s.phase.ops));
    SyncStays(s.all, s.all, s.popped, s.log, s'.log, s.syncedLog, s.syncedLog);
  }

  lemma SyncKeepsInv(s: State, s': State)
    requires Inv(s) && Sync(s, s')
    ensures Inv(s')
  {
    SyncStays(s.all, s.all, s.popped, s.log, s.log, s.syncedLog, |s.log|);
  }

  lemma NumberedOneMore(first: nat, done: seq<(UserKey, Op)>, ops: seq<(UserKey, Op)>, k: nat)
    requires k < |ops| && first + |done| + |ops| <= MAX_SEQUENCE + 1
    ensures Numbered(first, done + ops[..k + 1]) == Numbered(first, done + ops[..k])
        + [Entry(ops[k].0, first + |done| + k, ops[k].1)]
  {
  }

  lemma InsertOneKeepsInv(s: State, s': State)
    requires Inv(s) && InsertOne(s, s')
    ensures Inv(s')
  {
    NumberedOneMore(s.base + 1, Done(s), s.phase.ops, s.phase.inserted);
  }

  lemma WholeLog(log: seq<Record>)
    ensures Flat(log[..|log|]) == Flat(log)
  {
    assert log[..|log|] == log;
  }

  lemma {:induction false} OpsGrow(all: seq<Writer>, i: nat, j: nat)
    requires i <= j <= |all|
    ensures |Ops(all[..i])| <= |Ops(all[..j])|
  {
    OpsSplit(all, i, j);
  }

  lemma {:induction false} GroupDone(all: seq<Writer>, popped: nat, count: nat, ops: seq<(UserKey, Op)>)
    requires GroupOk(all, popped, count, ops)
    ensures Ops(all[..popped + count]) == Ops(all[..popped]) + ops
    ensures forall j :: popped <= j < popped + count && all[j].sync ==> all[popped].sync
  {
    assert Unfold(IN_GROUP);
    OpsSplit(all, popped, popped + count);
  }

  /** The whole log covers every member of the group. */
  lemma MemberCovered(all: seq<Writer>, end: nat, log: seq<Record>, i: nat)
    requires i < end <= |all| && |Flat(log)| == |Ops(all[..end])|
    ensures Covered(all, log, |log|, i)
  {
    WholeLog(log);
    OpsGrow(all, i + 1, end);
  }

  lemma {:induction false} GroupSynced(all: seq<Writer>, popped: nat, count: nat, ops: seq<(UserKey, Op)>,
      log: seq<Record>, n: nat)
    requires GroupOk(all, popped, count, ops) && n <= |log| && SyncOk(all, popped, log, n)
    requires Flat(log) == Ops(all[..popped]) + ops && (all[popped].sync ==> n == |log|)
    ensures SyncOk(all, popped + count, log, n) && Ops(all[..popped + count]) == Ops(all[..popped]) + ops
  {
    GroupDone(all, popped, count, ops);
    forall i | 0 <= i < popped + count && all[i].sync && all[i].batch.Some? ensures Covered(all, log, n, i) {
      if i >= popped {
        MemberCovered(all, popped + count, log, i);
      } else {
        assert Unfold(IN_GROUP_SYNC);
      }
    }
  }

  lemma FinishKeepsInv(s: State, s': State)
    requires Inv(s) && Finish(s, s')
    ensures Inv(s')
  {
    GroupSynced(s.all, s.popped, s.phase.count, s.phase.ops, s.log, s.syncedLog);
    assert s.phase.ops[..s.phase.inserted] == s.phase.ops && Done(s') + [] == Done(s');
    SnapshotsStay(s.all, s.popped, s.all, s'.popped, s.base, s.snapshots);
  }

  lemma SnapshotKeepsInv(s: State, s': State)
    requires Inv(s) && Snapshot(s, s')
    ensures Inv(s')
  {
    assert Unfold(IN_GROUP_SNAPSHOT);
    assert EndsAt(s.all, s.base, s.lastSequence, s.popped);
  }

  lemma NextKeepsInv(s: State, s': State)
    requires Inv(s) && Next(s, s')
    ensures Inv(s')
  {
    if w :| Join(s, s', w) {
      JoinKeepsInv(s, s', w);
    } else if Skip(s, s') {
      SkipKeepsInv(s, s');
    } else if count :| Build(s, s', count) {
      BuildKeepsInv(s, s', count);
    } else if AddLogRecord(s, s') {
      AddLogRecordKeepsInv(s, s');
    } else if Sync(s, s') {
      SyncKeepsInv(s, s');
    } else if InsertOne(s, s') {
      InsertOneKeepsInv(s, s');
    } else if Finish(s, s') {
      FinishKeepsInv(s, s');
    } else if Snapshot(s, s') {
      SnapshotKeepsInv(s, s');
    } else {
      assert Lead(s, s');
    }
  }

  // ---------------------------------------------------------------------------------------------
  // What that means
  // ---------------------------------------------------------------------------------------------

  ghost predicate IsRun(run: seq<State>) {
    |run| > 0 && Init(run[0]) && forall k :: 0 < k < |run| ==> Next(run[k - 1], run[k])
  }

  lemma {:induction false} RunKeepsInv(run: seq<State>, k: nat)
    requires IsRun(run) && k < |run|
    ensures Inv(run[k])
  {
    if k == 0 {
      InitInv(run[0]);
    } else {
      RunKeepsInv(run, k - 1);
      NextKeepsInv(run[k - 1], run[k]);
    }
  }

  /** Entry e comes from writer i. */
  ghost predicate From(s: State, e: Entry, i: nat)
    requires i < |s.all|
  {
    s.base + |Ops(s.all[..i])| < e.sn <= s.base + |Ops(s.all[..i + 1])|
  }

  /** In every state: the log holds the operations of all finished writers, once each and in the order of the queue, and
      at most the group now being written after them; and a memtable entry's sequence number is its operation's place in
      that order. */
  lemma LogIsInOrder(s: State)
    requires Inv(s)
    ensures s.popped <= |s.all| && Flat(s.log) == Done(s) + Logged(s.phase)
    ensures forall i :: 0 <= i < |s.mem| ==>
      i < |Flat(s.log)| && s.mem[i].sn == s.base + 1 + i && (s.mem[i].key, s.mem[i].op) == Flat(s.log)[i]
  {
  }

  lemma DoneIsSynced(s: State, i: nat)
    requires Inv(s) && i < s.popped <= |s.all| && s.all[i].sync && s.all[i].batch.Some?
    ensures s.syncedLog <= |s.log| && Covered(s.all, s.log, s.syncedLog, i)
  {
    assert Unfold(IN_GROUP_SYNC);
  }

  /** A sequence number that a reader may use lies between two batches. */
  lemma Boundary(s: State, x: nat) returns (m: nat)
    requires Inv(s) && (x == s.lastSequence || x in s.snapshots)
    ensures m <= s.popped && EndsAt(s.all, s.base, x, m)
  {
    assert Unfold(IN_GROUP_SNAPSHOT);
    assert EndsAt(s.all, s.base, s.lastSequence, s.popped);
    m :| 0 <= m <= s.popped && EndsAt(s.all, s.base, x, m);
  }

  lemma OnOneSide(all: seq<Writer>, base: nat, x: nat, m: nat, i: nat)
    requires m <= |all| && i < |all| && EndsAt(all, base, x, m)
    ensures base + |Ops(all[..i + 1])| <= x || base + |Ops(all[..i])| >= x
  {
    if i < m {
      OpsSplit(all, i + 1, m);
    } else {
      OpsSplit(all, m, i);
    }
  }

  lemma AllOrNothing(s: State, x: nat, i: nat)
    requires Inv(s) && i < |s.all| && (x == s.lastSequence || x in s.snapshots)
    ensures || (forall e :: e in s.mem && From(s, e, i) ==> e.sn <= x)
            || (forall e :: e in s.mem && From(s, e, i) ==> e.sn > x)
  {
    var m := Boundary(s, x);
    OnOneSide(s.all, s.base, x, m, i);
  }

  lemma UpToIsThere(s: State, x: nat, n: nat)
    requires Inv(s) && (x == s.lastSequence || x in s.snapshots) && s.base < n <= x
    ensures exists e :: e in s.mem && e.sn == n
  {
    var m := Boundary(s, x);
    OpsSplit(s.all, m, s.popped);
    assert s.mem[n - s.base - 1].sn == n;
  }

  // Over whole runs.

  lemma LoggedOnceInOrder(run: seq<State>, k: nat)
    requires IsRun(run) && k < |run|
    ensures var s := run[k]; s.popped <= |s.all| && Flat(s.log) == Done(s) + Logged(s.phase)
    ensures var s := run[k]; forall i :: 0 <= i < |s.mem| ==>
      i < |Flat(s.log)| && s.mem[i].sn == s.base + 1 + i && (s.mem[i].key, s.mem[i].op) == Flat(s.log)[i]
  {
    RunKeepsInv(run, k);
    LogIsInOrder(run[k]);
  }

  /** Whenever Write has returned to a caller that asked for a sync, its operations are in a synced record. */
  lemma SyncedWhenDone(run: seq<State>, k: nat, i: nat)
    requires IsRun(run) && k < |run| && i < run[k].popped
    requires run[k].popped <= |run[k].all| && run[k].all[i].sync && run[k].all[i].batch.Some?
    ensures run[k].syncedLog <= |run[k].log| && Covered(run[k].all, run[k].log, run[k].syncedLog, i)
  {
    RunKeepsInv(run, k);
    DoneIsSynced(run[k], i);
  }

  /** Whenever a reader looks, it sees all of a batch or nothing of it. */
  lemma BatchesAreAtomic(run: seq<State>, k: nat, x: nat, i: nat)
    requires IsRun(run) && k < |run| && i < |run[k].all| && (x == run[k].lastSequence || x in run[k].snapshots)
    ensures var s := run[k];
      || (forall e :: e in s.mem && From(s, e, i) ==> e.sn <= x)
      || (forall e :: e in s.mem && From(s, e, i) ==> e.sn > x)
  {
    RunKeepsInv(run, k);
    AllOrNothing(run[k], x, i);
  }

  /** A snapshot never loses what it saw: the entries of finished batches up to it are all in the memtable. */
  lemma SnapshotIsComplete(run: seq<State>, k: nat, x: nat, n: nat)
    requires IsRun(run) && k < |run| && (x == run[k].lastSequence || x in run[k].snapshots) && run[k].base < n <= x
    ensures exists e :: e in run[k].mem && e.sn == n
  {
    RunKeepsInv(run, k);
    UpToIsThere(run[k], x, n);
  }
}
