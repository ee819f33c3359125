/** The store with its files: write-ahead logs, MANIFEST and tables (db/db_impl.cc, db/version_set.cc). */
module Durable {
  import opened Wrappers
  import opened DbFormat
  import opened Versions
  import opened Picking
  import opened Edits
  import opened Engine
  import opened EngineWrites
  import opened EngineCompact
  import opened EngineRuns
  import opened Manifest

  /** One log record: a write group under the sequence number of its first operation. */
  datatype Batch = Batch(first: nat, ops: seq<(UserKey, Op)>)

  ghost function BatchEntries(b: Batch): set<Entry> {
    if b.first + |b.ops| <= MAX_SEQUENCE then OpEntries(b.first, b.ops) else {}
  }

  ghost function LogEntries(bs: seq<Batch>): set<Entry> {
    set b, e | b in bs && e in BatchEntries(b) :: e
  }

  /** Records in the order of their sequence numbers, all below "limit". */
  ghost predicate InSequence(bs: seq<Batch>, limit: nat) {
    && (forall i :: 0 <= i < |bs| ==> bs[i].first + |bs[i].ops| <= limit)
    && (forall i, j :: 0 <= i < j < |bs| ==> bs[i].first + |bs[i].ops| <= bs[j].first)
  }

  datatype Sys = Sys(
    st: State,
    logs: map<nat, seq<Batch>>,   // log files by number
    logNumber: nat,               // logs below this one are no longer needed
    logfile: nat,                 // the log being written
    manifest: seq<Edit>,
    tables: map<nat, File>,       // table files by number
    pending: set<nat>,            // tables being written
    pinned: multiset<Version>,    // versions held by readers, once for each of them
    chain: seq<Version>,          // the version after each edit of the manifest
    flushedLog: seq<Batch>,       // every record whose entries are in tables
    synced: nat)                  // how many records are known to be on stable storage

  ghost function MemLog(sys: Sys): seq<Batch> { if sys.logfile in sys.logs then sys.logs[sys.logfile] else [] }

  ghost function ImmLog(sys: Sys): seq<Batch> {
    if sys.st.imm.Some? && sys.logNumber in sys.logs then sys.logs[sys.logNumber] else []
  }

  /** Every write group in order. */
  ghost function Groups(sys: Sys): seq<Batch> {
    sys.flushedLog + ImmLog(sys) + MemLog(sys)
  }

  // ---------------------------------------------------------------------------------------------
  // Invariant
  // ---------------------------------------------------------------------------------------------

  /** The logs from logNumber on hold exactly what is in the memtables. */
  ghost predicate LogsOk(sys: Sys) {
    forall k {:trigger Unfold(k)} :: k == IN_LOGS && Unfold(k) ==>
    && sys.logfile in sys.logs && Entries(sys.st.mem) == LogEntries(sys.logs[sys.logfile])
    && (if sys.st.imm.Some? then
          sys.logNumber < sys.logfile && sys.logNumber in sys.logs
          && Entries(sys.st.imm.value) == LogEntries(sys.logs[sys.logNumber])
        else sys.logNumber == sys.logfile)
    && (forall n :: n in sys.logs && n >= sys.logNumber ==> n == sys.logNumber || n == sys.logfile)
    && (forall n :: n in sys.logs ==> n < sys.st.nextFile)
    && sys.st.flushed == LogEntries(sys.flushedLog)
    && InSequence(Groups(sys), sys.st.lastSequence + 1) && sys.synced <= |Groups(sys)|
  }

  ghost predicate HasNumber(v: Version, n: nat) {
    exists f :: Holds(v, f) && f.number == n
  }

  /** File number n has been at level l according to the manifest. */
  ghost predicate SeenIn(manifest: seq<Edit>, l: nat, n: nat) {
    Seen(EMPTY_VERSION, manifest, |manifest|, l, n)
  }

  /** A number that has been at level l: allocated, in use if it is from a running compaction's time, and never
      above its file's present level. */
  ghost predicate NumberOk(v: Version, nextFile: nat, running: Option<Running>, l: nat, n: nat) {
    && n < nextFile
    && (running.Some? && n >= running.value.first ==> HasNumber(v, n))
    && (forall m, f :: 0 <= m < NUM_LEVELS && f in v[m] && f.number == n ==> l <= m)
  }

  ghost predicate SeenOk(manifest: seq<Edit>, v: Version, nextFile: nat, running: Option<Running>) {
    forall l: nat, n: nat :: SeenIn(manifest, l, n) ==> NumberOk(v, nextFile, running, l, n)
  }

  ghost predicate ManifestChain(manifest: seq<Edit>, chain: seq<Version>, v: Version) {
    && manifest != [] && |chain| == |manifest| + 1 && chain[|manifest|] == v
    && forall k {:trigger Unfold(k)} :: k == IN_EDITS && Unfold(k) ==>
         ValidEdits(EMPTY_VERSION, manifest) && Chain(EMPTY_VERSION, manifest, chain)
  }

  /** The numbers in the last record of the manifest. */
  ghost predicate LastRecord(e: Edit, v: Version, logNumber: nat, st: State) {
    && e.logNumber == Some(logNumber)
    && e.nextFile.Some? && e.nextFile.value <= st.nextFile && (forall f :: Holds(v, f) ==> f.number < e.nextFile.value)
    && e.lastSequence.Some? && st.floor <= e.lastSequence.value <= st.lastSequence
        && UpTo(st.flushed, e.lastSequence.value)
  }

  ghost predicate OnDisk(tables: map<nat, File>, v: Version) {
    forall f :: Holds(v, f) ==> f.number in tables && tables[f.number] == f
  }

  /** The numbers of a version readers hold are allocated, and those of a running compaction's time still in use. */
  ghost predicate NumbersKnown(held: Version, v: Version, nextFile: nat, running: Option<Running>) {
    forall f :: Holds(held, f) ==>
      f.number < nextFile && (running.Some? && f.number >= running.value.first ==> HasNumber(v, f.number))
  }

  ghost predicate TablesOnDisk(tables: map<nat, File>, pinned: multiset<Version>, v: Version, nextFile: nat,
      running: Option<Running>) {
    && OnDisk(tables, v)
    && (forall held :: held in pinned ==> OnDisk(tables, held) && NumbersKnown(held, v, nextFile, running))
  }

  /** The manifest and the table files fit the current version. */
  ghost predicate FilesOk(manifest: seq<Edit>, chain: seq<Version>, tables: map<nat, File>, pinned: multiset<Version>,
      v: Version,
                          nextFile: nat, running: Option<Running>) {
    && ManifestChain(manifest, chain, v)
    && SeenOk(manifest, v, nextFile, running)
    && TablesOnDisk(tables, pinned, v, nextFile, running)
  }

  ghost predicate SysFilesOk(sys: Sys) {
    FilesOk(sys.manifest, sys.chain, sys.tables, sys.pinned, sys.st.version, sys.st.nextFile, sys.st.running)
  }

  ghost predicate SysInv(sys: Sys) {
    forall k {:trigger Unfold(k)} :: k == IN_SYSTEM && Unfold(k) ==>
    && Inv(sys.st) && LogsOk(sys) && SysFilesOk(sys)
    && LastRecord(sys.manifest[|sys.manifest| - 1], sys.st.version, sys.logNumber, sys.st)
    && (sys.st.running.Some? ==> sys.st.running.value.first <= sys.st.nextFile)
    && InSequence(sys.flushedLog, sys.manifest[|sys.manifest| - 1].lastSequence.value + 1)
  }

  lemma SysHasParts(sys: Sys)
    requires SysInv(sys)
    ensures Inv(sys.st) && LogsOk(sys) && SysFilesOk(sys)
    ensures LastRecord(sys.manifest[|sys.manifest| - 1], sys.st.version, sys.logNumber, sys.st)
    ensures sys.st.running.Some? ==> sys.st.running.value.first <= sys.st.nextFile
    ensures InSequence(sys.flushedLog, sys.manifest[|sys.manifest| - 1].lastSequence.value + 1)
  {
    assert Unfold(IN_SYSTEM);
  }

  lemma PartsMakeSys(sys: Sys)
    requires Inv(sys.st) && LogsOk(sys) && SysFilesOk(sys)
    requires LastRecord(sys.manifest[|sys.manifest| - 1], sys.st.version, sys.logNumber, sys.st)
    requires sys.st.running.Some? ==> sys.st.running.value.first <= sys.st.nextFile
    requires InSequence(sys.flushedLog, sys.manifest[|sys.manifest| - 1].lastSequence.value + 1)
    ensures SysInv(sys)
  {
  }

  // ---------------------------------------------------------------------------------------------
  // Steps
  // ---------------------------------------------------------------------------------------------

  /** A write group goes to the log, then to the memtable. */
  ghost predicate LoggedWrite(sys: Sys, sys': Sys, ops: seq<(UserKey, Op)>, sync: bool) {
    && sys.logfile in sys.logs
    && WriteStep(sys.st, sys'.st, ops)
    && var log := sys.logs[sys.logfile] + [Batch(sys.st.lastSequence + 1, ops)];
       sys' == sys.(st := sys'.st, logs := sys.logs[sys.logfile := log],
                    synced := if sync then |Groups(sys)| + 1 else sys.synced)
  }

  /** MakeRoomForWrite: a new log file together with the new memtable. */
  ghost predicate LoggedSwitch(sys: Sys, sys': Sys) {
    && sys.st.imm.None?
    && var n := sys.st.nextFile;
       sys' == sys.(st := sys.st.(imm := Some(sys.st.mem), mem := [], nextFile := n + 1),
                    logs := sys.logs[n := []], logfile := n)
  }

  /** VersionSet::LogAndApply adds the current numbers to every edit. */
  ghost function Record(st: State, logNumber: nat, deleted: set<(nat, nat)>, added: seq<(nat, File)>): Edit {
    Edit(Some(logNumber), Some(st.nextFile), Some(st.lastSequence), deleted, added)
  }

  /** BuildTable, then one MANIFEST record that also retires the old log. */
  ghost predicate LoggedFlush(sys: Sys, sys': Sys, size: nat, maxBytes: nat, level: nat) {
    && FlushStep(sys.st, sys'.st, size, maxBytes, level)
    && sys.logNumber in sys.logs
    && var f := RawFile.File(sys.st.nextFile, size, sys.st.imm.value);
       var added: seq<(nat, File)> := if sys.st.imm.value == [] then [] else [(level, f)];
       sys' == sys.(st := sys'.st, logNumber := sys.logfile,
                    manifest := sys.manifest + [Record(sys'.st, sys.logfile, {}, added)],
                    chain := sys.chain + [sys'.st.version],
                    tables := if sys.st.imm.value == [] then sys.tables else sys.tables[f.number := f],
                    flushedLog := sys.flushedLog + sys.logs[sys.logNumber])
  }

  /** A table file that is, or was to be, part of a flush or compaction; not yet in any version. */
  ghost predicate WriteTable(sys: Sys, sys': Sys, f: File) {
    && f.number == sys.st.nextFile
    && sys' == sys.(st := sys.st.(nextFile := sys.st.nextFile + 1), tables := sys.tables[f.number := f],
                    pending := sys.pending + {f.number})
  }

  /** tables' is tables with the files fs written. */
  ghost predicate TablesWritten(tables: map<nat, File>, fs: seq<File>, tables': map<nat, File>) {
    && (forall f :: f in fs ==> f.number in tables' && tables'[f.number] == f)
    && (forall n :: n in tables && (forall f :: f in fs ==> f.number != n) ==> n in tables' && tables'[n] == tables[n])
  }

  ghost predicate LoggedFinish(sys: Sys, sys': Sys, outputs: seq<File>) {
    && FinishStep(sys.st, sys'.st, outputs)
    && TablesWritten(sys.tables, outputs, sys'.tables)
    && var c := sys.st.running.value.c;
       sys' == sys.(st := sys'.st,
                    manifest := sys.manifest
                        + [Record(sys'.st, sys.logNumber, InputNumbers(c), AtLevel(c.level + 1, outputs))],
                    chain := sys.chain + [sys'.st.version],
                    tables := sys'.tables,
                    pending := sys.pending - (set f | f in outputs :: f.number))
  }

  ghost predicate LoggedMove(sys: Sys, sys': Sys, level: nat, chosen: File, limit: nat, maxBytes: nat, c: Compaction) {
    && MoveStep(sys.st, sys'.st, level, chosen, limit, maxBytes, c)
    && sys' == sys.(st := sys'.st,
                    manifest := sys.manifest
                        + [Record(sys'.st, sys.logNumber, {(level, c.in0[0].number)}, [(level + 1, c.in0[0])])],
                    chain := sys.chain + [sys'.st.version])
  }

  /** Steps that touch no file. */
  ghost predicate MemoryOnly(sys: Sys, sys': Sys, step: Step) {
    && (step.Start? || step.TakeSnapshot? || step.ReleaseSnapshot?)
    && Next(sys.st, step, sys'.st) && CleanPick(sys.st, step)
    && sys' == sys.(st := sys'.st)
  }

  ghost predicate Pin(sys: Sys, sys': Sys) {
    sys' == sys.(pinned := sys.pinned + multiset{sys.st.version})
  }

  ghost predicate Unpin(sys: Sys, sys': Sys, v: Version) {
    sys' == sys.(pinned := sys.pinned - multiset{v})
  }

  /** AddLiveFiles with the pending outputs. */
  ghost predicate Live(sys: Sys, n: nat) {
    || n in sys.pending || HasNumber(sys.st.version, n)
    || (exists v :: v in sys.pinned && HasNumber(v, n))
    || (sys.st.running.Some? && HasNumber(sys.st.running.value.base, n))
  }

  /** DeleteObsoleteFiles. */
  ghost predicate CollectGarbage(sys: Sys, sys': Sys) {
    sys' == sys.(logs := map n | n in sys.logs && n >= sys.logNumber :: sys.logs[n],
                 tables := map n | n in sys.tables && Live(sys, n) :: sys.tables[n])
  }

  /** What is left has a use: logs that recovery may read, and tables of versions that are current, held by a reader or
      being compacted, or that are being written. */
  lemma GarbageIsGone(sys: Sys, sys': Sys)
    requires CollectGarbage(sys, sys')
    ensures forall n :: n in sys'.logs ==> n >= sys.logNumber
    ensures forall n :: n in sys'.tables && n !in sys.pending ==> exists v, f ::
      && (v == sys.st.version || v in sys.pinned || (sys.st.running.Some? && v == sys.st.running.value.base))
      && Holds(v, f) && f.number == n
  {
    forall n | n in sys'.tables && n !in sys.pending
      ensures exists v, f ::
        && (v == sys.st.version || v in sys.pinned || (sys.st.running.Some? && v == sys.st.running.value.base))
        && Holds(v, f) && f.number == n
    {
      assert Live(sys, n);
      if v :| v in sys.pinned && HasNumber(v, n) {
        var f :| Holds(v, f) && f.number == n;
      }
    }
  }

  // ---------------------------------------------------------------------------------------------
  // Writes and switches
  // ---------------------------------------------------------------------------------------------

  lemma LogEntriesOfConcat(a: seq<Batch>, b: seq<Batch>)
    ensures LogEntries(a + b) == LogEntries(a) + LogEntries(b)
  {
  }

  lemma LogEntriesOfOne(b: Batch)
    ensures LogEntries([b]) == BatchEntries(b)
  {
    assert b in [b];
  }

  lemma BumpKeepsInv(st: State, nextFile: nat)
    requires Inv(st) && nextFile >= st.nextFile
    ensures Inv(st.(nextFile := nextFile))
  {
    assert Unfold(IN_ENGINE);
    assert TablesOk(st.version, nextFile, st.flushed, st.floor);
  }

  /** The history is what the write groups say. */
  lemma HistoryIsGroups(sys: Sys)
    requires SysInv(sys)
    ensures History(sys.st) == LogEntries(Groups(sys))
  {
    assert Unfold(IN_SYSTEM);
    assert Unfold(IN_LOGS);
    LogEntriesOfConcat(sys.flushedLog + ImmLog(sys), MemLog(sys));
    LogEntriesOfConcat(sys.flushedLog, ImmLog(sys));
    assert LogEntries([]) == {};
  }

  lemma SeenOkMonotone(manifest: seq<Edit>, v: Version, nextFile: nat, nextFile': nat, running: Option<Running>)
    requires SeenOk(manifest, v, nextFile, running) && nextFile <= nextFile'
    ensures SeenOk(manifest, v, nextFile', running) && SeenOk(manifest, v, nextFile', None)
  {
  }

  lemma InSequenceAppend(bs: seq<Batch>, b: Batch, limit: nat)
    requires InSequence(bs, b.first) && b.first + |b.ops| <= limit
    ensures InSequence(bs + [b], limit)
  {
  }

  lemma WriteKeepsLogs(sys: Sys, sys': Sys, ops: seq<(UserKey, Op)>, sync: bool)
    requires LogsOk(sys) && LoggedWrite(sys, sys', ops, sync)
    requires Entries(sys'.st.mem) == Entries(sys.st.mem) + OpEntries(sys.st.lastSequence + 1, ops)
    ensures LogsOk(sys') && Groups(sys') == Groups(sys) + [Batch(sys.st.lastSequence + 1, ops)]
  {
    assert Unfold(IN_LOGS);
    var b := Batch(sys.st.lastSequence + 1, ops);
    assert Groups(sys') == Groups(sys) + [b];
    LogEntriesOfConcat(MemLog(sys), [b]);
    LogEntriesOfOne(b);
    InSequenceAppend(Groups(sys), b, sys'.st.lastSequence + 1);
  }

  lemma LastRecordOutlastsWrite(e: Edit, v: Version, logNumber: nat, st: State, st': State)
    requires LastRecord(e, v, logNumber, st) && st'.nextFile == st.nextFile && st'.floor == st.floor
        && st'.flushed == st.flushed
    requires st'.lastSequence >= st.lastSequence
    ensures LastRecord(e, v, logNumber, st')
  {
  }

  lemma LoggedWriteKeepsInv(sys: Sys, sys': Sys, ops: seq<(UserKey, Op)>, sync: bool)
    requires SysInv(sys) && LoggedWrite(sys, sys', ops, sync)
    ensures SysInv(sys')
    ensures Groups(sys') == Groups(sys) + [Batch(sys.st.lastSequence + 1, ops)]
  {
    SysHasParts(sys);
    WriteKeepsInv(sys.st, sys'.st, ops);
    MemAfterWrite(sys.st, sys'.st, ops);
    WriteKeepsLogs(sys, sys', ops, sync);
    LastRecordOutlastsWrite(sys.manifest[|sys.manifest| - 1], sys.st.version, sys.logNumber, sys.st, sys'.st);
    WritePartsMakeSys(sys, sys');
  }

  lemma WritePartsMakeSys(sys: Sys, sys': Sys)
    requires SysFilesOk(sys) && LogsOk(sys') && Inv(sys'.st)
    requires sys' == sys.(st := sys.st.(mem := sys'.st.mem, lastSequence := sys'.st.lastSequence), logs := sys'.logs,
        synced := sys'.synced)
    requires LastRecord(sys.manifest[|sys.manifest| - 1], sys.st.version, sys.logNumber, sys'.st)
    requires sys.st.running.Some? ==> sys.st.running.value.first <= sys.st.nextFile
    requires InSequence(sys.flushedLog, sys.manifest[|sys.manifest| - 1].lastSequence.value + 1)
    ensures SysInv(sys')
  {
    PartsMakeSys(sys');
  }

  lemma MemAfterWrite(st: State, st': State, ops: seq<(UserKey, Op)>)
    requires Inv(st) && WriteStep(st, st', ops)
    ensures Entries(st'.mem) == Entries(st.mem) + OpEntries(st.lastSequence + 1, ops)
  {
    assert Unfold(IN_ENGINE);
    assert forall e :: e in st.mem ==> e in Entries(st.mem);
    AddOpsAddsEntries(st.mem, st.lastSequence + 1, ops);
  }

  lemma SwitchKeepsLogs(sys: Sys, sys': Sys)
    requires LogsOk(sys) && LoggedSwitch(sys, sys')
    ensures LogsOk(sys') && Groups(sys') == Groups(sys)
  {
    assert Unfold(IN_LOGS);
    assert LogEntries([]) == {};
    assert Groups(sys') == Groups(sys);
  }

  lemma LoggedSwitchKeepsInv(sys: Sys, sys': Sys)
    requires SysInv(sys) && LoggedSwitch(sys, sys')
    ensures SysInv(sys') && Groups(sys') == Groups(sys)
  {
    assert Unfold(IN_SYSTEM);
    var n := sys.st.nextFile;
    BumpKeepsInv(sys.st, n + 1);
    SwitchKeepsInv(sys.st.(nextFile := n + 1), sys'.st);
    SwitchKeepsLogs(sys, sys');
    SeenOkMonotone(sys.manifest, sys.st.version, n, n + 1, sys.st.running);
  }

  lemma WriteTableKeepsInv(sys: Sys, sys': Sys, f: File)
    requires SysInv(sys) && WriteTable(sys, sys', f)
    ensures SysInv(sys') && Groups(sys') == Groups(sys)
  {
    assert Unfold(IN_SYSTEM);
    assert Unfold(IN_LOGS);
    BumpKeepsInv(sys.st, sys'.st.nextFile);
    SeenOkMonotone(sys.manifest, sys.st.version, sys.st.nextFile, sys'.st.nextFile, sys.st.running);
    VersionNumbers(sys.st);
    assert LogsOk(sys');
    OnDiskAfterWrite(sys, f, sys'.tables);
  }

  lemma OnDiskAfterWrite(sys: Sys, f: File, tables': map<nat, File>)
    requires Inv(sys.st) && TablesOnDisk(sys.tables, sys.pinned, sys.st.version, sys.st.nextFile, sys.st.running)
    requires f.number == sys.st.nextFile && tables' == sys.tables[f.number := f]
    ensures TablesOnDisk(tables', sys.pinned, sys.st.version, sys.st.nextFile + 1, sys.st.running)
  {
    VersionNumbers(sys.st);
  }

  lemma VersionNumbers(st: State)
    requires Inv(st)
    ensures NumbersOk(st.version, st.nextFile)
  {
    assert Unfold(IN_ENGINE);
  }

  lemma MemoryOnlyKeepsInv(sys: Sys, sys': Sys, step: Step)
    requires SysInv(sys) && MemoryOnly(sys, sys', step)
    ensures SysInv(sys') && Groups(sys') == Groups(sys)
  {
    SysHasParts(sys);
    assert CleanStep(sys.st, step, sys'.st);
    NextKeepsInv(sys.st, step, sys'.st);
    SameLogs(sys, sys');
    KnownAtStart(sys, sys'.st.running);
    PartsMakeSys(sys');
  }

  /** When a compaction starts, no number from its time on has been used. */
  lemma KnownAtStart(sys: Sys, running: Option<Running>)
    requires SeenOk(sys.manifest, sys.st.version, sys.st.nextFile, sys.st.running)
    requires TablesOnDisk(sys.tables, sys.pinned, sys.st.version, sys.st.nextFile, sys.st.running)
    requires running == sys.st.running || (running.Some? && running.value.first == sys.st.nextFile)
    ensures SeenOk(sys.manifest, sys.st.version, sys.st.nextFile, running)
    ensures TablesOnDisk(sys.tables, sys.pinned, sys.st.version, sys.st.nextFile, running)
  {
  }

  lemma PinKeepsInv(sys: Sys, sys': Sys, v: Version)
    requires SysInv(sys) && (Pin(sys, sys') || Unpin(sys, sys', v))
    ensures SysInv(sys') && Groups(sys') == Groups(sys)
  {
    assert Unfold(IN_SYSTEM);
    assert Unfold(IN_LOGS);
    VersionNumbers(sys.st);
    assert LogsOk(sys');
    assert sys.st.running.Some? ==> forall f :: Holds(sys.st.version, f) ==> HasNumber(sys.st.version, f.number);
  }

  /** Nothing recovery or a reader needs is ever deleted. */
  lemma CollectGarbageKeepsInv(sys: Sys, sys': Sys)
    requires SysInv(sys) && CollectGarbage(sys, sys')
    ensures SysInv(sys') && Groups(sys') == Groups(sys)
  {
    assert Unfold(IN_SYSTEM);
    assert Unfold(IN_LOGS);
    forall f | Holds(sys.st.version, f) ensures Live(sys, f.number) {
      assert HasNumber(sys.st.version, f.number);
    }
    forall v, f | v in sys.pinned && Holds(v, f) ensures Live(sys, f.number) {
      assert HasNumber(v, f.number);
    }
    assert LogsOk(sys');
  }

  // ---------------------------------------------------------------------------------------------
  // Steps that add a MANIFEST record
  // ---------------------------------------------------------------------------------------------

  lemma SeenAppend(edits: seq<Edit>, e: Edit, l: nat, n: nat)
    ensures SeenIn(edits + [e], l, n) <==> SeenIn(edits, l, n) || n in NumbersAt(e.added, l)
  {
    var all := edits + [e];
    assert all[|edits|] == e;
    if i :| 0 <= i < |edits| && n in NumbersAt(edits[i].added, l) {
      assert all[i] == edits[i];
    }
    if i :| 0 <= i < |all| && n in NumbersAt(all[i].added, l) {
      assert i < |edits| ==> all[i] == edits[i];
    }
  }

  lemma SeenPrefix(edits: seq<Edit>, e: Edit, i: nat, l: nat, n: nat)
    requires i <= |edits|
    ensures Seen(EMPTY_VERSION, edits + [e], i, l, n) <==> Seen(EMPTY_VERSION, edits, i, l, n)
  {
    assert forall k :: 0 <= k < i ==> (edits + [e])[k] == edits[k];
  }

  /** The record is new: nothing it adds has been at that level before. */
  ghost predicate NewRecord(edits: seq<Edit>, e: Edit) {
    && LevelsInRange(e)
    && (forall p :: p in e.added ==> !SeenIn(edits, p.0, p.1.number) && (p.0, p.1.number) !in e.deleted)
    && NoNumberTwice(e.added)
  }

  lemma ValidAppend(edits: seq<Edit>, e: Edit)
    requires ValidEdits(EMPTY_VERSION, edits) && NewRecord(edits, e)
    ensures ValidEdits(EMPTY_VERSION, edits + [e])
  {
    assert Unfold(IN_EDITS);
    var all := edits + [e];
    forall i, p | 0 <= i < |all| && p in all[i].added
      ensures !Seen(EMPTY_VERSION, all, i, p.0, p.1.number) && (p.0, p.1.number) !in all[i].deleted
    {
      SeenPrefix(edits, e, i, p.0, p.1.number);
      assert i < |edits| ==> all[i] == edits[i];
    }
  }

  lemma ChainAppend(edits: seq<Edit>, chain: seq<Version>, v: Version, e: Edit, v': Version)
    requires ManifestChain(edits, chain, v) && NewRecord(edits, e) && Applied(v, e.deleted, e.added, v')
    ensures ManifestChain(edits + [e], chain + [v'], v')
  {
    assert Unfold(IN_EDITS);
    ValidAppend(edits, e);
    var all, vs := edits + [e], chain + [v'];
    forall i | 0 <= i < |all| ensures Applied(vs[i], all[i].deleted, all[i].added, vs[i + 1]) {
      if i < |edits| {
        assert all[i] == edits[i] && vs[i] == chain[i] && vs[i + 1] == chain[i + 1];
      }
    }
  }

  // ----- flush -----

  lemma FlushRecordIsNew(sys: Sys, e: Edit, level: nat, f: File)
    requires SeenOk(sys.manifest, sys.st.version, sys.st.nextFile, sys.st.running)
    requires e.deleted == {} && e.added == [(level, f)] && level < NUM_LEVELS && f.number == sys.st.nextFile
    ensures NewRecord(sys.manifest, e)
  {
  }

  lemma SeenOkAfterFlush(manifest: seq<Edit>, v: Version, nextFile: nat, running: Option<Running>, e: Edit, level: nat,
      f: File, v': Version)
    requires SeenOk(manifest, v, nextFile, running) && NumbersOk(v, nextFile) && level < NUM_LEVELS
    requires e.added == [(level, f)] && f.number == nextFile && Applied(v, {}, [(level, f)], v')
    ensures SeenOk(manifest + [e], v', nextFile + 1, running)
  {
    AppliedFiles(v, v', level, f, level, f);
    assert Holds(v', f);
    forall g | Holds(v, g) ensures Holds(v', g) {
      var m :| 0 <= m < NUM_LEVELS && g in v[m];
      AppliedFiles(v, v', level, f, m, g);
    }
    forall l: nat, n: nat | SeenIn(manifest + [e], l, n) ensures NumberOk(v', nextFile + 1, running, l, n) {
      SeenAppend(manifest, e, l, n);
      assert n in NumbersAt(e.added, l) ==> l == level && n == f.number;
      forall m, g | 0 <= m < NUM_LEVELS && g in v'[m] && g.number == n ensures l <= m {
        AppliedFiles(v, v', level, f, m, g);
        assert g in v[m] ==> Holds(v, g);
      }
    }
  }

  lemma OnDiskAfterFlush(tables: map<nat, File>, pinned: multiset<Version>, v: Version, running: Option<Running>,
      level: nat, f: File, v': Version)
    requires TablesOnDisk(tables, pinned, v, f.number, running) && NumbersOk(v, f.number) && level < NUM_LEVELS
    requires Applied(v, {}, [(level, f)], v')
    ensures TablesOnDisk(tables[f.number := f], pinned, v', f.number + 1, running)
  {
    forall g | Holds(v', g) ensures Holds(v, g) || g == f {
      var m :| 0 <= m < NUM_LEVELS && g in v'[m];
      AppliedFiles(v, v', level, f, m, g);
    }
    forall g | Holds(v, g) ensures Holds(v', g) {
      var m :| 0 <= m < NUM_LEVELS && g in v[m];
      AppliedFiles(v, v', level, f, m, g);
    }
    forall held, g | held in pinned && Holds(held, g) && running.Some? && g.number >= running.value.first
      ensures HasNumber(v', g.number)
    {
      var h :| Holds(v, h) && h.number == g.number;
    }
  }

  lemma InSequencePrefix(a: seq<Batch>, b: seq<Batch>, limit: nat)
    requires InSequence(a + b, limit)
    ensures InSequence(a, limit)
  {
    assert forall i :: 0 <= i < |a| ==> (a + b)[i] == a[i];
  }

  lemma FlushKeepsLogs(sys: Sys, sys': Sys, size: nat, maxBytes: nat, level: nat)
    requires LogsOk(sys) && LoggedFlush(sys, sys', size, maxBytes, level)
    ensures LogsOk(sys') && Groups(sys') == Groups(sys)
    ensures InSequence(sys'.flushedLog, sys'.st.lastSequence + 1)
  {
    assert Unfold(IN_LOGS);
    InSequencePrefix(sys'.flushedLog, MemLog(sys), sys.st.lastSequence + 1);
    LogEntriesOfConcat(sys.flushedLog, sys.logs[sys.logNumber]);
    assert sys.flushedLog + sys.logs[sys.logNumber] + [] == sys.flushedLog + sys.logs[sys.logNumber];
  }

  lemma FlushRecordIsLast(sys: Sys, sys': Sys, size: nat, maxBytes: nat, level: nat)
    requires Inv(sys'.st) && LoggedFlush(sys, sys', size, maxBytes, level)
    ensures LastRecord(sys'.manifest[|sys'.manifest| - 1], sys'.st.version, sys'.logNumber, sys'.st)
  {
    assert Unfold(IN_ENGINE);
  }

  /** With an empty memtable there is no table, only the record that retires the log. */
  lemma EmptyFlushKeepsInv(sys: Sys, sys': Sys, size: nat, maxBytes: nat, level: nat)
    requires SysInv(sys) && LoggedFlush(sys, sys', size, maxBytes, level) && sys.st.imm.value == []
    ensures SysInv(sys')
  {
    assert Unfold(IN_SYSTEM);
    var e := Record(sys'.st, sys.logfile, {}, []);
    FlushKeepsInv(sys.st, sys'.st, size, maxBytes, level);
    FlushKeepsLogs(sys, sys', size, maxBytes, level);
    FlushRecordIsLast(sys, sys', size, maxBytes, level);
    VersionNumbers(sys.st);
    assert Applied(sys.st.version, {}, [], sys.st.version);
    ChainAppend(sys.manifest, sys.chain, sys.st.version, e, sys.st.version);
    forall l: nat, n: nat | SeenIn(sys'.manifest, l, n) ensures SeenIn(sys.manifest, l, n) {
      SeenAppend(sys.manifest, e, l, n);
    }
    assert NumbersOk(sys.st.version, sys'.st.nextFile);
  }

  lemma FlushKeepsFiles(sys: Sys, sys': Sys, size: nat, maxBytes: nat, level: nat)
    requires SysFilesOk(sys) && NumbersOk(sys.st.version, sys.st.nextFile)
    requires LoggedFlush(sys, sys', size, maxBytes, level) && sys.st.imm.value != []
    ensures SysFilesOk(sys')
  {
    var v, v', n := sys.st.version, sys'.st.version, sys.st.nextFile;
    var f: File := RawFile.File(n, size, sys.st.imm.value);
    var e := Record(sys'.st, sys.logfile, {}, [(level, f)]);
    FlushRecordIsNew(sys, e, level, f);
    ChainAppend(sys.manifest, sys.chain, v, e, v');
    SeenOkAfterFlush(sys.manifest, v, n, sys.st.running, e, level, f, v');
    OnDiskAfterFlush(sys.tables, sys.pinned, v, sys.st.running, level, f, v');
  }

  lemma LoggedFlushKeepsInv(sys: Sys, sys': Sys, size: nat, maxBytes: nat, level: nat)
    requires SysInv(sys) && LoggedFlush(sys, sys', size, maxBytes, level)
    ensures SysInv(sys') && Groups(sys') == Groups(sys)
  {
    SysHasParts(sys);
    FlushKeepsLogs(sys, sys', size, maxBytes, level);
    if sys.st.imm.value == [] {
      EmptyFlushKeepsInv(sys, sys', size, maxBytes, level);
    } else {
      VersionNumbers(sys.st);
      FlushKeepsInv(sys.st, sys'.st, size, maxBytes, level);
      FlushRecordIsLast(sys, sys', size, maxBytes, level);
      FlushKeepsFiles(sys, sys', size, maxBytes, level);
      PartsMakeSys(sys');
    }
  }

  // ----- compaction -----

  /** Output numbers from the compaction's time on, none of them in use. */
  ghost predicate OutputsNew(v: Version, first: nat, outputs: seq<File>) {
    && (forall f :: f in outputs ==> first <= f.number)
    && (forall f, g :: Holds(v, f) && g in outputs ==> f.number != g.number)
  }

  lemma OutputNumbersNew(manifest: seq<Edit>, v: Version, nextFile: nat, r: Running, outputs: seq<File>, o: File,
      l: nat)
    requires SeenOk(manifest, v, nextFile, Some(r)) && o in outputs && OutputsNew(v, r.first, outputs)
    ensures !SeenIn(manifest, l, o.number)
  {
    assert SeenIn(manifest, l, o.number) ==> NumberOk(v, nextFile, Some(r), l, o.number);
  }

  lemma FinishRecordIsNew(manifest: seq<Edit>, v: Version, nextFile: nat, r: Running, outputs: seq<File>, e: Edit)
    requires SeenOk(manifest, v, nextFile, Some(r)) && RunningOk(v, r) && r.c.level + 1 < NUM_LEVELS
    requires OutputsNew(v, r.first, outputs)
    requires forall i, j :: 0 <= i < j < |outputs| ==> outputs[i].number != outputs[j].number
    requires e.deleted == InputNumbers(r.c) && e.added == AtLevel(r.c.level + 1, outputs)
    ensures NewRecord(manifest, e)
  {
    RunningParts(v, r);
    forall p | p in e.added ensures p.0 == r.c.level + 1 && !SeenIn(manifest, p.0, p.1.number)
        && (p.0, p.1.number) !in e.deleted {
      AtLevelHolds(r.c.level + 1, outputs, p.0, p.1);
      OutputNumbersNew(manifest, v, nextFile, r, outputs, p.1, p.0);
      InputNumbersAt(r.c, p.0, p.1.number);
      assert forall f :: f in r.c.in0 || f in r.c.in1 ==> Holds(v, f);
    }
  }

  lemma HoldsAfter(v: Version, c: Compaction, outputs: seq<File>, v': Version, g: File)
    requires After(v, c, outputs, v') && Holds(v', g)
    ensures Holds(v, g) || g in outputs
  {
    var m :| 0 <= m < NUM_LEVELS && g in v'[m];
    assert Stays(v, c, m, g) || g in outputs;
  }

  lemma SeenOkAfterFinish(manifest: seq<Edit>, v: Version, nextFile: nat, r: Running, outputs: seq<File>, e: Edit,
      v': Version, nextFile': nat)
    requires SeenOk(manifest, v, nextFile, Some(r)) && After(v, r.c, outputs, v') && nextFile <= nextFile'
    requires OutputsNew(v, r.first, outputs) && forall f :: f in outputs ==> f.number < nextFile'
    requires forall f, g :: f in outputs && g in outputs && f.number == g.number ==> f == g
    requires e.added == AtLevel(r.c.level + 1, outputs)
    ensures SeenOk(manifest + [e], v', nextFile', None)
  {
    forall l: nat, n: nat | SeenIn(manifest + [e], l, n) ensures NumberOk(v', nextFile', None, l, n) {
      SeenAppend(manifest, e, l, n);
      if n in NumbersAt(e.added, l) {
        var p :| p in e.added && p.0 == l && p.1.number == n;
        AtLevelHolds(r.c.level + 1, outputs, p.0, p.1);
        forall m, g | 0 <= m < NUM_LEVELS && g in v'[m] && g.number == n ensures l <= m {
          OutputLevel(v, r.c, outputs, v', m, g);
        }
      } else {
        forall m, g | 0 <= m < NUM_LEVELS && g in v'[m] && g.number == n ensures l <= m {
          if g in outputs {
            OutputNumbersNew(manifest, v, nextFile, r, outputs, g, l);
          } else {
            assert Stays(v, r.c, m, g);
          }
        }
      }
    }
  }

  /** A file of the new version whose number is an output's stands at the output level. */
  lemma OutputLevel(v: Version, c: Compaction, outputs: seq<File>, v': Version, m: nat, g: File)
    requires After(v, c, outputs, v') && m < NUM_LEVELS && g in v'[m]
    requires forall f, o :: Holds(v, f) && o in outputs ==> f.number != o.number
    ensures m == c.level + 1 || forall o :: o in outputs ==> o.number != g.number
  {
    if m != c.level + 1 {
      assert Stays(v, c, m, g);
      assert Holds(v, g);
    }
  }

  lemma OnDiskAfterFinish(tables: map<nat, File>, pinned: multiset<Version>, v: Version, nextFile: nat, r: Running,
      outputs: seq<File>,
                          v': Version, tables': map<nat, File>, nextFile': nat)
    requires TablesOnDisk(tables, pinned, v, nextFile, Some(r)) && After(v, r.c, outputs, v') && nextFile <= nextFile'
    requires OutputsNew(v, r.first, outputs) && TablesWritten(tables, outputs, tables')
    ensures TablesOnDisk(tables', pinned, v', nextFile', None)
  {
    forall g | Holds(v', g) ensures g.number in tables' && tables'[g.number] == g {
      HoldsAfter(v, r.c, outputs, v', g);
    }
    forall held, g | held in pinned && Holds(held, g) ensures g.number in tables' && tables'[g.number] == g {
      assert NumbersKnown(held, v, nextFile, Some(r));
    }
  }

  lemma FinishKeepsChain(manifest: seq<Edit>, chain: seq<Version>, v: Version, nextFile: nat, r: Running,
      outputs: seq<File>,
                         e: Edit, v': Version)
    requires ManifestChain(manifest, chain, v) && SeenOk(manifest, v, nextFile, Some(r)) && RunningOk(v, r)
    requires OutputsNew(v, r.first, outputs) && r.c.level + 1 < NUM_LEVELS
    requires forall i, j :: 0 <= i < j < |outputs| ==> outputs[i].number != outputs[j].number
    requires e.deleted == InputNumbers(r.c) && e.added == AtLevel(r.c.level + 1, outputs)
    requires Applied(v, e.deleted, e.added, v')
    ensures ManifestChain(manifest + [e], chain + [v'], v')
  {
    FinishRecordIsNew(manifest, v, nextFile, r, outputs, e);
    ChainAppend(manifest, chain, v, e, v');
  }

  lemma FinishKeepsFiles(manifest: seq<Edit>, chain: seq<Version>, tables: map<nat, File>, pinned: multiset<Version>,
      v: Version,
                         nextFile: nat, r: Running, outputs: seq<File>, e: Edit, v': Version, tables': map<nat, File>,
                             nextFile': nat)
    requires FilesOk(manifest, chain, tables, pinned, v, nextFile, Some(r)) && RunningOk(v, r)
    requires OutputsNew(v, r.first, outputs) && TablesWritten(tables, outputs, tables') && nextFile <= nextFile'
    requires forall f :: f in outputs ==> f.number < nextFile'
    requires forall i, j :: 0 <= i < j < |outputs| ==> outputs[i].number != outputs[j].number
    requires r.c.level + 1 < NUM_LEVELS && e.deleted == InputNumbers(r.c) && e.added == AtLevel(r.c.level + 1, outputs)
    requires Applied(v, e.deleted, e.added, v') && After(v, r.c, outputs, v')
    ensures FilesOk(manifest + [e], chain + [v'], tables', pinned, v', nextFile', None)
  {
    FinishKeepsChain(manifest, chain, v, nextFile, r, outputs, e, v');
    DistinctNumbers(outputs);
    SeenOkAfterFinish(manifest, v, nextFile, r, outputs, e, v', nextFile');
    OnDiskAfterFinish(tables, pinned, v, nextFile, r, outputs, v', tables', nextFile');
  }

  lemma DistinctNumbers(outputs: seq<File>)
    requires forall i, j :: 0 <= i < j < |outputs| ==> outputs[i].number != outputs[j].number
    ensures forall f, g :: f in outputs && g in outputs && f.number == g.number ==> f == g
  {
    forall f, g | f in outputs && g in outputs && f.number == g.number ensures f == g {
      var i, j :| 0 <= i < |outputs| && 0 <= j < |outputs| && outputs[i] == f && outputs[j] == g;
    }
  }

  lemma RunningIsOk(st: State)
    requires Inv(st) && st.running.Some?
    ensures RunningOk(st.version, st.running.value)
  {
    assert Unfold(IN_ENGINE);
  }

  lemma LastRecordFits(st: State, e: Edit, logNumber: nat)
    requires Inv(st) && e.logNumber == Some(logNumber) && e.nextFile == Some(st.nextFile)
        && e.lastSequence == Some(st.lastSequence)
    ensures LastRecord(e, st.version, logNumber, st)
  {
    assert Unfold(IN_ENGINE);
  }

  /** Steps that leave memtables and logs alone. */
  lemma SameLogs(sys: Sys, sys': Sys)
    requires LogsOk(sys) && sys'.st.nextFile >= sys.st.nextFile
    requires sys'.logs == sys.logs && sys'.logNumber == sys.logNumber && sys'.logfile == sys.logfile
    requires sys'.flushedLog == sys.flushedLog && sys'.synced == sys.synced
    requires sys'.st.mem == sys.st.mem && sys'.st.imm == sys.st.imm && sys'.st.flushed == sys.st.flushed
    requires sys'.st.lastSequence == sys.st.lastSequence
    ensures LogsOk(sys') && Groups(sys') == Groups(sys)
  {
    assert Unfold(IN_LOGS);
  }

  /** What FinishStep says of the output numbers and the new version. */
  lemma FinishStepParts(st: State, st': State, outputs: seq<File>, r: Running)
    requires FinishStep(st, st', outputs) && st.running == Some(r)
    requires RunningOk(st.version, r) && NumbersOk(st.version, st.nextFile)
    ensures OutputsNew(st.version, r.first, outputs) && st.nextFile <= st'.nextFile
    ensures forall f :: f in outputs ==> f.number < st'.nextFile
    ensures forall i, j :: 0 <= i < j < |outputs| ==> outputs[i].number != outputs[j].number
    ensures r.c.level + 1 < NUM_LEVELS && After(st.version, r.c, outputs, st'.version)
    ensures Applied(st.version, InputNumbers(r.c), AtLevel(r.c.level + 1, outputs), st'.version)
    ensures st' == st.(version := st'.version, nextFile := st'.nextFile, running := None, floor := st'.floor)
  {
    assert Unfold(IN_FINISH);
    FinishedIsAfter(st.version, st.nextFile, r, outputs, st'.version);
  }

  lemma LoggedFinishKeepsFiles(sys: Sys, sys': Sys, outputs: seq<File>, r: Running)
    requires SysFilesOk(sys) && LoggedFinish(sys, sys', outputs) && sys.st.running == Some(r)
    requires RunningOk(sys.st.version, r) && NumbersOk(sys.st.version, sys.st.nextFile)
    ensures SysFilesOk(sys')
  {
    FinishStepParts(sys.st, sys'.st, outputs, r);
    var e := Record(sys'.st, sys.logNumber, InputNumbers(r.c), AtLevel(r.c.level + 1, outputs));
    FinishKeepsFiles(sys.manifest, sys.chain, sys.tables, sys.pinned, sys.st.version, sys.st.nextFile, r, outputs, e,
                     sys'.st.version, sys'.tables, sys'.st.nextFile);
  }

  lemma LoggedFinishKeepsInv(sys: Sys, sys': Sys, outputs: seq<File>)
    requires SysInv(sys) && LoggedFinish(sys, sys', outputs)
    ensures SysInv(sys') && Groups(sys') == Groups(sys)
  {
    SysHasParts(sys);
    RunningIsOk(sys.st);
    VersionNumbers(sys.st);
    FinishStepParts(sys.st, sys'.st, outputs, sys.st.running.value);
    FinishKeepsInv(sys.st, sys'.st, outputs);
    LoggedFinishKeepsFiles(sys, sys', outputs, sys.st.running.value);
    LastRecordFits(sys'.st, sys'.manifest[|sys'.manifest| - 1], sys'.logNumber);
    SameLogs(sys, sys');
    PartsMakeSys(sys');
  }

  // ----- trivial move -----

  lemma MoveRecordIsNew(manifest: seq<Edit>, v: Version, nextFile: nat, e: Edit, level: nat, f: File)
    requires SeenOk(manifest, v, nextFile, None) && level + 1 < NUM_LEVELS && f in v[level]
    requires e.deleted == {(level, f.number)} && e.added == [(level + 1, f)]
    ensures NewRecord(manifest, e)
  {
    assert SeenIn(manifest, level + 1, f.number) ==> NumberOk(v, nextFile, None, level + 1, f.number);
  }

  lemma SeenOkAfterMove(manifest: seq<Edit>, v: Version, nextFile: nat, c: Compaction, e: Edit, f: File, v': Version)
    requires SeenOk(manifest, v, nextFile, None) && NumbersOk(v, nextFile) && NumbersOk(v', nextFile)
        && After(v, c, [f], v')
    requires c.level + 1 < NUM_LEVELS && c.in0 == [f] && c.in1 == [] && f in v[c.level] && Recent(v)
        && e.added == [(c.level + 1, f)]
    ensures SeenOk(manifest + [e], v', nextFile, None)
  {
    assert Holds(v, f);
    forall l: nat, n: nat | SeenIn(manifest + [e], l, n) ensures NumberOk(v', nextFile, None, l, n) {
      SeenAppend(manifest, e, l, n);
      assert n in NumbersAt(e.added, l) ==> l == c.level + 1 && n == f.number;
      forall m, g | 0 <= m < NUM_LEVELS && g in v'[m] && g.number == n ensures l <= m {
        assert Stays(v, c, m, g) || (m == c.level + 1 && g in [f]);
        if Stays(v, c, m, g) {
          assert Holds(v, g);
          MovedStands(v, c, f, m, g);
        }
      }
    }
  }

  /** A file that stays has another number than the moved one. */
  lemma MovedStands(v: Version, c: Compaction, f: File, m: nat, g: File)
    requires Recent(v) && NumbersAgree(v) && c.in0 == [f] && c.level < NUM_LEVELS && f in v[c.level]
        && Stays(v, c, m, g)
    ensures g.number != f.number
  {
    assert Holds(v, f) && Holds(v, g);
    if g.number == f.number {
      OneHome(v, c.level, f, m, g, Smallest(f));
    }
  }

  ghost predicate NumbersAgree(v: Version) {
    forall f, g :: Holds(v, f) && Holds(v, g) && f.number == g.number ==> f == g
  }

  lemma OnDiskAfterMove(tables: map<nat, File>, pinned: multiset<Version>, v: Version, nextFile: nat, c: Compaction,
      f: File, v': Version)
    requires TablesOnDisk(tables, pinned, v, nextFile, None) && After(v, c, [f], v') && c.level < NUM_LEVELS
        && f in v[c.level]
    ensures TablesOnDisk(tables, pinned, v', nextFile, None)
  {
    assert Holds(v, f);
    forall g | Holds(v', g) ensures Holds(v, g) {
      HoldsAfter(v, c, [f], v', g);
    }
  }

  lemma MoveKeepsFiles(sys: Sys, sys': Sys, level: nat, chosen: File, limit: nat, maxBytes: nat, c: Compaction)
    requires SysFilesOk(sys) && Recent(sys.st.version) && NumbersOk(sys.st.version, sys.st.nextFile)
    requires NumbersOk(sys'.st.version, sys.st.nextFile)
    requires LoggedMove(sys, sys', level, chosen, limit, maxBytes, c)
    ensures SysFilesOk(sys')
  {
    var v, v', f := sys.st.version, sys'.st.version, c.in0[0];
    var e := Record(sys'.st, sys.logNumber, {(level, f.number)}, [(level + 1, f)]);
    PickIsSound(v, level, chosen, limit, c);
    assert c.in0 == [f];
    assert f in v[level] by { assert Unfold(IN_PICKS) && f in c.in0; }
    MovedIsAfter(v, c, f, v', sys.st.nextFile);
    MoveRecordIsNew(sys.manifest, v, sys.st.nextFile, e, level, f);
    ChainAppend(sys.manifest, sys.chain, v, e, v');
    SeenOkAfterMove(sys.manifest, v, sys.st.nextFile, c, e, f, v');
    OnDiskAfterMove(sys.tables, sys.pinned, v, sys.st.nextFile, c, f, v');
  }

  lemma VersionIsRecent(st: State)
    requires Inv(st)
    ensures Recent(st.version) && NumbersOk(st.version, st.nextFile)
  {
    assert Unfold(IN_ENGINE);
  }

  lemma LoggedMoveKeepsInv(sys: Sys, sys': Sys, level: nat, chosen: File, limit: nat, maxBytes: nat, c: Compaction)
    requires SysInv(sys) && LoggedMove(sys, sys', level, chosen, limit, maxBytes, c) && MoveClean(sys.st.version, c)
    ensures SysInv(sys') && Groups(sys') == Groups(sys)
  {
    assert Unfold(IN_SYSTEM);
    MoveKeepsInv(sys.st, sys'.st, level, chosen, limit, maxBytes, c);
    VersionIsRecent(sys.st);
    VersionNumbers(sys'.st);
    MoveKeepsFiles(sys, sys', level, chosen, limit, maxBytes, c);
    LastRecordFits(sys'.st, sys'.manifest[|sys'.manifest| - 1], sys'.logNumber);
    SameLogs(sys, sys');
  }
}
