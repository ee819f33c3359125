/** Whole runs of the store with crashes (db/db_impl.cc). */
module DurableRuns {
  import opened Wrappers
  import opened DbFormat
  import opened Versions
  import opened Picking
  import opened Edits
  import opened Engine
  import opened EngineRuns
  import opened Durable
  import opened Disk

  datatype Event =
    | Put(ops: seq<(UserKey, Op)>, sync: bool)
    | NewMemTable
    | FlushTable(size: nat, maxBytes: nat, level: nat)
    | PartialTable(f: File)
    | InMemory(step: Step)
    | FinishCompaction(outputs: seq<File>)
    | MoveFile(level: nat, chosen: File, limit: nat, maxBytes: nat, c: Compaction)
    | PinVersion
    | UnpinVersion(v: Version)
    | DeleteObsolete
    | Crash(d: Disk, files: seq<File>, newLog: nat)

  ghost predicate SysNext(sys: Sys, ev: Event, sys': Sys) {
    match ev
    case Put(ops, sync) => LoggedWrite(sys, sys', ops, sync)
    case NewMemTable => LoggedSwitch(sys, sys')
    case FlushTable(size, maxBytes, level) => LoggedFlush(sys, sys', size, maxBytes, level)
    case PartialTable(f) => WriteTable(sys, sys', f)
    case InMemory(step) => MemoryOnly(sys, sys', step)
    case FinishCompaction(outputs) => LoggedFinish(sys, sys', outputs)
    case MoveFile(level, chosen, limit, maxBytes, c) =>
      LoggedMove(sys, sys', level, chosen, limit, maxBytes, c) && MoveClean(sys.st.version, c)
    case PinVersion => Pin(sys, sys')
    case UnpinVersion(v) => Unpin(sys, sys', v)
    case DeleteObsolete => CollectGarbage(sys, sys')
    case Crash(d, files, newLog) => CrashAndRecover(sys, sys', d, files, newLog)
  }

  ghost predicate Happens(sys: Sys, ev: Event, sys': Sys) {
    forall k {:trigger Unfold(k)} :: k == IN_STEPS && Unfold(k) ==> SysNext(sys, ev, sys')
  }

  /** What an event does to the write groups: a write adds one at the end, a crash may cut some unsynced ones off the
      end, nothing else touches them. */
  ghost predicate GroupsAfter(sys: Sys, ev: Event, groups: seq<Batch>) {
    match ev
    case Put(ops, _) => groups == Groups(sys) + [Batch(sys.st.lastSequence + 1, ops)]
    case Crash(_, _, _) => IsSyncedPrefix(groups, Groups(sys), sys.synced)
    case _ => groups == Groups(sys)
  }

  lemma SysNextKeepsInv(sys: Sys, ev: Event, sys': Sys)
    requires SysInv(sys) && Happens(sys, ev, sys')
    ensures SysInv(sys') && GroupsAfter(sys, ev, Groups(sys'))
  {
    assert Unfold(IN_STEPS);
    match ev
    case Put(ops, sync) => LoggedWriteKeepsInv(sys, sys', ops, sync);
    case NewMemTable => LoggedSwitchKeepsInv(sys, sys');
    case FlushTable(size, maxBytes, level) => LoggedFlushKeepsInv(sys, sys', size, maxBytes, level);
    case PartialTable(f) => WriteTableKeepsInv(sys, sys', f);
    case InMemory(step) => MemoryOnlyKeepsInv(sys, sys', step);
    case FinishCompaction(outputs) => LoggedFinishKeepsInv(sys, sys', outputs);
    case MoveFile(level, chosen, limit, maxBytes, c) => LoggedMoveKeepsInv(sys, sys', level, chosen, limit, maxBytes,
        c);
    case PinVersion => PinKeepsInv(sys, sys', sys.st.version);
    case UnpinVersion(v) => PinKeepsInv(sys, sys', v);
    case DeleteObsolete => CollectGarbageKeepsInv(sys, sys');
    case Crash(d, files, newLog) => CrashKeepsInv(sys, sys', d, files, newLog);
  }

  /** A freshly created store: an empty log, and a MANIFEST with one record. */
  ghost predicate Fresh(sys: Sys, log: nat) {
    forall k {:trigger Unfold(k)} :: k == IN_STEPS && Unfold(k) ==>
    && sys.st == State([], None, EMPTY_VERSION, [], 0, log + 1, None, {}, 0)
    && sys == Sys(sys.st, map[log := []], log, log, [Record(sys.st, log, {}, [])], map[], {}, multiset{},
                  [EMPTY_VERSION, EMPTY_VERSION], [], 0)
  }

  lemma FreshFilesOk(e: Edit, nextFile: nat)
    requires e.deleted == {} && e.added == []
    ensures FilesOk([e], [EMPTY_VERSION, EMPTY_VERSION], map[], multiset{}, EMPTY_VERSION, nextFile, None)
  {
    ValidAppend([], e);
    assert [] + [e] == [e];
    assert Applied(EMPTY_VERSION, {}, [], EMPTY_VERSION);
    forall l: nat, n: nat ensures !SeenIn([e], l, n) {
      SeenAppend([], e, l, n);
    }
  }

  lemma FreshLogsOk(sys: Sys, log: nat)
    requires Fresh(sys, log)
    ensures LogsOk(sys) && Groups(sys) == []
  {
    assert Unfold(IN_STEPS);
    assert LogEntries([]) == {};
  }

  lemma FreshInv(sys: Sys, log: nat)
    requires Fresh(sys, log)
    ensures SysInv(sys) && Groups(sys) == []
  {
    assert Unfold(IN_STEPS);
    InitialInv(sys.st);
    FreshFilesOk(sys.manifest[0], log + 1);
    FreshLogsOk(sys, log);
    LastRecordFits(sys.st, sys.manifest[0], log);
  }

  ghost predicate IsSysRun(states: seq<Sys>, events: seq<Event>, log: nat) {
    && |states| == |events| + 1 && Fresh(states[0], log)
    && forall i :: 0 <= i < |events| ==> Happens(states[i], events[i], states[i + 1])
  }

  lemma {:induction false} SysRunKeepsInv(states: seq<Sys>, events: seq<Event>, log: nat, n: nat)
    requires IsSysRun(states, events, log) && n <= |events|
    ensures SysInv(states[n])
    ensures n > 0 ==> GroupsAfter(states[n - 1], events[n - 1], Groups(states[n]))
  {
    if n == 0 {
      FreshInv(states[0], log);
    } else {
      SysRunKeepsInv(states, events, log, n - 1);
      SysNextKeepsInv(states[n - 1], events[n - 1], states[n]);
    }
  }

  /** At any point of any run, crashes included, a reader at a live snapshot or at the last sequence number sees the
      write groups that are still there, read as a multi-version map. */
  lemma ReadsSurvivingGroups(states: seq<Sys>, events: seq<Event>, log: nat, n: nat, u: UserKey, s: SeqNo)
    requires IsSysRun(states, events, log) && n <= |events|
    requires s in states[n].st.snapshots || s == states[n].st.lastSequence
    ensures Answer(Lookup(states[n].st, u, s)) == Read(LogEntries(Groups(states[n])), u, s)
  {
    SysRunKeepsInv(states, events, log, n);
    assert Inv(states[n].st) by { assert Unfold(IN_SYSTEM); }
    InvParts(states[n].st);
    LookupReadsHistory(states[n].st, u, s);
    HistoryIsGroups(states[n]);
  }

  lemma SyncedStep(states: seq<Sys>, events: seq<Event>, log: nat, j: nat, n: nat)
    requires IsSysRun(states, events, log) && 0 < j <= |events| && n <= states[j - 1].synced
    ensures states[j].synced >= states[j - 1].synced && states[j - 1].synced <= |Groups(states[j - 1])|
    ensures n <= |Groups(states[j])| && Groups(states[j])[..n] == Groups(states[j - 1])[..n]
  {
    SysRunKeepsInv(states, events, log, j - 1);
    SysRunKeepsInv(states, events, log, j);
    SyncedPrefixStays(states[j - 1], events[j - 1], states[j], n);
  }

  /** Once synced, a write group is never lost: it keeps its place among the groups for the rest of the run. */
  lemma {:induction false} SyncedGroupsStay(states: seq<Sys>, events: seq<Event>, log: nat, i: nat, j: nat)
    requires IsSysRun(states, events, log) && i <= j <= |events|
    ensures states[i].synced <= |Groups(states[i])| && states[i].synced <= states[j].synced <= |Groups(states[j])|
    ensures Groups(states[j])[..states[i].synced] == Groups(states[i])[..states[i].synced]
    decreases j
  {
    SysRunKeepsInv(states, events, log, j);
    SyncedWithinGroups(states[j]);
    if i < j {
      SyncedGroupsStay(states, events, log, i, j - 1);
      SyncedStep(states, events, log, j, states[i].synced);
    }
  }

  lemma SyncedWithinGroups(sys: Sys)
    requires SysInv(sys)
    ensures sys.synced <= |Groups(sys)|
  {
    assert Unfold(IN_SYSTEM) && Unfold(IN_LOGS);
  }

  /** What an event does to the count of synced groups. */
  lemma SyncedCountGrows(sys: Sys, ev: Event, sys': Sys)
    requires Happens(sys, ev, sys') && sys.synced <= |Groups(sys)|
    ensures !ev.Crash? ==> sys'.synced >= sys.synced
    ensures ev.Crash? ==> sys'.synced == |sys'.flushedLog|
  {
    assert Unfold(IN_STEPS);
  }

  /** After a crash everything that is left is in tables, and counts as synced. */
  lemma AllSyncedAfterCrash(sys: Sys, ev: Event, sys': Sys)
    requires Happens(sys, ev, sys') && ev.Crash?
    ensures Groups(sys') == sys'.flushedLog
  {
    assert Unfold(IN_STEPS);
  }

  lemma SyncedPrefixStays(sys: Sys, ev: Event, sys': Sys, n: nat)
    requires SysInv(sys) && Happens(sys, ev, sys') && GroupsAfter(sys, ev, Groups(sys')) && n <= sys.synced
    ensures sys'.synced >= sys.synced && sys.synced <= |Groups(sys)|
    ensures n <= |Groups(sys')| && Groups(sys')[..n] == Groups(sys)[..n]
  {
    SyncedWithinGroups(sys);
    SyncedCountGrows(sys, ev, sys');
    if ev.Crash? {
      AllSyncedAfterCrash(sys, ev, sys');
    }
  }

  /** At any point of any run, garbage collection included, the tables of the current version and of every version
      that a reader holds are there. */
  lemma TablesAreThere(states: seq<Sys>, events: seq<Event>, log: nat, n: nat, v: Version, f: File)
    requires IsSysRun(states, events, log) && n <= |events|
    requires (v == states[n].st.version || v in states[n].pinned) && Holds(v, f)
    ensures f.number in states[n].tables && states[n].tables[f.number] == f
  {
    SysRunKeepsInv(states, events, log, n);
    SysHasParts(states[n]);
  }

  /** After a write with the sync option everything written so far is synced. */
  lemma SyncWriteSyncs(sys: Sys, sys': Sys, ops: seq<(UserKey, Op)>)
    requires SysInv(sys) && LoggedWrite(sys, sys', ops, true)
    ensures sys'.synced == |Groups(sys')|
  {
    LoggedWriteKeepsInv(sys, sys', ops, true);
  }
}
