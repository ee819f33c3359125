/** The window in which a version is being installed: LogAndApply frees the mutex while it writes its MANIFEST record,
    so readers and writers go on with the old version, and a crash may find the record there or not
    (db/version_set.cc, db/db_impl.cc). */
module Installs {
  import opened Wrappers
  import opened DbFormat
  import opened Versions
  import opened Engine
  import opened EngineRuns
  import opened EngineCompact
  import opened Manifest
  import opened Durable
  import opened Recovery
  import opened Disk
  import opened DurableRuns

  /** The store as its users find it, and, while a version is being installed, the store as it will be then. */
  datatype Store = Store(now: Sys, next: Option<Sys>)

  /** Events that write a MANIFEST record. */
  predicate IsEdit(ev: Event) {
    ev.FlushTable? || ev.FinishCompaction? || ev.MoveFile?
  }

  /** Events of other threads; those that pick, compact or delete files belong to the thread that installs. */
  predicate IsOthers(ev: Event) {
    ev.Put? || ev.NewMemTable? || (ev.InMemory? && !ev.step.Start?)
  }

  /** The same store with more file numbers drawn. */
  function Bumped(sys: Sys, nextFile: nat): Sys {
    sys.(st := sys.st.(nextFile := nextFile))
  }

  /** The record is being written.  The numbers of its files have been drawn, and the old version stays referenced as
      long as it is the current one. */
  ghost predicate Begin(s: Store, ev: Event, s': Store) {
    && s.next.None? && IsEdit(ev) && s'.next.Some?
    && (exists held :: Pin(s.now, held) && Happens(held, ev, s'.next.value))
    && s'.now == Bumped(s.now, s'.next.value.st.nextFile)
  }

  /** Another thread writes, switches memtables, or takes or releases a snapshot. */
  ghost predicate Meanwhile(s: Store, ev: Event, s': Store) {
    && s.next.Some? && s'.next.Some? && IsOthers(ev)
    && Happens(s.now, ev, s'.now) && Happens(s.next.value, ev, s'.next.value)
  }

  /** A reader takes a reference to the version that is still the current one. */
  ghost predicate PinMeanwhile(s: Store, s': Store) {
    && s.next.Some? && Pin(s.now, s'.now)
    && s'.next == Some(s.next.value.(pinned := s.next.value.pinned + multiset{s.now.st.version}))
  }

  ghost predicate UnpinMeanwhile(s: Store, s': Store, v: Version) {
    && s.next.Some? && s'.next.Some? && v in s.now.pinned
    && Unpin(s.now, s'.now, v) && Unpin(s.next.value, s'.next.value, v)
  }

  /** AppendVersion: the old version loses the reference that it had as the current one. */
  ghost predicate Install(s: Store, s': Store) {
    s.next.Some? && s'.next.None? && Unpin(s.next.value, s'.now, s.now.st.version)
  }

  /** Outside the window everything is as before. */
  ghost predicate Plain(s: Store, ev: Event, s': Store) {
    s.next.None? && s'.next.None? && !IsEdit(ev) && Happens(s.now, ev, s'.now)
  }

  /** A crash in the window finds the record in the MANIFEST or not. */
  ghost predicate CrashInside(s: Store, s': Store, d: Disk, files: seq<File>, newLog: nat) {
    && s.next.Some? && s'.next.None?
    && (CrashAndRecover(s.now, s'.now, d, files, newLog) || CrashAndRecover(s.next.value, s'.now, d, files, newLog))
  }

  datatype Step =
    | BeginEdit(ev: Event)
    | OtherThread(ev: Event)
    | PinOld
    | UnpinAny(v: Version)
    | InstallNew
    | PlainEvent(ev: Event)
    | CrashNow(d: Disk, files: seq<File>, newLog: nat)

  ghost predicate StoreNext(s: Store, step: Step, s': Store) {
    forall k {:trigger Unfold(k)} :: k == IN_INSTALL && Unfold(k) ==>
      match step
      case BeginEdit(ev) => Begin(s, ev, s')
      case OtherThread(ev) => Meanwhile(s, ev, s')
      case PinOld => PinMeanwhile(s, s')
      case UnpinAny(v) => UnpinMeanwhile(s, s', v)
      case InstallNew => Install(s, s')
      case PlainEvent(ev) => Plain(s, ev, s')
      case CrashNow(d, files, newLog) => CrashInside(s, s', d, files, newLog)
  }

  // ---------------------------------------------------------------------------------------------
  // What every step keeps
  // ---------------------------------------------------------------------------------------------

  /** The two stores hold the same write groups, for the same readers. */
  ghost predicate SameContents(a: Sys, b: Sys) {
    && Groups(a) == Groups(b) && a.synced == b.synced
    && a.st.lastSequence == b.st.lastSequence && a.st.snapshots == b.st.snapshots
  }

  ghost predicate StoreInv(s: Store) {
    && SysInv(s.now)
    && (s.next.Some? ==>
          && SysInv(s.next.value) && SameContents(s.now, s.next.value)
          && s.next.value.pinned == s.now.pinned + multiset{s.now.st.version})
  }

  lemma BumpKeepsSys(sys: Sys, nextFile: nat)
    requires SysInv(sys) && sys.st.nextFile <= nextFile
    ensures SysInv(Bumped(sys, nextFile)) && Groups(Bumped(sys, nextFile)) == Groups(sys)
  {
    SysHasParts(sys);
    BumpKeepsInv(sys.st, nextFile);
    BumpKeepsLogs(sys, nextFile);
    BumpKeepsFiles(sys, nextFile);
    PartsMakeSys(Bumped(sys, nextFile));
  }

  lemma BumpKeepsLogs(sys: Sys, nextFile: nat)
    requires LogsOk(sys) && sys.st.nextFile <= nextFile
    ensures LogsOk(Bumped(sys, nextFile)) && Groups(Bumped(sys, nextFile)) == Groups(sys)
  {
    SameLogs(sys, Bumped(sys, nextFile));
  }

  lemma BumpKeepsFiles(sys: Sys, nextFile: nat)
    requires SysFilesOk(sys) && sys.st.nextFile <= nextFile
    ensures SysFilesOk(Bumped(sys, nextFile))
  {
    SeenOkMonotone(sys.manifest, sys.st.version, sys.st.nextFile, nextFile, sys.st.running);
  }

  /** References may be added and taken away as long as the set of referenced versions does not grow. */
  lemma FewerPinsKeepInv(sys: Sys, pinned: multiset<Version>)
    requires SysInv(sys) && forall v :: v in pinned ==> v in sys.pinned
    ensures SysInv(sys.(pinned := pinned)) && Groups(sys.(pinned := pinned)) == Groups(sys)
  {
    SysHasParts(sys);
    SameLogs(sys, sys.(pinned := pinned));
    PartsMakeSys(sys.(pinned := pinned));
  }

  lemma PinGroups(sys: Sys, held: Sys)
    requires SysInv(sys) && Pin(sys, held)
    ensures SysInv(held) && Groups(held) == Groups(sys)
  {
    PinKeepsInv(sys, held, sys.st.version);
  }

  /** An edit leaves the rest of the store alone. */
  lemma EditKeepsContents(held: Sys, ev: Event, next: Sys)
    requires SysInv(held) && IsEdit(ev) && Happens(held, ev, next)
    ensures SysInv(next) && SameContents(held, next) && next.pinned == held.pinned
    ensures held.st.nextFile <= next.st.nextFile
  {
    SysNextKeepsInv(held, ev, next);
    assert Unfold(IN_STEPS) && Unfold(IN_FINISH);
  }

  lemma BeginKeepsInv(s: Store, ev: Event, s': Store)
    requires StoreInv(s) && Begin(s, ev, s')
    ensures StoreInv(s') && Groups(s'.now) == Groups(s.now) && s'.now.synced == s.now.synced
  {
    var held :| Pin(s.now, held) && Happens(held, ev, s'.next.value);
    PinGroups(s.now, held);
    EditKeepsContents(held, ev, s'.next.value);
    BumpKeepsSys(s.now, s'.next.value.st.nextFile);
  }

  lemma OthersAgree(a: Sys, b: Sys, ev: Event, a': Sys, b': Sys)
    requires a.st.lastSequence == b.st.lastSequence && a.st.snapshots == b.st.snapshots && a.synced == b.synced
    requires |Groups(a)| == |Groups(b)| && IsOthers(ev) && Happens(a, ev, a') && Happens(b, ev, b')
    ensures a'.st.lastSequence == b'.st.lastSequence && a'.st.snapshots == b'.st.snapshots && a'.synced == b'.synced
    ensures a'.pinned == a.pinned && b'.pinned == b.pinned && a'.st.version == a.st.version
  {
    assert Unfold(IN_STEPS);
  }

  lemma OthersGroups(a: Sys, b: Sys, ev: Event, groups: seq<Batch>, groups': seq<Batch>)
    requires Groups(a) == Groups(b) && a.st.lastSequence == b.st.lastSequence && IsOthers(ev)
    requires GroupsAfter(a, ev, groups) && GroupsAfter(b, ev, groups')
    ensures groups == groups'
  {
  }

  /** What other threads do is the same to both. */
  lemma OthersKeepContents(a: Sys, b: Sys, ev: Event, a': Sys, b': Sys)
    requires SysInv(a) && SysInv(b) && SameContents(a, b) && IsOthers(ev) && Happens(a, ev, a') && Happens(b, ev, b')
    ensures SysInv(a') && SysInv(b') && SameContents(a', b')
    ensures a'.pinned == a.pinned && b'.pinned == b.pinned && a'.st.version == a.st.version
  {
    SysNextKeepsInv(a, ev, a');
    SysNextKeepsInv(b, ev, b');
    OthersAgree(a, b, ev, a', b');
    OthersGroups(a, b, ev, Groups(a'), Groups(b'));
  }

  lemma MeanwhileKeepsInv(s: Store, ev: Event, s': Store)
    requires StoreInv(s) && Meanwhile(s, ev, s')
    ensures StoreInv(s') && GroupsAfter(s.now, ev, Groups(s'.now))
  {
    OthersKeepContents(s.now, s.next.value, ev, s'.now, s'.next.value);
    SysNextKeepsInv(s.now, ev, s'.now);
  }

  lemma PinMeanwhileKeepsInv(s: Store, s': Store)
    requires StoreInv(s) && PinMeanwhile(s, s')
    ensures StoreInv(s') && Groups(s'.now) == Groups(s.now) && s'.now.synced == s.now.synced
  {
    PinGroups(s.now, s'.now);
    FewerPinsKeepInv(s.next.value, s'.next.value.pinned);
  }

  lemma UnpinMeanwhileKeepsInv(s: Store, s': Store, v: Version)
    requires StoreInv(s) && UnpinMeanwhile(s, s', v)
    ensures StoreInv(s') && Groups(s'.now) == Groups(s.now) && s'.now.synced == s.now.synced
  {
    FewerPinsKeepInv(s.now, s'.now.pinned);
    FewerPinsKeepInv(s.next.value, s'.next.value.pinned);
  }

  lemma InstallKeepsInv(s: Store, s': Store)
    requires StoreInv(s) && Install(s, s')
    ensures StoreInv(s') && Groups(s'.now) == Groups(s.now) && s'.now.synced == s.now.synced
    ensures s'.now.pinned == s.now.pinned
  {
    FewerPinsKeepInv(s.next.value, s'.now.pinned);
  }

  lemma CrashInsideKeepsInv(s: Store, s': Store, d: Disk, files: seq<File>, newLog: nat)
    requires StoreInv(s) && CrashInside(s, s', d, files, newLog)
    ensures StoreInv(s') && IsSyncedPrefix(Groups(s'.now), Groups(s.now), s.now.synced)
  {
    if CrashAndRecover(s.now, s'.now, d, files, newLog) {
      CrashKeepsInv(s.now, s'.now, d, files, newLog);
    } else {
      CrashKeepsInv(s.next.value, s'.now, d, files, newLog);
    }
  }

  /** What a step does to the write groups that readers see. */
  ghost predicate StoreGroupsAfter(s: Store, step: Step, groups: seq<Batch>) {
    match step
    case OtherThread(ev) => GroupsAfter(s.now, ev, groups)
    case PlainEvent(ev) => GroupsAfter(s.now, ev, groups)
    case CrashNow(_, _, _) => IsSyncedPrefix(groups, Groups(s.now), s.now.synced)
    case _ => groups == Groups(s.now)
  }

  lemma StoreNextKeepsInv(s: Store, step: Step, s': Store)
    requires StoreInv(s) && StoreNext(s, step, s')
    ensures StoreInv(s') && StoreGroupsAfter(s, step, Groups(s'.now))
  {
    assert Unfold(IN_INSTALL);
    match step
    case BeginEdit(ev) => BeginKeepsInv(s, ev, s');
    case OtherThread(ev) => MeanwhileKeepsInv(s, ev, s');
    case PinOld => PinMeanwhileKeepsInv(s, s');
    case UnpinAny(v) => UnpinMeanwhileKeepsInv(s, s', v);
    case InstallNew => InstallKeepsInv(s, s');
    case PlainEvent(ev) => SysNextKeepsInv(s.now, ev, s'.now);
    case CrashNow(d, files, newLog) => CrashInsideKeepsInv(s, s', d, files, newLog);
  }

  // ---------------------------------------------------------------------------------------------
  // Runs
  // ---------------------------------------------------------------------------------------------

  ghost predicate IsStoreRun(run: seq<Store>, steps: seq<Step>, log: nat) {
    && |run| == |steps| + 1 && Fresh(run[0].now, log) && run[0].next.None?
    && forall i :: 0 <= i < |steps| ==> StoreNext(run[i], steps[i], run[i + 1])
  }

  lemma {:induction false} StoreRunKeepsInv(run: seq<Store>, steps: seq<Step>, log: nat, n: nat)
    requires IsStoreRun(run, steps, log) && n <= |steps|
    ensures StoreInv(run[n])
    ensures n > 0 ==> StoreGroupsAfter(run[n - 1], steps[n - 1], Groups(run[n].now))
  {
    if n == 0 {
      FreshInv(run[0].now, log);
    } else {
      StoreRunKeepsInv(run, steps, log, n - 1);
      StoreNextKeepsInv(run[n - 1], steps[n - 1], run[n]);
    }
  }

  /** At any point of any run, in such a window or not and whatever crashed before, a reader sees the write groups that
      are still there, read as a multi-version map. */
  lemma ReadsInWindow(run: seq<Store>, steps: seq<Step>, log: nat, n: nat, u: UserKey, s: SeqNo)
    requires IsStoreRun(run, steps, log) && n <= |steps|
    requires s in run[n].now.st.snapshots || s == run[n].now.st.lastSequence
    ensures Answer(Lookup(run[n].now.st, u, s)) == Read(LogEntries(Groups(run[n].now)), u, s)
  {
    StoreRunKeepsInv(run, steps, log, n);
    var sys := run[n].now;
    SysHasParts(sys);
    InvParts(sys.st);
    LookupReadsHistory(sys.st, u, s);
    HistoryIsGroups(sys);
  }

  /** What the installing thread is about to put in place gives every reader the same answers. */
  lemma WindowIsInvisible(run: seq<Store>, steps: seq<Step>, log: nat, n: nat, u: UserKey, s: SeqNo)
    requires IsStoreRun(run, steps, log) && n <= |steps| && run[n].next.Some?
    requires s in run[n].now.st.snapshots || s == run[n].now.st.lastSequence
    ensures Answer(Lookup(run[n].next.value.st, u, s)) == Answer(Lookup(run[n].now.st, u, s))
  {
    StoreRunKeepsInv(run, steps, log, n);
    ReadsInWindow(run, steps, log, n, u, s);
    var sys := run[n].next.value;
    SysHasParts(sys);
    InvParts(sys.st);
    LookupReadsHistory(sys.st, u, s);
    HistoryIsGroups(sys);
  }

  /** In the window, too, the tables of every version that someone may read are there. */
  lemma TablesInWindow(run: seq<Store>, steps: seq<Step>, log: nat, n: nat, v: Version, f: File)
    requires IsStoreRun(run, steps, log) && n <= |steps|
    requires (v == run[n].now.st.version || v in run[n].now.pinned) && Engine.Holds(v, f)
    ensures f.number in run[n].now.tables && run[n].now.tables[f.number] == f
    ensures run[n].next.Some? ==>
        f.number in run[n].next.value.tables && run[n].next.value.tables[f.number] == f
  {
    StoreRunKeepsInv(run, steps, log, n);
    TablesOfSys(run[n].now, v, f);
    if run[n].next.Some? {
      assert v in run[n].next.value.pinned;
      TablesOfSys(run[n].next.value, v, f);
    }
  }

  lemma TablesOfSys(sys: Sys, v: Version, f: File)
    requires SysInv(sys) && (v == sys.st.version || v in sys.pinned) && Engine.Holds(v, f)
    ensures f.number in sys.tables && sys.tables[f.number] == f
  {
    SysHasParts(sys);
  }

  lemma CrashKeepsSynced(sys: Sys, sys': Sys, d: Disk, files: seq<File>, newLog: nat, n: nat)
    requires SysInv(sys) && CrashAndRecover(sys, sys', d, files, newLog) && n <= sys.synced
    ensures sys'.synced >= sys.synced && sys.synced <= |Groups(sys)|
    ensures n <= |Groups(sys')| && Groups(sys')[..n] == Groups(sys)[..n]
  {
    var ev := Crash(d, files, newLog);
    assert Happens(sys, ev, sys');
    SysNextKeepsInv(sys, ev, sys');
    SyncedPrefixStays(sys, ev, sys', n);
  }

  lemma SyncedStoreStep(s: Store, step: Step, s': Store, n: nat)
    requires StoreInv(s) && StoreNext(s, step, s') && StoreGroupsAfter(s, step, Groups(s'.now)) && n <= s.now.synced
    ensures s'.now.synced >= s.now.synced && s.now.synced <= |Groups(s.now)|
    ensures n <= |Groups(s'.now)| && Groups(s'.now)[..n] == Groups(s.now)[..n]
  {
    assert Unfold(IN_INSTALL);
    SyncedWithinGroups(s.now);
    match step
    case BeginEdit(ev) => BeginKeepsInv(s, ev, s');
    case OtherThread(ev) => SyncedPrefixStays(s.now, ev, s'.now, n);
    case PinOld => PinMeanwhileKeepsInv(s, s');
    case UnpinAny(v) => UnpinMeanwhileKeepsInv(s, s', v);
    case InstallNew => InstallKeepsInv(s, s');
    case PlainEvent(ev) => SyncedPrefixStays(s.now, ev, s'.now, n);
    case CrashNow(d, files, newLog) =>
      if CrashAndRecover(s.now, s'.now, d, files, newLog) {
        CrashKeepsSynced(s.now, s'.now, d, files, newLog, n);
      } else {
        CrashKeepsSynced(s.next.value, s'.now, d, files, newLog, n);
      }
  }

  lemma SyncedRunStep(run: seq<Store>, steps: seq<Step>, log: nat, j: nat, n: nat)
    requires IsStoreRun(run, steps, log) && 0 < j <= |steps| && n <= run[j - 1].now.synced
    ensures run[j].now.synced >= run[j - 1].now.synced && run[j - 1].now.synced <= |Groups(run[j - 1].now)|
    ensures n <= |Groups(run[j].now)| && Groups(run[j].now)[..n] == Groups(run[j - 1].now)[..n]
  {
    StoreRunKeepsInv(run, steps, log, j);
    StoreRunKeepsInv(run, steps, log, j - 1);
    SyncedStoreStep(run[j - 1], steps[j - 1], run[j], n);
  }

  /** Once synced, a write group keeps its place for the rest of the run, also through crashes in such a window. */
  lemma {:induction false} SyncedGroupsStayInWindow(run: seq<Store>, steps: seq<Step>, log: nat, i: nat, j: nat)
    requires IsStoreRun(run, steps, log) && i <= j <= |steps|
    ensures run[i].now.synced <= |Groups(run[i].now)| && run[i].now.synced <= run[j].now.synced
    ensures run[j].now.synced <= |Groups(run[j].now)|
    ensures Groups(run[j].now)[..run[i].now.synced] == Groups(run[i].now)[..run[i].now.synced]
    decreases j
  {
    StoreRunKeepsInv(run, steps, log, j);
    SyncedWithinGroups(run[j].now);
    if i < j {
      SyncedGroupsStayInWindow(run, steps, log, i, j - 1);
      SyncedRunStep(run, steps, log, j, run[i].now.synced);
    }
  }
}
