/** What a crash leaves and what recovery makes of it: nothing but files (db/db_impl.cc: Recover, RecoverLogFile, Open;
    db/version_set.cc: Recover). */
module Disk {
  import opened Wrappers
  import opened DbFormat
  import opened Versions
  import opened Edits
  import opened Engine
  import opened EngineRuns
  import opened Manifest
  import opened Durable
  import opened Recovery

  // ---------------------------------------------------------------------------------------------
  // The MANIFEST names files; it does not hold them
  // ---------------------------------------------------------------------------------------------

  /** An entry's internal key. */
  function KeyOf(e: Entry): Entry {
    e.(op := if e.op.Deletion? then Deletion else Value([]))
  }

  /** What an edit says of a file: number, size, smallest and largest internal key. */
  function Outline(f: File): File {
    RawFile.File(f.number, f.size, if |f.run| == 1 then [KeyOf(f.run[0])] else [KeyOf(Smallest(f)), KeyOf(Largest(f))])
  }

  lemma OutlineComparesAlike(f: File, g: File)
    ensures FileBefore(Outline(f), Outline(g)) <==> FileBefore(f, g)
  {
  }

  function OutlineAdded(added: seq<(nat, File)>): seq<(nat, File)> {
    seq(|added|, i requires 0 <= i < |added| => (added[i].0, Outline(added[i].1)))
  }

  function OutlineEdit(e: Edit): Edit {
    e.(added := OutlineAdded(e.added))
  }

  function OutlineEdits(edits: seq<Edit>): seq<Edit> {
    seq(|edits|, i requires 0 <= i < |edits| => OutlineEdit(edits[i]))
  }

  function OutlineFiles(fs: seq<File>): seq<File> {
    seq(|fs|, i requires 0 <= i < |fs| => Outline(fs[i]))
  }

  function OutlineVersion(v: Version): Version {
    seq(NUM_LEVELS, l requires 0 <= l < NUM_LEVELS => OutlineFiles(v[l]))
  }

  function OutlineChain(vs: seq<Version>): seq<Version> {
    seq(|vs|, i requires 0 <= i < |vs| => OutlineVersion(vs[i]))
  }

  lemma InOutline(fs: seq<File>, g: File)
    ensures g in OutlineFiles(fs) <==> exists f :: f in fs && g == Outline(f)
  {
    if f :| f in fs && g == Outline(f) {
      var i :| 0 <= i < |fs| && fs[i] == f;
      assert OutlineFiles(fs)[i] == g;
    }
  }

  lemma InOutlineAdded(added: seq<(nat, File)>, l: nat, g: File)
    ensures (l, g) in OutlineAdded(added) <==> exists f :: (l, f) in added && g == Outline(f)
  {
    if f :| (l, f) in added && g == Outline(f) {
      var i :| 0 <= i < |added| && added[i] == (l, f);
      assert OutlineAdded(added)[i] == (l, g);
    }
    if (l, g) in OutlineAdded(added) {
      var i :| 0 <= i < |added| && OutlineAdded(added)[i] == (l, g);
      assert (l, added[i].1) in added;
    }
  }

  lemma OutlineInOrder(fs: seq<File>)
    requires InFileOrder(fs)
    ensures InFileOrder(OutlineFiles(fs))
  {
    forall i, j | 0 <= i < j < |fs| ensures FileBefore(Outline(fs[i]), Outline(fs[j])) {
      OutlineComparesAlike(fs[i], fs[j]);
    }
  }

  lemma OutlineLevelApplied(fs: seq<File>, l: nat, deleted: set<(nat, nat)>, added: seq<(nat, File)>, fs': seq<File>)
    requires forall f :: f in fs' <==> (f in fs || (l, f) in added) && (l, f.number) !in deleted
    ensures forall g :: g in OutlineFiles(fs') <==>
      (g in OutlineFiles(fs) || (l, g) in OutlineAdded(added)) && (l, g.number) !in deleted
  {
    forall g ensures g in OutlineFiles(fs') <==>
        (g in OutlineFiles(fs) || (l, g) in OutlineAdded(added)) && (l, g.number) !in deleted {
      InOutline(fs', g);
      InOutline(fs, g);
      InOutlineAdded(added, l, g);
    }
  }

  lemma OutlineApplied(v: Version, e: Edit, v': Version)
    requires Applied(v, e.deleted, e.added, v')
    ensures Applied(OutlineVersion(v), e.deleted, OutlineAdded(e.added), OutlineVersion(v'))
  {
    forall l | 0 <= l < NUM_LEVELS
      ensures InFileOrder(OutlineFiles(v'[l]))
      ensures forall g :: g in OutlineFiles(v'[l]) <==>
          (g in OutlineFiles(v[l]) || (l, g) in OutlineAdded(e.added)) && (l, g.number) !in e.deleted
    {
      OutlineInOrder(v'[l]);
      OutlineLevelApplied(v[l], l, e.deleted, e.added, v'[l]);
    }
  }

  lemma OutlineEmpty()
    ensures OutlineVersion(EMPTY_VERSION) == EMPTY_VERSION
  {
    forall l | 0 <= l < NUM_LEVELS ensures OutlineVersion(EMPTY_VERSION)[l] == EMPTY_VERSION[l] {
      assert EMPTY_VERSION[l] == [];
    }
  }

  lemma OutlineIsChain(edits: seq<Edit>, vs: seq<Version>)
    requires Chain(EMPTY_VERSION, edits, vs)
    ensures Chain(EMPTY_VERSION, OutlineEdits(edits), OutlineChain(vs))
  {
    OutlineEmpty();
    forall i | 0 <= i < |edits|
      ensures Applied(OutlineVersion(vs[i]), edits[i].deleted, OutlineAdded(edits[i].added), OutlineVersion(vs[i + 1]))
    {
      OutlineApplied(vs[i], edits[i], vs[i + 1]);
    }
  }

  lemma OutlineNumbers(added: seq<(nat, File)>, l: nat)
    ensures NumbersAt(OutlineAdded(added), l) == NumbersAt(added, l)
  {
    forall p | p in added ensures p.0 == l ==> p.1.number in NumbersAt(OutlineAdded(added), l) {
      var i :| 0 <= i < |added| && added[i] == p;
      assert OutlineAdded(added)[i] in OutlineAdded(added);
    }
    forall q | q in OutlineAdded(added) ensures q.0 == l ==> q.1.number in NumbersAt(added, l) {
      var i :| 0 <= i < |added| && OutlineAdded(added)[i] == q;
      assert added[i] in added;
    }
  }

  lemma OutlineSeen(edits: seq<Edit>, k: nat, l: nat, n: nat)
    ensures Seen(EMPTY_VERSION, OutlineEdits(edits), k, l, n) <==> Seen(EMPTY_VERSION, edits, k, l, n)
  {
    forall i | 0 <= i < |edits| ensures NumbersAt(OutlineEdits(edits)[i].added, l) == NumbersAt(edits[i].added, l) {
      OutlineNumbers(edits[i].added, l);
    }
  }

  lemma OutlineLevels(e: Edit)
    requires LevelsInRange(e) && NoNumberTwice(e.added)
    ensures LevelsInRange(OutlineEdit(e)) && NoNumberTwice(OutlineEdit(e).added)
  {
    forall p | p in OutlineAdded(e.added) ensures p.0 < NUM_LEVELS {
      var i :| 0 <= i < |e.added| && OutlineAdded(e.added)[i] == p;
      assert e.added[i] in e.added;
    }
  }

  lemma OutlineIsValid(edits: seq<Edit>)
    requires ValidEdits(EMPTY_VERSION, edits)
    ensures ValidEdits(EMPTY_VERSION, OutlineEdits(edits))
  {
    assert Unfold(IN_EDITS);
    var o := OutlineEdits(edits);
    forall i | 0 <= i < |edits| ensures LevelsInRange(o[i]) && NoNumberTwice(o[i].added) {
      OutlineLevels(edits[i]);
    }
    forall i, p | 0 <= i < |edits| && p in o[i].added
      ensures !Seen(EMPTY_VERSION, o, i, p.0, p.1.number) && (p.0, p.1.number) !in o[i].deleted
    {
      InOutlineAdded(edits[i].added, p.0, p.1);
      var f :| (p.0, f) in edits[i].added && p.1 == Outline(f);
      OutlineSeen(edits, i, p.0, f.number);
    }
  }

  // ---------------------------------------------------------------------------------------------
  // What is on disk
  // ---------------------------------------------------------------------------------------------

  /** The records of the MANIFEST, the log files and the table files. */
  datatype Disk = Disk(manifest: seq<Edit>, logs: map<nat, seq<Batch>>, tables: map<nat, Run>)

  function TableRuns(tables: map<nat, File>): map<nat, Run> {
    map n | n in tables :: tables[n].run
  }

  /** Appends reach a log in order, and a log is written only after the one before it: each file keeps a prefix, and if
      a log keeps anything the older ones keep everything. */
  ghost predicate Cut(logs: map<nat, seq<Batch>>, logs': map<nat, seq<Batch>>) {
    && logs'.Keys == logs.Keys
    && (forall n :: n in logs ==> logs'[n] <= logs[n])
    && (forall m, n :: m in logs && n in logs && m < n && logs'[n] != [] ==> logs'[m] == logs[m])
  }

  /** The records of the logs with numbers from .. limit - 1, in the order of the numbers. */
  function RecordsFrom(logs: map<nat, seq<Batch>>, from: nat, limit: nat): seq<Batch>
    decreases limit - from
  {
    if from >= limit then [] else (if from in logs then logs[from] else []) + RecordsFrom(logs, from + 1, limit)
  }

  /** The last log number that a record sets, and so on: later records override earlier ones. */
  function LastLog(edits: seq<Edit>): Option<nat> {
    if edits == [] then None else
      var e := edits[|edits| - 1];
      if e.logNumber.Some? then e.logNumber else LastLog(edits[..|edits| - 1])
  }

  function LastFile(edits: seq<Edit>): Option<nat> {
    if edits == [] then None else
      var e := edits[|edits| - 1];
      if e.nextFile.Some? then e.nextFile else LastFile(edits[..|edits| - 1])
  }

  function LastSequence(edits: seq<Edit>): Option<SeqNo> {
    if edits == [] then None else
      var e := edits[|edits| - 1];
      if e.lastSequence.Some? then e.lastSequence else LastSequence(edits[..|edits| - 1])
  }

  /** A crash leaves MANIFEST and tables, which were synced, and what has reached the logs; synced records have. */
  ghost predicate CrashLeaves(sys: Sys, d: Disk, limit: nat) {
    && d.manifest == OutlineEdits(sys.manifest) && d.tables == TableRuns(sys.tables) && Cut(sys.logs, d.logs)
    && (forall n :: n in sys.logs ==> n < limit)
    && LastLog(d.manifest).Some?
    && sys.synced <= |sys.flushedLog| + |RecordsFrom(d.logs, LastLog(d.manifest).value, limit)|
  }

  /** A file as its table says. */
  function Reopen(tables: map<nat, Run>, f: File): File {
    if f.number in tables && tables[f.number] != [] && Sorted(tables[f.number])
    then RawFile.File(f.number, f.size, tables[f.number]) else f
  }

  function ReopenFiles(tables: map<nat, Run>, fs: seq<File>): seq<File> {
    seq(|fs|, i requires 0 <= i < |fs| => Reopen(tables, fs[i]))
  }

  function ReopenVersion(tables: map<nat, Run>, v: Version): Version {
    seq(NUM_LEVELS, l requires 0 <= l < NUM_LEVELS => ReopenFiles(tables, v[l]))
  }

  /** What recovery reads: the version, the records to replay, and the numbers to go on with. */
  datatype Recovered = Recovered(version: Version, survivors: seq<Batch>, nextFile: nat, lastSequence: nat)

  /** DBImpl::Recover, on nothing but the disk.  Every table that the MANIFEST names must be there. */
  ghost predicate Reads(d: Disk, outline: Version, limit: nat, r: Recovered) {
    && Rebuilt(EMPTY_VERSION, d.manifest, outline)
    && LastLog(d.manifest).Some? && LastFile(d.manifest).Some? && LastSequence(d.manifest).Some?
    && (forall f :: Holds(outline, f) ==> f.number in d.tables)
    && r.version == ReopenVersion(d.tables, outline)
    && r.survivors == RecordsFrom(d.logs, LastLog(d.manifest).value, limit)
    && r.nextFile == LastFile(d.manifest).value + 1
    && r.lastSequence == Max(LastSequence(d.manifest).value, MaxSequence(r.survivors))
  }

  /** Recovery may be cut off by another crash, any number of times.  Until CURRENT names its MANIFEST it has changed
      nothing that a later one reads: what it leaves are new logs, which are empty, and tables with numbers that the old
      MANIFEST does not know. */
  ghost predicate CutOff(d: Disk, d': Disk) {
    && d'.manifest == d.manifest
    && (forall n :: n in d.logs ==> n in d'.logs && d'.logs[n] == d.logs[n])
    && (forall n :: n in d'.logs ==> n in d.logs || d'.logs[n] == [])
    && (LastFile(d.manifest).Some? ==>
        forall n :: n in d.tables && n <= LastFile(d.manifest).value ==> n in d'.tables && d'.tables[n] == d.tables[n])
  }

  /** What recovery may find after a crash of the store: what the crash left, with a table that was just being built,
      and what recoveries that were cut off have added. */
  ghost predicate MayBeFound(sys: Sys, d: Disk, limit: nat) {
    exists left :: CrashLeaves(sys, left, limit) && CutOff(left, d)
  }

  /** A crash loses memtables, snapshots, running work and records that had not reached stable storage.  Recovery reads
      the disk, puts the records that it still needs into level-0 tables, and starts a new log and a new MANIFEST. */
  ghost predicate CrashAndRecover(sys: Sys, sys': Sys, d: Disk, files: seq<File>, newLog: nat) {
    && MayBeFound(sys, d, newLog)
    && exists outline, r :: Reads(d, outline, newLog, r)
         && Restarted(sys, sys', r.version, r.survivors, d.logs, r.nextFile, r.lastSequence, files, newLog)
  }

  // ---------------------------------------------------------------------------------------------
  // It is what was there
  // ---------------------------------------------------------------------------------------------

  lemma ReopenUndoesOutline(tables: map<nat, File>, f: File)
    requires f.number in tables && tables[f.number] == f
    ensures Reopen(TableRuns(tables), Outline(f)) == f
  {
  }

  lemma ReopenedLevel(tables: map<nat, File>, fs: seq<File>)
    requires forall f :: f in fs ==> f.number in tables && tables[f.number] == f
    ensures ReopenFiles(TableRuns(tables), OutlineFiles(fs)) == fs
  {
    forall i | 0 <= i < |fs| ensures Reopen(TableRuns(tables), Outline(fs[i])) == fs[i] {
      ReopenUndoesOutline(tables, fs[i]);
    }
  }

  /** With its tables on disk a version comes back from its outline. */
  lemma VersionComesBack(tables: map<nat, File>, v: Version)
    requires OnDisk(tables, v)
    ensures ReopenVersion(TableRuns(tables), OutlineVersion(v)) == v
    ensures forall g :: Holds(OutlineVersion(v), g) ==> g.number in TableRuns(tables)
  {
    forall l | 0 <= l < NUM_LEVELS ensures ReopenFiles(TableRuns(tables), OutlineFiles(v[l])) == v[l] {
      assert forall f :: f in v[l] ==> Holds(v, f);
      ReopenedLevel(tables, v[l]);
    }
    forall g | Holds(OutlineVersion(v), g) ensures g.number in TableRuns(tables) {
      var l :| 0 <= l < NUM_LEVELS && g in OutlineVersion(v)[l];
      InOutline(v[l], g);
      var f :| f in v[l] && g == Outline(f);
      assert Holds(v, f);
    }
  }

  lemma ManifestParts(sys: Sys)
    requires SysFilesOk(sys)
    ensures sys.manifest != [] && |sys.chain| == |sys.manifest| + 1 && sys.chain[|sys.manifest|] == sys.st.version
    ensures ValidEdits(EMPTY_VERSION, sys.manifest) && Chain(EMPTY_VERSION, sys.manifest, sys.chain)
        && OnDisk(sys.tables, sys.st.version)
  {
    assert Unfold(IN_EDITS);
  }

  /** The MANIFEST on disk rebuilds the current version's outline, and nothing else. */
  lemma ManifestComesBack(sys: Sys, outline: Version)
    requires SysFilesOk(sys) && Rebuilt(EMPTY_VERSION, OutlineEdits(sys.manifest), outline)
    ensures outline == OutlineVersion(sys.st.version)
  {
    ManifestParts(sys);
    OutlineIsChain(sys.manifest, sys.chain);
    OutlineIsValid(sys.manifest);
    RebuiltIsLast(EMPTY_VERSION, OutlineEdits(sys.manifest), OutlineChain(sys.chain), outline);
  }

  lemma LastNumbers(edits: seq<Edit>)
    requires edits != [] && edits[|edits| - 1].logNumber.Some? && edits[|edits| - 1].nextFile.Some?
        && edits[|edits| - 1].lastSequence.Some?
    ensures var e := edits[|edits| - 1]; var o := OutlineEdits(edits);
      LastLog(o) == e.logNumber && LastFile(o) == e.nextFile && LastSequence(o) == e.lastSequence
  {
    var o := OutlineEdits(edits);
    assert o[|o| - 1] == OutlineEdit(edits[|edits| - 1]);
  }

  // ----- logs -----

  lemma {:induction false} NoRecords(logs: map<nat, seq<Batch>>, from: nat, limit: nat)
    requires forall n :: n in logs && from <= n < limit ==> logs[n] == []
    ensures RecordsFrom(logs, from, limit) == []
    decreases limit - from
  {
    if from < limit {
      NoRecords(logs, from + 1, limit);
    }
  }

  /** Past numbers without a log. */
  lemma {:induction false} SkipNumbers(logs: map<nat, seq<Batch>>, from: nat, until: nat, limit: nat)
    requires from <= until <= limit && forall n :: n in logs && from <= n < until ==> false
    ensures RecordsFrom(logs, from, limit) == RecordsFrom(logs, until, limit)
    decreases until - from
  {
    if from < until {
      SkipNumbers(logs, from + 1, until, limit);
    }
  }

  lemma OneLog(logs: map<nat, seq<Batch>>, a: nat, limit: nat)
    requires a in logs && a < limit && forall n :: n in logs && n >= a ==> n == a
    ensures RecordsFrom(logs, a, limit) == logs[a]
  {
    NoRecords(logs, a + 1, limit);
  }

  lemma TwoLogs(logs: map<nat, seq<Batch>>, a: nat, b: nat, limit: nat)
    requires a in logs && b in logs && a < b < limit && forall n :: n in logs && n >= a ==> n == a || n == b
    ensures RecordsFrom(logs, a, limit) == logs[a] + logs[b]
  {
    SkipNumbers(logs, a + 1, b, limit);
    OneLog(logs, b, limit);
  }

  /** The logs that recovery replays hold a prefix of the records that are not in tables yet. */
  lemma LogsComeBack(sys: Sys, logs: map<nat, seq<Batch>>, limit: nat) returns (immKeep: nat, memKeep: nat)
    requires LogsOk(sys) && Cut(sys.logs, logs) && forall n :: n in sys.logs ==> n < limit
    ensures immKeep <= |ImmLog(sys)| && memKeep <= |MemLog(sys)| && (memKeep > 0 ==> immKeep == |ImmLog(sys)|)
    ensures RecordsFrom(logs, sys.logNumber, limit) == Survivors(sys, immKeep, memKeep)
  {
    assert Unfold(IN_LOGS);
    memKeep := |logs[sys.logfile]|;
    if sys.st.imm.Some? {
      immKeep := |logs[sys.logNumber]|;
      TwoLogs(logs, sys.logNumber, sys.logfile, limit);
    } else {
      immKeep := 0;
      OneLog(logs, sys.logfile, limit);
    }
  }

  // ----- recoveries that were cut off -----

  /** Another one adds nothing new: that they may be many is part of the definition. */
  lemma CutOffAgain(a: Disk, b: Disk, c: Disk)
    requires CutOff(a, b) && CutOff(b, c)
    ensures CutOff(a, c)
  {
  }

  lemma {:induction false} SameRecords(logs: map<nat, seq<Batch>>, logs': map<nat, seq<Batch>>, from: nat, limit: nat)
    requires forall n :: n in logs ==> n in logs' && logs'[n] == logs[n]
    requires forall n :: n in logs' ==> n in logs || logs'[n] == []
    ensures RecordsFrom(logs', from, limit) == RecordsFrom(logs, from, limit)
    decreases limit - from
  {
    if from < limit {
      SameRecords(logs, logs', from + 1, limit);
    }
  }

  /** The MANIFEST names only tables that are there, with numbers that it knows. */
  ghost predicate NamesKnown(d: Disk, outline: Version) {
    && LastFile(d.manifest).Some?
    && forall g :: Holds(outline, g) ==> g.number in d.tables && g.number <= LastFile(d.manifest).value
  }

  lemma SameTables(d: Disk, d': Disk, outline: Version)
    requires CutOff(d, d') && NamesKnown(d, outline)
    ensures (forall g :: Holds(outline, g) ==> g.number in d'.tables)
        && ReopenVersion(d'.tables, outline) == ReopenVersion(d.tables, outline)
  {
    forall l | 0 <= l < NUM_LEVELS ensures ReopenFiles(d'.tables, outline[l]) == ReopenFiles(d.tables, outline[l]) {
      forall i | 0 <= i < |outline[l]| ensures Reopen(d'.tables, outline[l][i]) == Reopen(d.tables, outline[l][i]) {
        assert Holds(outline, outline[l][i]);
      }
    }
  }

  /** Recovery reads the same, however many recoveries were cut off before it. */
  lemma CutOffReadsSame(d: Disk, d': Disk, outline: Version, limit: nat, r: Recovered)
    requires CutOff(d, d') && NamesKnown(d, outline)
    ensures Reads(d', outline, limit, r) <==> Reads(d, outline, limit, r)
  {
    SameTables(d, d', outline);
    if LastLog(d.manifest).Some? {
      SameRecords(d.logs, d'.logs, LastLog(d.manifest).value, limit);
    }
  }

  lemma CurrentIsKnown(sys: Sys, d: Disk, limit: nat)
    requires SysInv(sys) && CrashLeaves(sys, d, limit)
    ensures NamesKnown(d, OutlineVersion(sys.st.version))
        && ReopenVersion(d.tables, OutlineVersion(sys.st.version)) == sys.st.version
  {
    SysHasParts(sys);
    ManifestParts(sys);
    VersionComesBack(sys.tables, sys.st.version);
    LastNumbers(sys.manifest);
    forall g | Holds(OutlineVersion(sys.st.version), g) ensures g.number <= LastFile(d.manifest).value {
      OutlineNumber(sys.st.version, g);
    }
  }

  lemma OutlineNumber(v: Version, g: File)
    requires Holds(OutlineVersion(v), g)
    ensures exists f :: Holds(v, f) && f.number == g.number
  {
    var l :| 0 <= l < NUM_LEVELS && g in OutlineVersion(v)[l];
    InOutline(v[l], g);
    var f :| f in v[l] && g == Outline(f);
    assert Holds(v, f);
  }

  // ----- all of it -----

  /** Whatever recovery reads from the disk is the version that was current and a prefix of the write groups. */
  lemma ReadsWhatWasThere(sys: Sys, d: Disk, outline: Version, limit: nat, r: Recovered)
      returns (immKeep: nat, memKeep: nat)
    requires SysInv(sys) && MayBeFound(sys, d, limit) && Reads(d, outline, limit, r)
    ensures Survives(sys, immKeep, memKeep) && sys.manifest != []
    ensures r.version == sys.st.version && r.survivors == Survivors(sys, immKeep, memKeep)
    ensures var last := sys.manifest[|sys.manifest| - 1];
      last.nextFile.Some? && last.lastSequence.Some? && r.nextFile == last.nextFile.value + 1
      && r.lastSequence == Max(last.lastSequence.value, MaxSequence(r.survivors))
  {
    var left :| CrashLeaves(sys, left, limit) && CutOff(left, d);
    SysHasParts(sys);
    ManifestParts(sys);
    ManifestComesBack(sys, outline);
    CurrentIsKnown(sys, left, limit);
    CutOffReadsSame(left, d, outline, limit, r);
    LastNumbers(sys.manifest);
    immKeep, memKeep := LogsComeBack(sys, left.logs, limit);
  }

  lemma RestartIsRight(sys: Sys, sys': Sys, d: Disk, r: Recovered, immKeep: nat, memKeep: nat, files: seq<File>,
      newLog: nat)
    requires Survives(sys, immKeep, memKeep) && sys.manifest != []
    requires r.version == sys.st.version && r.survivors == Survivors(sys, immKeep, memKeep)
    requires var last := sys.manifest[|sys.manifest| - 1];
      last.nextFile.Some? && last.lastSequence.Some? && r.nextFile == last.nextFile.value + 1
      && r.lastSequence == Max(last.lastSequence.value, MaxSequence(r.survivors))
    requires Restarted(sys, sys', r.version, r.survivors, d.logs, r.nextFile, r.lastSequence, files, newLog)
    ensures RestartsRight(sys, sys', immKeep, memKeep, d.logs, files, newLog)
  {
  }

  lemma RestartFromDisk(sys: Sys, sys': Sys, d: Disk, outline: Version, r: Recovered, files: seq<File>, newLog: nat)
    returns (k: nat)
    requires SysInv(sys) && MayBeFound(sys, d, newLog) && Reads(d, outline, newLog, r)
    requires Restarted(sys, sys', r.version, r.survivors, d.logs, r.nextFile, r.lastSequence, files, newLog)
    ensures SysInv(sys') && sys.synced <= k <= |Groups(sys)| && Groups(sys') == Groups(sys)[..k]
  {
    var immKeep, memKeep := ReadsWhatWasThere(sys, d, outline, newLog, r);
    RestartIsRight(sys, sys', d, r, immKeep, memKeep, files, newLog);
    RestartKeepsInv(sys, sys', immKeep, memKeep, d.logs, files, newLog);
    k := |sys.flushedLog| + immKeep + memKeep;
  }

  /** Recovery after a crash at any point: the invariant holds again, and the history is a prefix of the write groups
      that includes every synced one. */
  lemma CrashKeepsInv(sys: Sys, sys': Sys, d: Disk, files: seq<File>, newLog: nat)
    requires SysInv(sys) && CrashAndRecover(sys, sys', d, files, newLog)
    ensures SysInv(sys') && IsSyncedPrefix(Groups(sys'), Groups(sys), sys.synced)
  {
    var outline, r :| Reads(d, outline, newLog, r)
      && Restarted(sys, sys', r.version, r.survivors, d.logs, r.nextFile, r.lastSequence, files, newLog);
    var k := RestartFromDisk(sys, sys', d, outline, r, files, newLog);
  }

  /** What a crash does to the write groups: at most some that were not synced are cut off the end. */
  ghost predicate IsSyncedPrefix(groups': seq<Batch>, groups: seq<Batch>, synced: nat) {
    synced <= |groups'| <= |groups| && groups' == groups[..|groups'|]
  }

  // ---------------------------------------------------------------------------------------------
  // The recovery code
  // ---------------------------------------------------------------------------------------------

  /** The numbers in the MANIFEST: what the last record that sets one says. */
  method ReadNumbers(edits: seq<Edit>) returns (log: Option<nat>, file: Option<nat>, sequence: Option<SeqNo>)
    ensures log == LastLog(edits) && file == LastFile(edits) && sequence == LastSequence(edits)
  {
    log, file, sequence := None, None, None;
    for i := 0 to |edits|
      invariant log == LastLog(edits[..i]) && file == LastFile(edits[..i]) && sequence == LastSequence(edits[..i])
    {
      assert edits[..i + 1][..i] == edits[..i];
      var e := edits[i];
      log := if e.logNumber.Some? then e.logNumber else log;
      file := if e.nextFile.Some? then e.nextFile else file;
      sequence := if e.lastSequence.Some? then e.lastSequence else sequence;
    }
    assert edits[..|edits|] == edits;
  }

  /** Every table that a version names is there. */
  method NoneMissing(v: Version, tables: map<nat, Run>) returns (r: bool)
    ensures r <==> forall f :: Holds(v, f) ==> f.number in tables
  {
    r := true;
    for l := 0 to NUM_LEVELS
      invariant r <==> forall k, f :: 0 <= k < l && f in v[k] ==> f.number in tables
    {
      for i := 0 to |v[l]|
        invariant r <==> (forall k, f :: 0 <= k < l && f in v[k] ==> f.number in tables) && forall j :: 0 <= j < i ==>
            v[l][j].number in tables
      {
        r := r && v[l][i].number in tables;
      }
    }
    HoldsSomewhere(v, tables);
  }

  lemma HoldsSomewhere(v: Version, tables: map<nat, Run>)
    ensures (forall f :: Holds(v, f) ==> f.number in tables) <==> forall k, f :: 0 <= k < NUM_LEVELS && f in v[k] ==>
        f.number in tables
  {
    if forall f :: Holds(v, f) ==> f.number in tables {
      forall k, f | 0 <= k < NUM_LEVELS && f in v[k] ensures f.number in tables {
        assert Holds(v, f);
      }
    }
  }

  lemma SequenceParts(x: seq<Batch>, y: seq<Batch>, limit: nat)
    requires InSequence(x + y, limit)
    ensures InSequence(x, limit) && InSequence(y, limit) && Earlier(LogEntries(x), LogEntries(y))
  {
    var all := x + y;
    assert forall i :: 0 <= i < |x| ==> all[i] == x[i];
    assert forall i :: 0 <= i < |y| ==> all[|x| + i] == y[i];
    forall a, b | a in LogEntries(x) && b in LogEntries(y) ensures a.sn < b.sn {
      var p :| p in x && a in BatchEntries(p);
      var q :| q in y && b in BatchEntries(q);
      var i :| 0 <= i < |x| && x[i] == p;
      var j :| 0 <= j < |y| && y[j] == q;
      assert all[i] == p && all[|x| + j] == q;
    }
  }

  lemma {:induction false} MaxOfBoth(x: seq<Batch>, y: seq<Batch>)
    ensures MaxSequence(x + y) == Max(MaxSequence(x), MaxSequence(y))
    decreases |y|
  {
    if y == [] {
      assert x + y == x;
    } else {
      var n := |y| - 1;
      MaxOfBoth(x, y[..n]);
      assert (x + y)[..|x + y| - 1] == x + y[..n];
    }
  }

  lemma {:induction false} RecordsInSteps(logs: map<nat, seq<Batch>>, done: seq<Batch>, n: nat, limit: nat)
    requires n < limit
    ensures done + RecordsFrom(logs, n, limit) == done + (if n in logs then logs[n] else [])
        + RecordsFrom(logs, n + 1, limit)
  {
  }

  /** The logs from min on, in the order of their numbers. */
  method RecoverLogs(logs: map<nat, seq<Batch>>, min: nat, limit: nat, full: nat -> bool, ghost bound: nat)
    returns (runs: seq<Run>, maxSequence: nat)
    requires InSequence(RecordsFrom(logs, min, limit), bound) && bound <= MAX_SEQUENCE
    ensures RunsOf(runs, RecordsFrom(logs, min, limit)) && maxSequence == MaxSequence(RecordsFrom(logs, min, limit))
  {
    runs, maxSequence := [], 0;
    ghost var done: seq<Batch> := [];
    ReplayStart();
    var n := min;
    while n < limit
      invariant done + RecordsFrom(logs, n, limit) == RecordsFrom(logs, min, limit) && RunsOf(runs, done)
          && maxSequence == MaxSequence(done)
      decreases limit - n
    {
      RecordsInSteps(logs, done, n, limit);
      if n in logs {
        SequenceParts(done + logs[n], RecordsFrom(logs, n + 1, limit), bound);
        SequenceParts(done, logs[n], bound);
        var more, m := RecoverLogFile(logs[n], full, bound);
        RunsOfTwoLogs(runs, done, more, logs[n]);
        MaxOfBoth(done, logs[n]);
        runs, maxSequence, done := runs + more, Max(maxSequence, m), done + logs[n];
      } else {
        assert done + [] == done;
      }
      n := n + 1;
    }
    assert done + [] == done;
  }

  /** DBImpl::Recover.  After a crash of the store, and recoveries that were cut off, it succeeds: the MANIFEST has its
      numbers and no table is missing.
      It reads the version that was current, and puts the records that survived into runs for level-0 tables. */
  method Recover(d: Disk, full: nat -> bool, limit: nat, ghost sys: Sys)
    returns (ok: bool, r: Recovered, runs: seq<Run>, ghost outline: Version)
    requires SysInv(sys) && MayBeFound(sys, d, limit)
    ensures ok && Reads(d, outline, limit, r) && RunsOf(runs, r.survivors) && r.version == sys.st.version
  {
    CanBeRead(sys, d, limit);
    var v := Replay(EMPTY_VERSION, d.manifest, OutlineChain(sys.chain));
    outline := v;
    var log, file, sequence := ReadNumbers(d.manifest);
    ManifestComesBack(sys, v);
    var complete := NoneMissing(v, d.tables);
    ok := log.Some? && file.Some? && sequence.Some? && complete;
    var maxSequence;
    runs, maxSequence :=
      RecoverLogs(d.logs, if log.Some? then log.value else 0, limit, full, sys.st.lastSequence + 1);
    r := Recovered(ReopenVersion(d.tables, v), RecordsFrom(d.logs, if log.Some? then log.value else 0, limit),
                   if file.Some? then file.value + 1
                       else 0, Max(if sequence.Some? then sequence.value else 0, maxSequence));
  }

  lemma ManifestCanBeRead(sys: Sys)
    requires SysInv(sys)
    ensures SysFilesOk(sys) && LogsOk(sys) && sys.st.lastSequence + 1 <= MAX_SEQUENCE && sys.manifest != []
    ensures var edits := OutlineEdits(sys.manifest);
      && ValidEdits(EMPTY_VERSION, edits) && Chain(EMPTY_VERSION, edits, OutlineChain(sys.chain))
      && LastLog(edits) == Some(sys.logNumber) && LastFile(edits).Some? && LastSequence(edits).Some?
  {
    SysHasParts(sys);
    InvParts(sys.st);
    ManifestParts(sys);
    OutlineIsChain(sys.manifest, sys.chain);
    OutlineIsValid(sys.manifest);
    LastNumbers(sys.manifest);
  }

  /** The parts of the disk after a crash fit. */
  lemma CanBeRead(sys: Sys, d: Disk, limit: nat)
    requires SysInv(sys) && MayBeFound(sys, d, limit)
    ensures SysFilesOk(sys) && sys.st.lastSequence + 1 <= MAX_SEQUENCE
    ensures ValidEdits(EMPTY_VERSION, d.manifest) && Chain(EMPTY_VERSION, d.manifest, OutlineChain(sys.chain))
        && d.manifest == OutlineEdits(sys.manifest)
    ensures LastLog(d.manifest).Some? && LastFile(d.manifest).Some? && LastSequence(d.manifest).Some?
    ensures InSequence(RecordsFrom(d.logs, LastLog(d.manifest).value, limit), sys.st.lastSequence + 1)
    ensures (forall g :: Holds(OutlineVersion(sys.st.version), g) ==> g.number in d.tables)
        && ReopenVersion(d.tables, OutlineVersion(sys.st.version)) == sys.st.version
  {
    var left :| CrashLeaves(sys, left, limit) && CutOff(left, d);
    ManifestCanBeRead(sys);
    SurvivorsFit(sys, left.logs, limit);
    SameRecords(left.logs, d.logs, sys.logNumber, limit);
    CurrentIsKnown(sys, left, limit);
    SameTables(left, d, OutlineVersion(sys.st.version));
  }

  lemma SurvivorsFit(sys: Sys, logs: map<nat, seq<Batch>>, limit: nat)
    requires LogsOk(sys) && Cut(sys.logs, logs) && forall n :: n in sys.logs ==> n < limit
    ensures InSequence(RecordsFrom(logs, sys.logNumber, limit), sys.st.lastSequence + 1)
  {
    var immKeep, memKeep := LogsComeBack(sys, logs, limit);
    assert InSequence(Groups(sys), sys.st.lastSequence + 1) by { assert Unfold(IN_LOGS); }
    var groups, k := Groups(sys), |sys.flushedLog| + immKeep + memKeep;
    assert groups == sys.flushedLog + (Survivors(sys, immKeep, memKeep) + groups[k..]);
    SequenceParts(sys.flushedLog, Survivors(sys, immKeep, memKeep) + groups[k..], sys.st.lastSequence + 1);
    SequenceParts(Survivors(sys, immKeep, memKeep), groups[k..], sys.st.lastSequence + 1);
  }
}
