/** The merge loop of a compaction and its drop rule (db/db_impl.cc, db/version_set.cc). */
module Compacting {
  import opened Wrappers
  import opened DbFormat
  import opened Versions

  // ---------------------------------------------------------------------------------------------
  // Is there data for a key below the output level?
  // ---------------------------------------------------------------------------------------------

  predicate InRange(f: File, u: UserKey) {
    Lo(f) <= u <= Hi(f)
  }

  /** No file of the levels below level + 1 spans u. */
  ghost predicate BaseLevel(v: Version, level: nat, u: UserKey) {
    forall l, f :: level + 2 <= l < NUM_LEVELS && f in v[l] ==> !InRange(f, u)
  }

  lemma BaseLevelIs(v: Version, level: nat, u: UserKey)
    ensures BaseLevel(v, level, u) <==>
      forall l, f :: level + 2 <= l < NUM_LEVELS && f in v[l] ==> !(Lo(f) <= u <= Hi(f))
  {
    forall f ensures InRange(f, u) <==> Lo(f) <= u <= Hi(f) {}
  }

  /** Compaction::IsBaseLevelForKey keeps one position per level, which only moves forward: the keys of a
      compaction are asked in ascending order. */
  class BaseLevelScan {
    const version: Version
    const level: nat
    var ptrs: seq<nat>

    /** Every file passed so far ends before u. */
    ghost predicate Ready(u: UserKey)
      reads this
    {
      && |ptrs| == NUM_LEVELS
      && forall l :: level + 2 <= l < NUM_LEVELS ==> Passed(version[l], ptrs[l], u)
    }

    constructor (version: Version, level: nat)
      ensures this.version == version && this.level == level
      ensures forall u :: Ready(u)
    {
      this.version, this.level := version, level;
      ptrs := seq(NUM_LEVELS, i => 0);
    }

    method IsBaseLevelForKey(u: UserKey) returns (r: bool)
      requires Ready(u) && forall l :: 1 <= l < NUM_LEVELS ==> Disjoint(version[l])
      modifies this
      ensures Ready(u)
      ensures r <==> BaseLevel(version, level, u)
    {
      var lvl := level + 2;
      while lvl < NUM_LEVELS
        invariant level + 2 <= lvl && Ready(u)
        invariant forall l, f :: level + 2 <= l < lvl && l < NUM_LEVELS && f in version[l] ==> !InRange(f, u)
      {
        var files := version[lvl];
        while ptrs[lvl] < |files|
          invariant Ready(u)
          decreases |files| - ptrs[lvl]
        {
          var f := files[ptrs[lvl]];
          if u <= Hi(f) {
            if u >= Lo(f) {
              assert f in version[lvl] && InRange(f, u);
              return false;
            }
            break;
          }
          ptrs := ptrs[lvl := ptrs[lvl] + 1];
        }
        NoneSpans(files, ptrs[lvl], u);
        lvl := lvl + 1;
      }
      return true;
    }
  }

  ghost predicate Passed(fs: seq<File>, n: nat, u: UserKey) {
    n <= |fs| && forall k :: 0 <= k < n ==> Hi(fs[k]) < u
  }

  lemma NoneSpans(fs: seq<File>, n: nat, u: UserKey)
    requires Disjoint(fs) && Passed(fs, n, u) && (n < |fs| ==> u < Lo(fs[n]))
    ensures forall f :: f in fs ==> !InRange(f, u)
  {
    forall k | 0 <= k < |fs| ensures !InRange(fs[k], u) {
      if k > n {
        assert Before(Largest(fs[n]), Smallest(fs[k]));
        RunBounds(fs[n], Largest(fs[n]));
      }
    }
  }

  // ---------------------------------------------------------------------------------------------
  // The drop rule and the merge loop
  // ---------------------------------------------------------------------------------------------

  /** Rule (A): a newer entry for the same user key is visible at the smallest snapshot too. */
  predicate Hidden(input: Run, i: nat, snapshot: SeqNo)
    requires i < |input|
  {
    i > 0 && input[i - 1].key == input[i].key && input[i - 1].sn <= snapshot
  }

  /** A tombstone no reader needs: nothing below the output level has its key. */
  ghost predicate Obsolete(e: Entry, snapshot: SeqNo, v: Version, level: nat) {
    e.op.Deletion? && e.sn <= snapshot && BaseLevel(v, level, e.key)
  }

  ghost predicate Dropped(input: Run, i: nat, snapshot: SeqNo, v: Version, level: nat)
    requires i < |input|
  {
    Hidden(input, i, snapshot) || Obsolete(input[i], snapshot, v, level)
  }

  /** The entries among the first n that the compaction writes out. */
  ghost function Kept(input: Run, n: nat, snapshot: SeqNo, v: Version, level: nat): Run
    requires n <= |input|
  {
    if n == 0 then [] else
      Kept(input, n - 1, snapshot, v, level) + if Dropped(input, n - 1, snapshot, v, level) then [] else [input[n - 1]]
  }

  function Concat(runs: seq<Run>): Run {
    if runs == [] then [] else Concat(runs[..|runs| - 1]) + runs[|runs| - 1]
  }

  /** DBImpl::CompactionState: finished output tables and the one being built. */
  class CompactionState {
    var outputs: seq<Run>
    var builder: Run

    /** Everything written so far. */
    function Written(): Run
      reads this
    {
      Concat(outputs) + builder
    }

    ghost predicate Valid()
      reads this
    {
      forall k :: 0 <= k < |outputs| ==> |outputs[k]| > 0
    }

    constructor ()
      ensures Valid() && outputs == [] && builder == []
    {
      outputs, builder := [], [];
    }

    method FinishOutputFile()
      requires Valid()
      modifies this
      ensures Valid() && Written() == old(Written()) && builder == []
      ensures outputs == old(outputs) + if old(builder) == [] then [] else [old(builder)]
    {
      if builder != [] {
        assert (outputs + [builder])[..|outputs|] == outputs;
        outputs, builder := outputs + [builder], [];
      }
    }

    method Add(e: Entry)
      requires Valid()
      modifies this
      ensures Valid() && Written() == old(Written()) + [e]
      ensures outputs == old(outputs) && builder == old(builder) + [e]
    {
      builder := builder + [e];
    }
  }

  /** Drop e if a newer entry of its key, number lastSequenceForKey, is visible at the snapshot, or if e is a
      tombstone at or below the snapshot and no file below the output level spans its key. */
  method ShouldDrop(e: Entry, lastSequenceForKey: SeqNo, snapshot: SeqNo, scan: BaseLevelScan) returns (drop: bool)
    requires scan.Ready(e.key) && forall l :: 1 <= l < NUM_LEVELS ==> Disjoint(scan.version[l])
    modifies scan
    ensures scan.Ready(e.key)
    ensures drop <==> lastSequenceForKey <= snapshot || Obsolete(e, snapshot, scan.version, scan.level)
    ensures lastSequenceForKey > snapshot ==> (drop <==>
      && e.op.Deletion? && e.sn <= snapshot
      && forall l, f :: scan.level + 2 <= l < NUM_LEVELS && f in scan.version[l] ==> !(Lo(f) <= e.key <= Hi(f)))
  {
    BaseLevelIs(scan.version, scan.level, e.key);
    if lastSequenceForKey <= snapshot {
      drop := true;     // rule (A)
    } else if e.op.Deletion? && e.sn <= snapshot {
      drop := scan.IsBaseLevelForKey(e.key);
    } else {
      drop := false;
    }
  }

  /** The decision on entry i; lastSequenceForKey is the number of the entry before, if it has the same key. */
  method DropEntry(input: Run, i: nat, lastSequenceForKey: SeqNo, snapshot: SeqNo, scan: BaseLevelScan)
      returns (drop: bool)
    requires i < |input| && snapshot < MAX_SEQUENCE && scan.Ready(input[i].key)
    requires forall l :: 1 <= l < NUM_LEVELS ==> Disjoint(scan.version[l])
    requires lastSequenceForKey ==
      if i > 0 && input[i - 1].key == input[i].key then input[i - 1].sn else MAX_SEQUENCE
    modifies scan
    ensures scan.Ready(input[i].key) && (drop <==> Dropped(input, i, snapshot, scan.version, scan.level))
  {
    drop := ShouldDrop(input[i], lastSequenceForKey, snapshot, scan);
  }

  /** e and d are in one table. */
  ghost predicate Together(outputs: seq<Run>, e: Entry, d: Entry) {
    exists r :: r in outputs && e in r && d in r
  }

  /** Two entries that are written are in one table exactly if no cut comes between them: before an entry, written or
      not, where stopBefore says so, or after a written one where full says so. */
  ghost predicate CutExactly(input: Run, outputs: seq<Run>, stopBefore: nat -> bool, full: nat -> bool) {
    forall i, j | 0 <= i < j < |input| && input[i] in Concat(outputs) && input[j] in Concat(outputs) ::
      (Together(outputs, input[i], input[j]) <==>
        && (forall t :: i < t <= j ==> !stopBefore(t))
        && (forall t :: i <= t < j && input[t] in Concat(outputs) ==> !full(t)))
  }

  /** Of the first n input entries, those in kept are written: two are in one table exactly if no cut comes between
      them, and one is in the table being built exactly if no cut has come since.  Cuts come before the entries where
      stopBefore says so, up to but not including a, and after the written ones where full says so, likewise up to b. */
  ghost predicate CutAt(input: Run, kept: set<nat>, outputs: seq<Run>, builder: Run, stopBefore: nat -> bool,
      full: nat -> bool, a: nat, b: nat) {
    (forall i :: i in kept ==> i < |input|) && forall k {:trigger Unfold(k)} :: k == IN_CUTS && Unfold(k) ==>
    && (forall i, j :: i in kept && j in kept && i < j ==>
        (Together(outputs + [builder], input[i], input[j]) <==> NoCut(kept, stopBefore, full, i, j + 1, j)))
    && (forall i :: i in kept ==> (input[i] in builder <==> NoCut(kept, stopBefore, full, i, a, b)))
    && forall r, e :: r in outputs + [builder] && e in r ==> exists i :: i in kept && input[i] == e
  }

  /** No table ends after entry i and before the place given by a and b. */
  ghost predicate NoCut(kept: set<nat>, stopBefore: nat -> bool, full: nat -> bool, i: nat, a: nat, b: nat) {
    (forall t :: i < t < a ==> !stopBefore(t)) && forall t :: i <= t < b && t in kept ==> !full(t)
  }

  /** A finished table is one of those finished before, or was the one being built. */
  lemma CutFinished(input: Run, kept: set<nat>, outputs: seq<Run>, builder: Run, outputs': seq<Run>,
      stopBefore: nat -> bool, full: nat -> bool, a: nat, b: nat, a': nat, b': nat)
    requires CutAt(input, kept, outputs, builder, stopBefore, full, a, b)
    requires outputs' == outputs + if builder == [] then [] else [builder]
    requires forall i :: i in kept ==> !NoCut(kept, stopBefore, full, i, a', b')
    ensures CutAt(input, kept, outputs', [], stopBefore, full, a', b')
  {
    assert Unfold(IN_CUTS);
    forall i, j | i in kept && j in kept && i < j
      ensures Together(outputs' + [[]], input[i], input[j]) <==> Together(outputs + [builder], input[i], input[j])
    {
      if r :| r in outputs + [builder] && input[i] in r && input[j] in r {
        assert r in outputs' + [[]];
      }
    }
  }

  /** No cut before entry n, which is not written yet. */
  lemma NotCut(input: Run, kept: set<nat>, outputs: seq<Run>, builder: Run, stopBefore: nat -> bool,
      full: nat -> bool, a: nat, b: nat, a': nat, b': nat)
    requires CutAt(input, kept, outputs, builder, stopBefore, full, a, b)
    requires a <= a' && b <= b' && (forall t :: a <= t < a' ==> !stopBefore(t))
    requires forall t :: b <= t < b' && t in kept ==> !full(t)
    ensures CutAt(input, kept, outputs, builder, stopBefore, full, a', b')
  {
    assert Unfold(IN_CUTS);
    forall i | i in kept
      ensures NoCut(kept, stopBefore, full, i, a, b) <==> NoCut(kept, stopBefore, full, i, a', b')
    {
    }
  }

  lemma CutAdded(input: Run, kept: set<nat>, outputs: seq<Run>, builder: Run, stopBefore: nat -> bool,
      full: nat -> bool, n: nat)
    requires CutAt(input, kept, outputs, builder, stopBefore, full, n + 1, n) && n < |input| && Sorted(input)
    requires forall i :: i in kept ==> i < n
    ensures CutAt(input, kept + {n}, outputs, builder + [input[n]], stopBefore, full, n + 1, n)
  {
    assert Unfold(IN_CUTS);
    var kept', builder' := kept + {n}, builder + [input[n]];
    forall i, a, b: nat | i in kept && b <= n
      ensures NoCut(kept', stopBefore, full, i, a, b) <==> NoCut(kept, stopBefore, full, i, a, b)
    {
    }
    forall i, j | i in kept' && j in kept' && i < j
      ensures Together(outputs + [builder'], input[i], input[j]) <==> NoCut(kept', stopBefore, full, i, j + 1, j)
    {
      NewInTable(input, kept, outputs, builder, n, i, j);
    }
    forall i | i in kept' ensures input[i] in builder' <==> NoCut(kept', stopBefore, full, i, n + 1, n) {
      assert i < n ==> Before(input[i], input[n]);
    }
  }

  lemma LaterDiffers(input: Run, i: nat, j: nat)
    requires Sorted(input) && i < j < |input|
    ensures input[i] != input[j]
  {
    assert Before(input[i], input[j]);
  }

  lemma OnePlace(input: Run, i: nat, j: nat)
    requires Sorted(input) && i < |input| && j < |input| && input[i] == input[j]
    ensures i == j
  {
    if i < j {
      LaterDiffers(input, i, j);
    } else if j < i {
      LaterDiffers(input, j, i);
    }
  }

  lemma NewInTable(input: Run, kept: set<nat>, outputs: seq<Run>, builder: Run, n: nat, i: nat, j: nat)
    requires Sorted(input) && i < j <= n < |input| && forall k :: k in kept ==> k < n
    requires forall r, e :: r in outputs + [builder] && e in r ==> exists k :: k in kept && input[k] == e
    ensures Together(outputs + [builder + [input[n]]], input[i], input[j]) <==>
      if j < n then Together(outputs + [builder], input[i], input[j]) else input[i] in builder
  {
    var x, builder' := input[n], builder + [input[n]];
    assert Before(input[i], input[j]) && (j < n ==> Before(input[j], x)) && Before(input[i], x);
    forall r | r in outputs ensures x !in r {
      if x in r {
        assert r in outputs + [builder];
        var k :| k in kept && input[k] == x;
        LaterDiffers(input, k, n);
      }
    }
    assert builder' in outputs + [builder'] && builder in outputs + [builder];
    if j < n && Together(outputs + [builder], input[i], input[j]) {
      var r :| r in outputs + [builder] && input[i] in r && input[j] in r;
      assert r == builder || r in outputs + [builder'];
    }
  }

  /** kept are the places of the entries among the first i that are written. */
  ghost predicate AreKept(input: Run, kept: set<nat>, i: nat, snapshot: SeqNo, v: Version, level: nat) {
    i <= |input| && forall k {:trigger Unfold(k)} :: k == IN_CUTS && Unfold(k) ==>
      forall j :: j in kept <==> 0 <= j < i && !Dropped(input, j, snapshot, v, level)
  }

  lemma NextKept(input: Run, kept: set<nat>, i: nat, snapshot: SeqNo, v: Version, level: nat)
    requires AreKept(input, kept, i, snapshot, v, level) && i < |input|
    ensures AreKept(input, if Dropped(input, i, snapshot, v, level) then kept else kept + {i}, i + 1, snapshot, v,
        level)
    ensures forall k :: k in kept ==> k < i
  {
    assert Unfold(IN_CUTS);
  }

  /** The table being built ends before entry i if that is asked for. */
  method StopTable(input: Run, ghost kept: set<nat>, i: nat, compact: CompactionState, stopBefore: nat -> bool,
      ghost full: nat -> bool)
    requires compact.Valid() && CutAt(input, kept, compact.outputs, compact.builder, stopBefore, full, i, i)
    requires forall k :: k in kept ==> k < i
    modifies compact
    ensures compact.Valid() && compact.Written() == old(compact.Written())
    ensures CutAt(input, kept, compact.outputs, compact.builder, stopBefore, full, i + 1, i)
  {
    ghost var outputs, builder := compact.outputs, compact.builder;
    if stopBefore(i) {
      compact.FinishOutputFile();
      CutFinished(input, kept, outputs, builder, compact.outputs, stopBefore, full, i, i, i + 1, i);
    } else {
      NotCut(input, kept, outputs, builder, stopBefore, full, i, i, i + 1, i);
    }
  }

  /** Entry i goes into the table being built, which ends there if it is full. */
  method WriteEntry(input: Run, ghost kept: set<nat>, i: nat, compact: CompactionState, stopBefore: nat -> bool,
      full: nat -> bool)
    requires compact.Valid() && i < |input| && Sorted(input) && forall k :: k in kept ==> k < i
    requires CutAt(input, kept, compact.outputs, compact.builder, stopBefore, full, i + 1, i)
    modifies compact
    ensures compact.Valid() && compact.Written() == old(compact.Written()) + [input[i]]
    ensures CutAt(input, kept + {i}, compact.outputs, compact.builder, stopBefore, full, i + 1, i + 1)
  {
    CutAdded(input, kept, compact.outputs, compact.builder, stopBefore, full, i);
    compact.Add(input[i]);
    ghost var outputs, builder := compact.outputs, compact.builder;
    if full(i) {
      compact.FinishOutputFile();
      CutFinished(input, kept + {i}, outputs, builder, compact.outputs, stopBefore, full, i + 1, i, i + 1, i + 1);
    } else {
      NotCut(input, kept + {i}, outputs, builder, stopBefore, full, i + 1, i, i + 1, i + 1);
    }
  }

  /** Of the input, everything is written but entries with a newer one of their key visible at the snapshot too, and
      tombstones at or below the snapshot whose key no file below the output level spans. */
  ghost predicate WrittenExactly(input: Run, written: Run, snapshot: SeqNo, v: Version, level: nat) {
    forall e :: e in written <==>
      && e in input && !(exists d :: d in input && d.key == e.key && e.sn < d.sn <= snapshot)
      && (e.op.Deletion? && e.sn <= snapshot ==> exists l, f ::
          level + 2 <= l < NUM_LEVELS && f in v[l] && Lo(f) <= e.key <= Hi(f))
  }

  lemma KeptExactly(input: Run, snapshot: SeqNo, v: Version, level: nat)
    requires Sorted(input)
    ensures WrittenExactly(input, Kept(input, |input|, snapshot, v, level), snapshot, v, level)
  {
    KeptIsTheRest(input, |input|, snapshot, v, level);
    forall i | 0 <= i < |input|
      ensures Hidden(input, i, snapshot) <==>
        exists d :: d in input && d.key == input[i].key && input[i].sn < d.sn <= snapshot
    {
      HiddenExactly(input, i, snapshot);
    }
    forall e: Entry
      ensures (e.op.Deletion? && e.sn <= snapshot ==>
          exists l, f :: level + 2 <= l < NUM_LEVELS && f in v[l] && Lo(f) <= e.key <= Hi(f))
        <==> !Obsolete(e, snapshot, v, level)
    {
      BaseLevelIs(v, level, e.key);
    }
    forall e: Entry ensures e in Kept(input, |input|, snapshot, v, level) <==> exists i ::
        0 <= i < |input| && input[i] == e && !Hidden(input, i, snapshot) && !Obsolete(e, snapshot, v, level)
    {
      if i :| 0 <= i < |input| && input[i] == e && !Dropped(input, i, snapshot, v, level) {}
    }
    forall i, j | 0 <= i < |input| && 0 <= j < |input| && input[i] == input[j] ensures i == j {
      OnePlace(input, i, j);
    }
  }

  /** The entry just before is the oldest that is newer. */
  lemma HiddenExactly(input: Run, i: nat, snapshot: SeqNo)
    requires Sorted(input) && i < |input|
    ensures Hidden(input, i, snapshot) <==>
      exists d :: d in input && d.key == input[i].key && input[i].sn < d.sn <= snapshot
  {
    if Hidden(input, i, snapshot) {
      assert Before(input[i - 1], input[i]) && input[i - 1] in input;
    }
    if d :| d in input && d.key == input[i].key && input[i].sn < d.sn <= snapshot {
      var k :| 0 <= k < |input| && input[k] == d;
      assert k > i ==> Before(input[i], input[k]);
      assert k < i - 1 ==> Before(input[k], input[i - 1]) && Before(input[i - 1], input[i]);
    }
  }

  /** A tombstone at or below the snapshot is written only where a deeper file spans its key; and when the newest entry
      of a key is a tombstone without such a file, nothing of the key is written. */
  lemma DeletedKeyVanishes(input: Run, written: Run, snapshot: SeqNo, v: Version, level: nat, t: Entry)
    requires Sorted(input) && WrittenExactly(input, written, snapshot, v, level)
    requires t in input && t.op.Deletion? && t.sn <= snapshot
    requires forall l, f :: level + 2 <= l < NUM_LEVELS && f in v[l] ==> !(Lo(f) <= t.key <= Hi(f))
    ensures t !in written
    ensures (forall e :: e in input && e.key == t.key ==> e.sn <= t.sn) ==> forall e :: e in written ==> e.key != t.key
  {
    forall e | e in input && e.key == t.key && e.sn == t.sn ensures e == t {
      var i, j :| 0 <= i < |input| && 0 <= j < |input| && input[i] == e && input[j] == t;
      OnePlace(input, i, j);
    }
  }

  lemma WrittenIs(input: Run, snapshot: SeqNo, v: Version, level: nat, i: nat)
    requires Sorted(input) && i < |input|
    ensures input[i] in Kept(input, |input|, snapshot, v, level) <==> !Dropped(input, i, snapshot, v, level)
  {
    KeptIsTheRest(input, |input|, snapshot, v, level);
    if input[i] in Kept(input, |input|, snapshot, v, level) {
      var k :| 0 <= k < |input| && input[k] == input[i] && !Dropped(input, k, snapshot, v, level);
      OnePlace(input, i, k);
    }
  }

  lemma FinishedTogether(outputs: seq<Run>, builder: Run, outputs': seq<Run>, e: Entry, d: Entry)
    requires outputs' == outputs + if builder == [] then [] else [builder]
    ensures Together(outputs', e, d) <==> Together(outputs + [builder], e, d)
  {
    if Together(outputs + [builder], e, d) {
      var r :| r in outputs + [builder] && e in r && d in r;
      assert r in outputs';
    }
  }

  lemma AllTogether(input: Run, kept: set<nat>, outputs: seq<Run>, builder: Run, outputs': seq<Run>, written: Run,
      stopBefore: nat -> bool, full: nat -> bool)
    requires forall i :: 0 <= i < |input| ==> (i in kept <==> input[i] in written)
    requires CutAt(input, kept, outputs, builder, stopBefore, full, |input|, |input|)
    requires outputs' == outputs + if builder == [] then [] else [builder]
    ensures Concat(outputs') == written ==> CutExactly(input, outputs', stopBefore, full)
  {
    assert Unfold(IN_CUTS);
    forall i, j | 0 <= i < j < |input| && i in kept && j in kept
      ensures Together(outputs', input[i], input[j]) <==> NoCut(kept, stopBefore, full, i, j + 1, j)
    {
      FinishedTogether(outputs, builder, outputs', input[i], input[j]);
    }
  }

  /** The last table ends with the input. */
  method LastTable(input: Run, ghost kept: set<nat>, ghost snapshot: SeqNo, ghost scan: BaseLevelScan,
      compact: CompactionState, ghost stopBefore: nat -> bool, ghost full: nat -> bool)
    requires compact.Valid() && Sorted(input)
    requires compact.Written() == Kept(input, |input|, snapshot, scan.version, scan.level)
    requires AreKept(input, kept, |input|, snapshot, scan.version, scan.level)
    requires CutAt(input, kept, compact.outputs, compact.builder, stopBefore, full, |input|, |input|)
    modifies compact
    ensures compact.Valid() && compact.builder == []
    ensures Concat(compact.outputs) == Kept(input, |input|, snapshot, scan.version, scan.level)
    ensures WrittenExactly(input, Concat(compact.outputs), snapshot, scan.version, scan.level)
    ensures CutExactly(input, compact.outputs, stopBefore, full)
  {
    ghost var outputs, builder := compact.outputs, compact.builder;
    compact.FinishOutputFile();
    ghost var written := Kept(input, |input|, snapshot, scan.version, scan.level);
    assert Concat(compact.outputs) == written && Unfold(IN_CUTS);
    forall k | 0 <= k < |input| ensures k in kept <==> input[k] in written {
      WrittenIs(input, snapshot, scan.version, scan.level, k);
    }
    AllTogether(input, kept, outputs, builder, compact.outputs, written, stopBefore, full);
    KeptExactly(input, snapshot, scan.version, scan.level);
  }

  /** DBImpl::DoCompactionWork over the merged input.  stopBefore and full stand for ShouldStopBefore and for
      the size test of the output file; the result is right for every way of cutting.  An entry is written unless a
      newer one of its key is visible at the snapshot too, or it is a tombstone at or below the snapshot and no file
      below the output level spans its key; and two entries are in one table exactly if no cut comes between them. */
  method DoCompactionWork(input: Run, snapshot: SeqNo, scan: BaseLevelScan, compact: CompactionState,
                          stopBefore: nat -> bool, full: nat -> bool)
    requires Sorted(input) && snapshot < MAX_SEQUENCE
    requires forall u :: scan.Ready(u)
    requires forall l :: 1 <= l < NUM_LEVELS ==> Disjoint(scan.version[l])
    requires compact.Valid() && compact.outputs == [] && compact.builder == []
    modifies scan, compact
    ensures compact.Valid() && compact.builder == []
    ensures Concat(compact.outputs) == Kept(input, |input|, snapshot, scan.version, scan.level)
    ensures WrittenExactly(input, Concat(compact.outputs), snapshot, scan.version, scan.level)
    ensures CutExactly(input, compact.outputs, stopBefore, full)
  {
    var currentUserKey: Option<UserKey> := None;
    var lastSequenceForKey: SeqNo := MAX_SEQUENCE;
    var i := 0;
    ghost var kept: set<nat> := {};
    while i < |input|
      invariant i <= |input| && compact.Valid()
      invariant compact.Written() == Kept(input, i, snapshot, scan.version, scan.level)
      invariant if i == 0 then currentUserKey == None else
        currentUserKey == Some(input[i - 1].key) && lastSequenceForKey == input[i - 1].sn
      invariant if i == 0 then forall u :: scan.Ready(u) else scan.Ready(input[i - 1].key)
      invariant AreKept(input, kept, i, snapshot, scan.version, scan.level)
      invariant CutAt(input, kept, compact.outputs, compact.builder, stopBefore, full, i, i)
    {
      var e := input[i];
      assert i > 0 ==> Before(input[i - 1], e);
      assert scan.Ready(e.key);
      NextKept(input, kept, i, snapshot, scan.version, scan.level);
      StopTable(input, kept, i, compact, stopBefore, full);
      if currentUserKey != Some(e.key) {
        // a new key: nothing hides its first entry
        currentUserKey, lastSequenceForKey := Some(e.key), MAX_SEQUENCE;
      }
      var drop := DropEntry(input, i, lastSequenceForKey, snapshot, scan);
      lastSequenceForKey := e.sn;
      if !drop {
        WriteEntry(input, kept, i, compact, stopBefore, full);
        kept := kept + {i};
      } else {
        NotCut(input, kept, compact.outputs, compact.builder, stopBefore, full, i + 1, i, i + 1, i + 1);
      }
      i := i + 1;
    }
    LastTable(input, kept, snapshot, scan, compact, stopBefore, full);
  }

  // ---------------------------------------------------------------------------------------------
  // What the loop writes
  // ---------------------------------------------------------------------------------------------

  /** The output is the input without the dropped entries, in the same order. */
  lemma {:induction false} KeptIsTheRest(input: Run, n: nat, snapshot: SeqNo, v: Version, level: nat)
    requires Sorted(input) && n <= |input|
    ensures Sorted(Kept(input, n, snapshot, v, level))
    ensures forall e :: e in Kept(input, n, snapshot, v, level) <==>
      exists i :: 0 <= i < n && input[i] == e && !Dropped(input, i, snapshot, v, level)
  {
    if n > 0 {
      KeptIsTheRest(input, n - 1, snapshot, v, level);
      var k := Kept(input, n - 1, snapshot, v, level);
      forall j | 0 <= j < |k| ensures Before(k[j], input[n - 1]) {
        assert k[j] in k;
        var i :| 0 <= i < n - 1 && input[i] == k[j] && !Dropped(input, i, snapshot, v, level);
      }
    }
  }

  lemma {:induction false} PieceOfConcat(runs: seq<Run>, r: Run)
    requires r in runs
    ensures forall e :: e in r ==> e in Concat(runs)
    ensures Sorted(Concat(runs)) ==> Sorted(r)
  {
    var n := |runs| - 1;
    assert runs == runs[..n] + [runs[n]];
    var c := Concat(runs[..n]);
    assert Concat(runs)[..|c|] == c && Concat(runs)[|c|..] == runs[n];
    if r in runs[..n] {
      PieceOfConcat(runs[..n], r);
    }
  }

  lemma {:induction false} ConcatHolds(runs: seq<Run>, e: Entry)
    ensures e in Concat(runs) <==> exists r :: r in runs && e in r
  {
    if runs != [] {
      var n := |runs| - 1;
      assert runs == runs[..n] + [runs[n]];
      ConcatHolds(runs[..n], e);
    }
  }

  /** Any cut of a sorted run gives disjoint pieces in order. */
  lemma {:induction false} PiecesInOrder(runs: seq<Run>)
    requires Sorted(Concat(runs)) && forall k :: 0 <= k < |runs| ==> |runs[k]| > 0
    ensures forall i, j :: 0 <= i < j < |runs| ==> Before(runs[i][|runs[i]| - 1], runs[j][0])
  {
    if runs != [] {
      var n := |runs| - 1;
      assert runs == runs[..n] + [runs[n]];
      var c := Concat(runs[..n]);
      assert Concat(runs)[..|c|] == c;
      PiecesInOrder(runs[..n]);
      forall i | 0 <= i < n ensures Before(runs[i][|runs[i]| - 1], runs[n][0]) {
        var e := runs[i][|runs[i]| - 1];
        ConcatHolds(runs[..n], e);
        assert runs[..n][i] == runs[i];
        assert runs[..n][i] in runs[..n] && e in runs[..n][i];
        var k :| 0 <= k < |c| && c[k] == e;
        assert Concat(runs)[k] == e && Concat(runs)[|c|] == runs[n][0];
      }
    }
  }

  /** With the tombstone t, which readers of its key find at the snapshot, goes the last that hides a value
      outside the input. */
  ghost predicate Reveals(t: Entry, input: Run, snapshot: SeqNo, v: Version, level: nat, E: set<Entry>) {
    && t in input && Obsolete(t, snapshot, v, level) && Newest(E, t.key, snapshot, t)
    && Answer(Latest(E - Entries(input), t.key, snapshot)).Some?
  }

  ghost predicate NothingRevealed(input: Run, snapshot: SeqNo, v: Version, level: nat, E: set<Entry>) {
    forall t :: !Reveals(t, input, snapshot, v, level, E)
  }

  /** E after the dropped entries are gone. */
  ghost function Remaining(input: Run, snapshot: SeqNo, v: Version, level: nat, E: set<Entry>): set<Entry> {
    E - Entries(input) + Entries(Kept(input, |input|, snapshot, v, level))
  }

  /** Below a dropped entry that was the newest visible one, nothing of the input is left. */
  lemma OlderAreHidden(input: Run, snapshot: SeqNo, v: Version, level: nat, E: set<Entry>, u: UserKey, s: nat, m: Entry,
      x: Entry)
    requires Sorted(input) && Coherent(E) && Entries(input) <= E && s >= snapshot && Newest(E, u, s, m)
    requires m in input && m.sn <= snapshot && m !in Kept(input, |input|, snapshot, v, level)
    requires x in input && x.key == u && x.sn <= s
    ensures x !in Kept(input, |input|, snapshot, v, level)
  {
    KeptIsTheRest(input, |input|, snapshot, v, level);
    var i :| 0 <= i < |input| && input[i] == m;
    forall j | 0 <= j < |input| && input[j] == x && j != i ensures Hidden(input, j, snapshot) {
      assert VisibleIn(E, u, s, input[j]);
      assert j > i;
      assert Before(input[j - 1], input[j]) && (j - 1 == i || Before(input[i], input[j - 1]));
    }
  }

  /** If the newest visible entry is dropped, it is a tombstone for every reader from the snapshot on. */
  lemma NewestDropped(input: Run, snapshot: SeqNo, v: Version, level: nat, E: set<Entry>, u: UserKey, s: nat, m: Entry)
    requires Sorted(input) && Coherent(E) && Entries(input) <= E && s >= snapshot
    requires Newest(E, u, s, m) && m in input && m !in Kept(input, |input|, snapshot, v, level)
    ensures Obsolete(m, snapshot, v, level) && Newest(E, u, snapshot, m)
    ensures forall x :: VisibleIn(Remaining(input, snapshot, v, level, E), u, s, x) <==>
        VisibleIn(E - Entries(input), u, snapshot, x)
  {
    KeptIsTheRest(input, |input|, snapshot, v, level);
    var i :| 0 <= i < |input| && input[i] == m;
    if Hidden(input, i, snapshot) {
      assert Before(input[i - 1], input[i]) && VisibleIn(E, u, s, input[i - 1]);
      assert false;
    }
    forall x | VisibleIn(Remaining(input, snapshot, v, level, E), u, s, x) ensures VisibleIn(E - Entries(input), u,
        snapshot, x) {
      if x in input {
        OlderAreHidden(input, snapshot, v, level, E, u, s, m, x);
      }
      assert VisibleIn(E, u, s, x);
    }
  }

  lemma SameVisibleSameLatest(E: set<Entry>, s: nat, F: set<Entry>, s': nat, u: UserKey)
    requires Coherent(E) && Coherent(F) && forall x :: VisibleIn(E, u, s, x) <==> VisibleIn(F, u, s', x)
    ensures Latest(E, u, s) == Latest(F, u, s')
  {
    var m := Latest(E, u, s);
    if m.Some? {
      assert Newest(F, u, s', m.value);
      LatestIs(F, u, s', m.value);
    }
  }

  lemma DropKeepsAnswer(input: Run, snapshot: SeqNo, v: Version, level: nat, E: set<Entry>, u: UserKey, s: nat)
    requires Sorted(input) && Coherent(E) && Entries(input) <= E && s >= snapshot
        && NothingRevealed(input, snapshot, v, level, E)
    ensures Read(Remaining(input, snapshot, v, level, E), u, s) == Read(E, u, s)
  {
    KeptIsTheRest(input, |input|, snapshot, v, level);
    var E', m := Remaining(input, snapshot, v, level, E), Latest(E, u, s);
    assert E' <= E;
    if m.None? {
      forall x ensures !VisibleIn(E', u, s, x) {
        assert !VisibleIn(E, u, s, x);
      }
    } else if m.value in E' {
      forall x | VisibleIn(E', u, s, x) ensures x.sn <= m.value.sn {
        assert VisibleIn(E, u, s, x);
      }
      LatestIs(E', u, s, m.value);
    } else {
      NewestDropped(input, snapshot, v, level, E, u, s, m.value);
      CoherentSubset(E', E);
      CoherentSubset(E - Entries(input), E);
      SameVisibleSameLatest(E', s, E - Entries(input), snapshot, u);
      assert !Reveals(m.value, input, snapshot, v, level, E);
    }
  }

  lemma RevealedChangesAnswer(input: Run, snapshot: SeqNo, v: Version, level: nat, E: set<Entry>, t: Entry)
    requires Sorted(input) && Coherent(E) && Entries(input) <= E && Reveals(t, input, snapshot, v, level, E)
    ensures Read(Remaining(input, snapshot, v, level, E), t.key, snapshot) != Read(E, t.key, snapshot)
  {
    KeptIsTheRest(input, |input|, snapshot, v, level);
    var E' := Remaining(input, snapshot, v, level, E);
    LatestIs(E, t.key, snapshot, t);
    assert t !in Kept(input, |input|, snapshot, v, level);
    NewestDropped(input, snapshot, v, level, E, t.key, snapshot, t);
    CoherentSubset(E', E);
    CoherentSubset(E - Entries(input), E);
    SameVisibleSameLatest(E', snapshot, E - Entries(input), snapshot, t.key);
  }

  /** Dropping is invisible at every snapshot from the smallest live one on exactly when no value comes out from
      under a dropped tombstone. */
  lemma DropIsInvisibleExactly(input: Run, snapshot: SeqNo, v: Version, level: nat, E: set<Entry>)
    requires Sorted(input) && Coherent(E) && Entries(input) <= E
    ensures Agree(Remaining(input, snapshot, v, level, E), E, snapshot) <==>
        NothingRevealed(input, snapshot, v, level, E)
  {
    if NothingRevealed(input, snapshot, v, level, E) {
      forall u: UserKey,
          s: nat | s >= snapshot ensures Read(Remaining(input, snapshot, v, level, E), u, s) == Read(E, u, s) {
        DropKeepsAnswer(input, snapshot, v, level, E, u, s);
      }
    } else {
      var t :| Reveals(t, input, snapshot, v, level, E);
      RevealedChangesAnswer(input, snapshot, v, level, E, t);
    }
  }
}
