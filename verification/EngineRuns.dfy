/** Whole runs of the store against the multi-version map (db/db_impl.cc). */
module EngineRuns {
  import opened Wrappers
  import opened DbFormat
  import opened Versions
  import opened Picking
  import opened Engine
  import opened EngineWrites
  import opened EngineCompact

  datatype Step =
    | Write(ops: seq<(UserKey, Op)>)
    | Switch
    | Flush(size: nat, maxGrandParentBytes: nat, level: nat)
    | Start(level: nat, chosen: File, limit: nat, r: Running)
    | Finish(outputs: seq<File>)
    | Move(level: nat, chosen: File, limit: nat, maxGrandParentBytes: nat, c: Compaction)
    | TakeSnapshot
    | ReleaseSnapshot(i: nat)

  ghost predicate Next(st: State, step: Step, st': State) {
    match step
    case Write(ops) => WriteStep(st, st', ops)
    case Switch => SwitchStep(st, st')
    case Flush(size, maxBytes, level) => FlushStep(st, st', size, maxBytes, level)
    case Start(level, chosen, limit, r) => StartStep(st, st', level, chosen, limit, r)
    case Finish(outputs) => FinishStep(st, st', outputs)
    case Move(level, chosen, limit, maxBytes, c) => MoveStep(st, st', level, chosen, limit, maxBytes, c)
    case TakeSnapshot => TakeSnapshotStep(st, st')
    case ReleaseSnapshot(i) => ReleaseSnapshotStep(st, st', i)
  }

  /** The hypothesis on picks. */
  ghost predicate CleanPick(st: State, step: Step) {
    match step
    case Start(_, _, _, r) => BoundaryClean(r)
    case Move(_, _, _, _, c) => MoveClean(st.version, c)
    case _ => true
  }

  const EMPTY_VERSION: Version := [[], [], [], [], [], [], []]

  ghost predicate Initial(st: State) {
    st == State([], None, EMPTY_VERSION, [], 0, st.nextFile, None, {}, 0)
  }

  lemma EmptyTablesOk(v: Version, nextFile: nat)
    requires v == EMPTY_VERSION
    ensures TablesOk(v, nextFile, {}, 0)
  {
    forall l | 0 <= l < NUM_LEVELS ensures v[l] == [] && Contents(v[l]) == {} {
    }
    assert Tables(v) == {};
  }

  lemma InitialInv(st: State)
    requires Initial(st)
    ensures Inv(st) && History(st) == {}
  {
    EmptyTablesOk(st.version, st.nextFile);
    IdleInv(st.version, st.nextFile, {}, 0, 0);
  }

  /** What a step adds to the multi-version map: only writes add something. */
  ghost function NewEntries(st: State, step: Step): set<Entry> {
    if step.Write? && st.lastSequence + 1 + |step.ops| <= MAX_SEQUENCE then OpEntries(st.lastSequence + 1, step.ops)
        else {}
  }

  ghost predicate CleanStep(st: State, step: Step, st': State) {
    forall k {:trigger Unfold(k)} :: k == IN_STEPS && Unfold(k) ==> Next(st, step, st') && CleanPick(st, step)
  }

  lemma MemoryStepKeepsInv(st: State, step: Step, st': State)
    requires Inv(st) && Next(st, step, st')
        && (step.Write? || step.Switch? || step.TakeSnapshot? || step.ReleaseSnapshot?)
    ensures Inv(st') && History(st') == History(st) + NewEntries(st, step)
    ensures st'.lastSequence == st.lastSequence + if step.Write? then |step.ops| else 0
  {
    match step
    case Write(ops) => WriteKeepsInv(st, st', ops);
    case Switch => SwitchKeepsInv(st, st');
    case TakeSnapshot => TakeSnapshotKeepsInv(st, st');
    case ReleaseSnapshot(i) => ReleaseSnapshotKeepsInv(st, st', i);
  }

  lemma TableStepKeepsInv(st: State, step: Step, st': State)
    requires Inv(st) && Next(st, step, st') && CleanPick(st, step)
    requires step.Flush? || step.Start? || step.Finish? || step.Move?
    ensures Inv(st') && History(st') == History(st) && st'.lastSequence == st.lastSequence
  {
    match step
    case Flush(size, maxBytes, level) => FlushKeepsInv(st, st', size, maxBytes, level);
    case Start(level, chosen, limit, r) => StartKeepsInv(st, st', level, chosen, limit, r);
    case Finish(outputs) => FinishKeepsInv(st, st', outputs);
    case Move(level, chosen, limit, maxBytes, c) => MoveKeepsInv(st, st', level, chosen, limit, maxBytes, c);
  }

  /** Every step keeps the invariant, and only writes change the multi-version map. */
  lemma NextKeepsInv(st: State, step: Step, st': State)
    requires Inv(st) && CleanStep(st, step, st')
    ensures Inv(st')
    ensures History(st') == History(st) + NewEntries(st, step)
    ensures st'.lastSequence == st.lastSequence + if step.Write? then |step.ops| else 0
    ensures st'.lastSequence < MAX_SEQUENCE - 1
  {
    assert Unfold(IN_STEPS);
    if step.Flush? || step.Start? || step.Finish? || step.Move? {
      TableStepKeepsInv(st, step, st');
    } else {
      MemoryStepKeepsInv(st, step, st');
    }
    InvParts(st');
  }

  // ---------------------------------------------------------------------------------------------
  // Runs
  // ---------------------------------------------------------------------------------------------

  ghost predicate IsRun(states: seq<State>, steps: seq<Step>) {
    && |states| == |steps| + 1 && Initial(states[0])
    && forall i :: 0 <= i < |steps| ==> CleanStep(states[i], steps[i], states[i + 1])
  }

  /** Operations written by the first n steps, in order. */
  function OpsOf(steps: seq<Step>, n: nat): seq<(UserKey, Op)>
    requires n <= |steps|
  {
    if n == 0 then [] else OpsOf(steps, n - 1) + if steps[n - 1].Write? then steps[n - 1].ops else []
  }

  /** The multi-version map: the k-th operation ever written has sequence number k. */
  ghost function MultiVersionMap(ops: seq<(UserKey, Op)>): set<Entry>
    requires |ops| < MAX_SEQUENCE
  {
    OpEntries(1, ops)
  }

  lemma OpEntriesAppend(first: nat, a: seq<(UserKey, Op)>, b: seq<(UserKey, Op)>)
    requires first + |a| + |b| <= MAX_SEQUENCE
    ensures OpEntries(first, a + b) == OpEntries(first, a) + OpEntries(first + |a|, b)
  {
    var s := a + b;
    forall e | e in OpEntries(first, a) + OpEntries(first + |a|, b) ensures e in OpEntries(first, s) {
      if e in OpEntries(first, a) {
        var i :| 0 <= i < |a| && e == Entry(a[i].0, first + i, a[i].1);
        assert s[i] == a[i];
      } else {
        var i :| 0 <= i < |b| && e == Entry(b[i].0, first + |a| + i, b[i].1);
        assert s[|a| + i] == b[i];
      }
    }
    forall e | e in OpEntries(first, s) ensures e in OpEntries(first, a) + OpEntries(first + |a|, b) {
      var i :| 0 <= i < |s| && e == Entry(s[i].0, first + i, s[i].1);
      if i >= |a| {
        assert e == Entry(b[i - |a|].0, first + |a| + (i - |a|), b[i - |a|].1);
      }
    }
  }

  /** After any run the layers hold the multi-version map of the operations written, whatever was flushed,
      compacted or moved in between. */
  lemma {:induction false} RunHoldsMap(states: seq<State>, steps: seq<Step>, n: nat)
    requires IsRun(states, steps) && n <= |steps|
    ensures Inv(states[n]) && states[n].lastSequence == |OpsOf(steps, n)| < MAX_SEQUENCE
    ensures History(states[n]) == MultiVersionMap(OpsOf(steps, n))
  {
    if n == 0 {
      InitialInv(states[0]);
    } else {
      RunHoldsMap(states, steps, n - 1);
      NextKeepsInv(states[n - 1], steps[n - 1], states[n]);
      if steps[n - 1].Write? {
        OpEntriesAppend(1, OpsOf(steps, n - 1), steps[n - 1].ops);
      } else {
        assert OpsOf(steps, n) == OpsOf(steps, n - 1);
      }
    }
  }

  /** Get at a live snapshot, or without one at the last sequence number, answers like the multi-version map. */
  lemma GetReadsMap(states: seq<State>, steps: seq<Step>, n: nat, u: UserKey, s: SeqNo)
    requires IsRun(states, steps) && n <= |steps|
    requires s in states[n].snapshots || s == states[n].lastSequence
    ensures |OpsOf(steps, n)| < MAX_SEQUENCE
    ensures Answer(Lookup(states[n], u, s)) == Read(MultiVersionMap(OpsOf(steps, n)), u, s)
  {
    RunHoldsMap(states, steps, n);
    InvParts(states[n]);
    LookupReadsHistory(states[n], u, s);
  }

  /** Later writes cannot be seen at an older sequence number. */
  lemma LaterWritesUnseen(ops: seq<(UserKey, Op)>, more: seq<(UserKey, Op)>, u: UserKey, s: nat)
    requires |ops| + |more| < MAX_SEQUENCE && s <= |ops|
    ensures Read(MultiVersionMap(ops + more), u, s) == Read(MultiVersionMap(ops), u, s)
  {
    OpEntriesAppend(1, ops, more);
    var M, M' := MultiVersionMap(ops), MultiVersionMap(ops + more);
    forall e ensures VisibleIn(M', u, s, e) <==> VisibleIn(M, u, s, e) {
      assert e in OpEntries(1 + |ops|, more) ==> e.sn > s;
    }
    if m :| Newest(M, u, s, m) {
      assert Newest(M', u, s, m);
      LatestIs(M, u, s, m);
      LatestIs(M', u, s, m);
    } else if e :| VisibleIn(M, u, s, e) {
      NewestExists(M, u, s, e);
    }
  }

  lemma {:induction false} OpsOfPrefix(steps: seq<Step>, i: nat, j: nat)
    requires i <= j <= |steps|
    ensures OpsOf(steps, i) <= OpsOf(steps, j)
  {
    if i < j {
      OpsOfPrefix(steps, i, j - 1);
    }
  }

  /** A snapshot reads at step j what it read when it was taken at step i. */
  lemma SnapshotIsStable(states: seq<State>, steps: seq<Step>, i: nat, j: nat, u: UserKey)
    requires IsRun(states, steps) && i <= j <= |steps|
    requires states[i].lastSequence in states[j].snapshots
    ensures Answer(Lookup(states[j], u, states[i].lastSequence)) == Answer(Lookup(states[i], u, states[i].lastSequence))
  {
    var s := states[i].lastSequence;
    RunHoldsMap(states, steps, i);
    RunHoldsMap(states, steps, j);
    OpsOfPrefix(steps, i, j);
    var a, b := OpsOf(steps, i), OpsOf(steps, j);
    assert b == a + b[|a|..];
    LaterWritesUnseen(a, b[|a|..], u, s);
    GetReadsMap(states, steps, i, u, s);
    GetReadsMap(states, steps, j, u, s);
  }
}
