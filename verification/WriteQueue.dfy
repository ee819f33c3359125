/** The callers of DBImpl::Write: each one joins the queue, waits until it is at the front or its work has been done
    for it, and if it is at the front writes for itself and for some of those behind it (db/db_impl.cc).  Every
    caller has its own place in the code; steps are the pieces that the mutex, or nothing, protects. */
module WriteQueue {
  import opened Wrappers
  import opened DbFormat
  import G = GroupCommit

  /** Where a caller is.
      Testing: about to test the condition of the wait loop, with the mutex.
      Asleep: in Wait; signalled says that a signal has come.  Awake: out of Wait, before it has the mutex again.
      MakingRoom: past the loop, in MakeRoomForWrite, which may release the mutex and take it again.
      Working: writing the group without the mutex; lastSequence and last are its local variables.
      Popping, Leaving: with the mutex, taking the group off the queue and waking the next caller.
      Returned: out of Write, either after it led a group or because its work was done for it. */
  datatype Pc =
    | Testing
    | Asleep(signalled: bool)
    | Awake
    | MakingRoom
    | Working(lastSequence: nat, last: nat, group: G.Phase)
    | Popping(last: nat)
    | Leaving
    | Returned(led: bool)

  /** A call is named by its place in the order in which calls joined the queue. */
  datatype State = State(
    base: nat,
    all: seq<G.Writer>,
    pc: seq<Pc>,
    done: seq<bool>,          // set by the caller that led the group
    queue: seq<nat>,
    mutex: Option<nat>,       // the caller that holds it, if one does
    log: seq<G.Record>,
    syncedLog: nat,
    mem: seq<Entry>,
    lastSequence: nat,
    snapshots: set<nat>)

  predicate Shaped(s: State) {
    |s.pc| == |s.all| && |s.done| == |s.all|
  }

  predicate At(s: State, i: nat) {
    Shaped(s) && i < |s.all|
  }

  predicate Holds(s: State, i: nat) {
    s.mutex == Some(i)
  }

  function Goto(s: State, i: nat, pc: Pc): State
    requires At(s, i)
  {
    s.(pc := s.pc[i := pc])
  }

  /** Signal the condition variable of caller i. */
  function Signal(pc: seq<Pc>, i: nat): seq<Pc>
    requires i < |pc|
  {
    if pc[i].Asleep? then pc[i := Asleep(true)] else pc
  }

  // ---------------------------------------------------------------------------------------------
  // Steps
  // ---------------------------------------------------------------------------------------------

  ghost predicate Join(s: State, s': State, w: G.Writer) {
    && Shaped(s) && s.mutex.None?
    && s' == s.(all := s.all + [w], pc := s.pc + [Testing], done := s.done + [false], queue := s.queue + [|s.all|],
                mutex := Some(|s.all|))
  }

  /** The wait loop: out if the work is done, on if at the front, to sleep otherwise. */
  ghost predicate Test(s: State, s': State, i: nat) {
    && At(s, i) && s.pc[i].Testing? && Holds(s, i)
    && s' == if s.done[i] then Goto(s, i, Returned(false)).(mutex := None)
             else if s.queue != [] && s.queue[0] == i then Goto(s, i, MakingRoom)
             else Goto(s, i, Asleep(false)).(mutex := None)
  }

  /** A wait may end with or without a signal. */
  ghost predicate Wake(s: State, s': State, i: nat) {
    At(s, i) && s.pc[i].Asleep? && s' == Goto(s, i, Awake)
  }

  ghost predicate Relock(s: State, s': State, i: nat) {
    At(s, i) && s.pc[i].Awake? && s.mutex.None? && s' == Goto(s, i, Testing).(mutex := Some(i))
  }

  /** MakeRoomForWrite waits. */
  ghost predicate Yield(s: State, s': State, i: nat) {
    At(s, i) && s.pc[i].MakingRoom? && Holds(s, i) && s' == s.(mutex := None)
  }

  ghost predicate Resume(s: State, s': State, i: nat) {
    At(s, i) && s.pc[i].MakingRoom? && s.mutex.None? && s' == s.(mutex := Some(i))
  }

  ghost predicate Skip(s: State, s': State, i: nat) {
    At(s, i) && s.pc[i].MakingRoom? && Holds(s, i) && s.all[i].batch.None? && s' == Goto(s, i, Popping(i))
  }

  /** The calls in the queue. */
  function Queued(s: State): seq<G.Writer>
    requires forall k :: 0 <= k < |s.queue| ==> s.queue[k] < |s.all|
  {
    seq(|s.queue|, k requires 0 <= k < |s.queue| => s.all[s.queue[k]])
  }

  /** BuildBatchGroup; then the mutex is released. */
  ghost predicate Build(s: State, s': State, i: nat, count: nat) {
    && At(s, i) && s.pc[i].MakingRoom? && Holds(s, i) && s.all[i].batch.Some?
    && (forall k :: 0 <= k < |s.queue| ==> s.queue[k] < |s.all|) && G.IsGroup(Queued(s), count)
    && var ops := G.Ops(Queued(s)[..count]);
       && s.lastSequence + |ops| <= MAX_SEQUENCE
       && s' == Goto(s, i, Working(s.lastSequence, s.queue[count - 1], G.Writing(count, ops, false, false, 0)))
                .(mutex := None)
  }

  predicate IsWorking(s: State, i: nat) {
    At(s, i) && s.pc[i].Working? && s.pc[i].group.Writing?
  }

  ghost predicate AddLogRecord(s: State, s': State, i: nat) {
    && IsWorking(s, i) && !s.pc[i].group.logged
    && var w := s.pc[i];
       s' == Goto(s, i, w.(group := w.group.(logged := true)))
             .(log := s.log + [G.Record(w.lastSequence + 1, w.group.ops)])
  }

  ghost predicate Sync(s: State, s': State, i: nat) {
    && IsWorking(s, i) && s.pc[i].group.logged && s.all[i].sync
    && var w := s.pc[i];
       s' == Goto(s, i, w.(group := w.group.(synced := true))).(syncedLog := |s.log|)
  }

  predicate LogReady(s: State, i: nat) {
    IsWorking(s, i) && s.pc[i].group.logged && (s.all[i].sync ==> s.pc[i].group.synced)
  }

  ghost predicate InsertOne(s: State, s': State, i: nat) {
    && LogReady(s, i) && s.pc[i].group.inserted < |s.pc[i].group.ops|
    && var w := s.pc[i];
       && w.lastSequence + |w.group.ops| <= MAX_SEQUENCE
       && var (u, op) := w.group.ops[w.group.inserted];
          s' == Goto(s, i, w.(group := w.group.(inserted := w.group.inserted + 1)))
                .(mem := s.mem + [Entry(u, w.lastSequence + 1 + w.group.inserted, op)])
  }

  /** The mutex is taken again and the new last sequence number published. */
  ghost predicate Commit(s: State, s': State, i: nat) {
    && LogReady(s, i) && s.pc[i].group.inserted == |s.pc[i].group.ops| && s.mutex.None?
    && var w := s.pc[i];
       s' == Goto(s, i, Popping(w.last)).(mutex := Some(i), lastSequence := w.lastSequence + |w.group.ops|)
  }

  /** One call leaves the queue; unless it is the caller's own, its work is done and it is told so. */
  ghost predicate Pop(s: State, s': State, i: nat) {
    && At(s, i) && s.pc[i].Popping? && Holds(s, i) && s.queue != [] && s.queue[0] < |s.all|
    && var ready := s.queue[0];
       var pc := if ready == i then s.pc else Signal(s.pc, ready);
       s' == s.(queue := s.queue[1..], done := if ready == i then s.done else s.done[ready := true],
                pc := if ready == s.pc[i].last then pc[i := Leaving] else pc)
  }

  /** The new head is woken, and Write returns. */
  ghost predicate Leave(s: State, s': State, i: nat) {
    && At(s, i) && s.pc[i].Leaving? && Holds(s, i) && (s.queue != [] ==> s.queue[0] < |s.all|)
    && var pc := if s.queue == [] then s.pc else Signal(s.pc, s.queue[0]);
       s' == s.(pc := pc[i := Returned(true)], mutex := None)
  }

  ghost predicate Snapshot(s: State, s': State) {
    s.mutex.None? && s' == s.(snapshots := s.snapshots + {s.lastSequence})
  }

  /** A step of caller i. */
  ghost predicate Acts(s: State, s': State, i: nat) {
    || Test(s, s', i) || Wake(s, s', i) || Relock(s, s', i) || Yield(s, s', i) || Resume(s, s', i) || Skip(s, s', i)
    || (exists count :: Build(s, s', i, count)) || AddLogRecord(s, s', i) || Sync(s, s', i) || InsertOne(s, s', i)
    || Commit(s, s', i) || Pop(s, s', i) || Leave(s, s', i)
  }

  ghost predicate Next(s: State, s': State) {
    forall k {:trigger Unfold(k)} :: k == IN_CALLERS && Unfold(k) ==>
      (exists w :: Join(s, s', w)) || (exists i :: Acts(s, s', i)) || Snapshot(s, s')
  }

  ghost predicate Init(s: State) {
    s.base <= MAX_SEQUENCE && s == State(s.base, [], [], [], [], None, [], 0, [], s.base, {})
  }

  // ---------------------------------------------------------------------------------------------
  // What every step keeps
  // ---------------------------------------------------------------------------------------------

  /** Past the wait loop and not yet out. */
  predicate Acting(pc: Pc) {
    pc.MakingRoom? || pc.Working? || pc.Popping? || pc.Leaving?
  }

  /** What a leader keeps in its local variables. */
  predicate WorkingOk(pc: Pc, p: nat, n: nat, lastSequence: nat)
    requires pc.Working?
  {
    && pc.group.Writing? && pc.lastSequence == lastSequence
    && p <= pc.last < n && pc.last + 1 == p + pc.group.count
  }

  /** Caller i, when p calls have left the queue and n have joined it. */
  predicate CallerOk(pc: Pc, done: bool, i: nat, p: nat, n: nat, mutex: Option<nat>, lastSequence: nat) {
    && (mutex == Some(i) ==> pc.Testing? || pc.MakingRoom? || pc.Popping? || pc.Leaving?)
    && (pc.Testing? || pc.Popping? || pc.Leaving? ==> mutex == Some(i))
    // whoever makes room or writes is the head of the queue
    && (pc.MakingRoom? || pc.Working? ==> i == p)
    && (pc.Working? ==> WorkingOk(pc, p, n, lastSequence))
    && (pc.Popping? ==> i <= p <= pc.last < n)
    && (pc.Leaving? ==> i < p)
    // whose work was done for it never acts, and is not left asleep
    && (done ==> i < p && !Acting(pc) && pc != Asleep(false))
    && (i < p && !done ==> Acting(pc) || pc == Returned(true))
    && (pc.Returned? ==> i < p && (pc.led <==> !done))
  }

  ghost predicate CallersOk(pc: seq<Pc>, done: seq<bool>, p: nat, n: nat, mutex: Option<nat>, lastSequence: nat) {
    && |pc| == n && |done| == n && (mutex.Some? ==> mutex.value < n)
    && forall i :: 0 <= i < n ==> CallerOk(pc[i], done[i], i, p, n, mutex, lastSequence)
  }

  ghost predicate OneActs(pc: seq<Pc>) {
    forall i, j :: 0 <= i < |pc| && 0 <= j < |pc| && Acting(pc[i]) && Acting(pc[j]) ==> i == j
  }

  /** Nobody acts, and the head of the queue sleeps without a signal: then all would wait for ever. */
  ghost predicate Forgotten(pc: seq<Pc>, p: nat) {
    p < |pc| && pc[p] == Asleep(false) && forall i :: 0 <= i < |pc| ==> !Acting(pc[i])
  }

  /** The queue holds the calls from p on. */
  predicate QueueOk(queue: seq<nat>, p: nat, n: nat) {
    p + |queue| == n && forall k :: 0 <= k < |queue| ==> queue[k] == p + k
  }

  /** How many calls have left the queue. */
  function Left(s: State): nat
    requires |s.queue| <= |s.all|
  {
    |s.all| - |s.queue|
  }

  ghost predicate Inv(s: State) {
    && |s.queue| <= |s.all|
    && QueueOk(s.queue, Left(s), |s.all|)
    && CallersOk(s.pc, s.done, Left(s), |s.all|, s.mutex, s.lastSequence)
    && OneActs(s.pc) && !Forgotten(s.pc, Left(s))
  }

  lemma InitInv(s: State)
    requires Init(s)
    ensures Inv(s)
  {
  }

  /** The mutex stays with whom it is, or goes between caller i and nobody. */
  predicate MutexMoves(m: Option<nat>, m': Option<nat>, i: nat) {
    m' == m || ((m == None || m == Some(i)) && (m' == None || m' == Some(i)))
  }

  /** Caller i goes from where it is to x. */
  ghost predicate Moves(s: State, s': State, i: nat, x: Pc) {
    && At(s, i) && s'.pc == s.pc[i := x] && s'.done == s.done && s'.queue == s.queue && s'.all == s.all
    && MutexMoves(s.mutex, s'.mutex, i)
    && (s'.lastSequence == s.lastSequence || s.pc[i].Working?)
  }

  lemma MoveKeepsOthers(s: State, s': State, i: nat, x: Pc, j: nat)
    requires Inv(s) && Moves(s, s', i, x) && j < |s.all| && j != i
    ensures CallerOk(s.pc[j], s.done[j], j, Left(s), |s.all|, s'.mutex, s'.lastSequence)
  {
    assert CallerOk(s.pc[j], s.done[j], j, Left(s), |s.all|, s.mutex, s.lastSequence);
  }

  lemma MoveKeepsInv(s: State, s': State, i: nat, x: Pc)
    requires Inv(s) && Moves(s, s', i, x)
    requires CallerOk(x, s.done[i], i, Left(s), |s.all|, s'.mutex, s'.lastSequence)
    requires Acting(s.pc[i]) ==> Acting(x)
    requires Acting(x) && !Acting(s.pc[i]) ==> forall j :: 0 <= j < |s.pc| ==> !Acting(s.pc[j])
    requires x == Asleep(false) ==> i != Left(s)
    ensures Inv(s')
  {
    forall j | 0 <= j < |s.all|
      ensures CallerOk(s'.pc[j], s.done[j], j, Left(s), |s.all|, s'.mutex, s'.lastSequence)
    {
      if j != i { MoveKeepsOthers(s, s', i, x, j); }
    }
    if Forgotten(s'.pc, Left(s)) {
      forall j | 0 <= j < |s.pc| ensures !Acting(s.pc[j]) {
        assert j != i ==> !Acting(s'.pc[j]);
        assert !Acting(s'.pc[i]);
      }
      assert Forgotten(s.pc, Left(s));
    }
  }

  /** Caller i is as the invariant says. */
  lemma Caller(s: State, i: nat)
    requires Inv(s) && At(s, i)
    ensures CallerOk(s.pc[i], s.done[i], i, Left(s), |s.all|, s.mutex, s.lastSequence)
  {
  }

  /** Nobody acts while the head of the queue holds the mutex in the wait loop. */
  lemma NobodyActs(s: State, i: nat)
    requires Inv(s) && At(s, i) && s.pc[i].Testing? && Holds(s, i) && i == Left(s)
    ensures forall j :: 0 <= j < |s.pc| ==> !Acting(s.pc[j])
  {
    forall j | 0 <= j < |s.pc| ensures !Acting(s.pc[j]) {
      Caller(s, j);
    }
  }

  lemma TestKeepsInv(s: State, s': State, i: nat)
    requires Inv(s) && Test(s, s', i)
    ensures Inv(s')
  {
    Caller(s, i);
    if s.done[i] {
      MoveKeepsInv(s, s', i, Returned(false));
    } else if s.queue != [] && s.queue[0] == i {
      NobodyActs(s, i);
      MoveKeepsInv(s, s', i, MakingRoom);
    } else {
      MoveKeepsInv(s, s', i, Asleep(false));
    }
  }

  lemma WakeKeepsInv(s: State, s': State, i: nat)
    requires Inv(s) && (Wake(s, s', i) || Relock(s, s', i))
    ensures Inv(s')
  {
    Caller(s, i);
    MoveKeepsInv(s, s', i, s'.pc[i]);
  }

  lemma RoomKeepsInv(s: State, s': State, i: nat)
    requires Inv(s) && (Yield(s, s', i) || Resume(s, s', i) || Skip(s, s', i))
    ensures Inv(s')
  {
    Caller(s, i);
    assert s'.pc == s.pc[i := s'.pc[i]];
    MoveKeepsInv(s, s', i, s'.pc[i]);
  }

  lemma BuildKeepsInv(s: State, s': State, i: nat, count: nat)
    requires Inv(s) && Build(s, s', i, count)
    ensures Inv(s')
  {
    Caller(s, i);
    MoveKeepsInv(s, s', i, s'.pc[i]);
  }

  lemma WorkKeepsInv(s: State, s': State, i: nat)
    requires Inv(s) && (AddLogRecord(s, s', i) || Sync(s, s', i) || InsertOne(s, s', i) || Commit(s, s', i))
    ensures Inv(s')
  {
    Caller(s, i);
    MoveKeepsInv(s, s', i, s'.pc[i]);
  }

  lemma JoinKeepsInv(s: State, s': State, w: G.Writer)
    requires Inv(s) && Join(s, s', w)
    ensures Inv(s')
  {
    var p, n := Left(s), |s.all|;
    assert Left(s') == p;
    forall j | 0 <= j < n + 1 ensures CallerOk(s'.pc[j], s'.done[j], j, p, n + 1, s'.mutex, s.lastSequence) {
      if j < n { Caller(s, j); }
    }
    if Forgotten(s'.pc, p) {
      forall j | 0 <= j < n ensures !Acting(s.pc[j]) {
        assert s'.pc[j] == s.pc[j];
      }
      assert Forgotten(s.pc, p);
    }
  }

  lemma PopKeepsInv(s: State, s': State, i: nat)
    requires Inv(s) && Pop(s, s', i)
    ensures Inv(s')
  {
    var p, n := Left(s), |s.all|;
    Caller(s, i);
    assert Left(s') == p + 1 && s.queue[0] == p;
    forall j | 0 <= j < n ensures CallerOk(s'.pc[j], s'.done[j], j, p + 1, n, s'.mutex, s'.lastSequence) {
      Caller(s, j);
    }
    assert Acting(s'.pc[i]);
  }

  lemma LeaveKeepsInv(s: State, s': State, i: nat)
    requires Inv(s) && Leave(s, s', i)
    ensures Inv(s')
  {
    var p, n := Left(s), |s.all|;
    Caller(s, i);
    forall j | 0 <= j < n ensures CallerOk(s'.pc[j], s'.done[j], j, p, n, s'.mutex, s'.lastSequence) {
      Caller(s, j);
    }
  }

  lemma ActsKeepsInv(s: State, s': State, i: nat)
    requires Inv(s) && Acts(s, s', i)
    ensures Inv(s')
  {
    if Test(s, s', i) {
      TestKeepsInv(s, s', i);
    } else if Wake(s, s', i) || Relock(s, s', i) {
      WakeKeepsInv(s, s', i);
    } else if Yield(s, s', i) || Resume(s, s', i) || Skip(s, s', i) {
      RoomKeepsInv(s, s', i);
    } else if count :| Build(s, s', i, count) {
      BuildKeepsInv(s, s', i, count);
    } else if Pop(s, s', i) {
      PopKeepsInv(s, s', i);
    } else if Leave(s, s', i) {
      LeaveKeepsInv(s, s', i);
    } else {
      WorkKeepsInv(s, s', i);
    }
  }

  lemma NextKeepsInv(s: State, s': State)
    requires Inv(s) && Next(s, s')
    ensures Inv(s')
  {
    assert Unfold(IN_CALLERS);
    if w :| Join(s, s', w) {
      JoinKeepsInv(s, s', w);
    } else if i :| Acts(s, s', i) {
      ActsKeepsInv(s, s', i);
    }
  }

  // ---------------------------------------------------------------------------------------------
  // The callers together do what GroupCommit says
  // ---------------------------------------------------------------------------------------------

  ghost function Leader(pc: seq<Pc>): Option<nat> {
    if i :| 0 <= i < |pc| && Acting(pc[i]) then Some(i) else None
  }

  function PhaseAt(pc: Pc): G.Phase {
    if pc.MakingRoom? then G.MakingRoom else if pc.Working? then pc.group else G.Quiet
  }

  /** While a group is taken off the queue its calls count as done. */
  ghost function PhaseOf(s: State): G.Phase
    requires Shaped(s)
  {
    var leader := Leader(s.pc);
    if leader.Some? then PhaseAt(s.pc[leader.value]) else G.Quiet
  }

  ghost function DoneCalls(s: State): nat
    requires Shaped(s) && |s.queue| <= |s.all|
  {
    var leader := Leader(s.pc);
    if leader.Some? && s.pc[leader.value].Popping? then s.pc[leader.value].last + 1 else Left(s)
  }

  ghost function Abs(s: State): G.State
    requires Shaped(s) && |s.queue| <= |s.all|
  {
    G.State(s.base, s.all, DoneCalls(s), PhaseOf(s), s.log, s.syncedLog, s.mem, s.lastSequence, s.snapshots)
  }

  /** The state of the group commit when caller i, at pc, leads. */
  function Led(s: State, pc: Pc): G.State
    requires |s.queue| <= |s.all|
  {
    G.State(s.base, s.all, if pc.Popping? then pc.last + 1 else Left(s), PhaseAt(pc), s.log, s.syncedLog, s.mem,
        s.lastSequence, s.snapshots)
  }

  lemma AbsLed(s: State, i: nat)
    requires Inv(s) && At(s, i) && Acting(s.pc[i])
    ensures Abs(s) == Led(s, s.pc[i])
  {
  }

  lemma AbsUnled(s: State)
    requires Inv(s) && forall i :: 0 <= i < |s.pc| ==> !Acting(s.pc[i])
    ensures Abs(s) == Led(s, Awake)
  {
  }

  /** A caller that does not act may move without any effect. */
  lemma OutsideStutters(s: State, s': State, i: nat, x: Pc)
    requires Inv(s) && Inv(s') && At(s, i) && !Acting(s.pc[i]) && !Acting(x)
    requires s' == s.(pc := s.pc[i := x], mutex := s'.mutex)
    ensures Abs(s') == Abs(s)
  {
    var leader := Leader(s.pc);
    if leader.Some? {
      assert s'.pc[leader.value] == s.pc[leader.value];
      AbsLed(s, leader.value);
      AbsLed(s', leader.value);
    } else {
      forall j | 0 <= j < |s'.pc| ensures !Acting(s'.pc[j]) {
        assert j != i ==> s'.pc[j] == s.pc[j];
      }
      AbsUnled(s);
      AbsUnled(s');
    }
  }

  lemma JoinRefines(s: State, s': State, w: G.Writer)
    requires Inv(s) && Inv(s') && Join(s, s', w)
    ensures G.Join(Abs(s), Abs(s'), w)
  {
    var leader := Leader(s.pc);
    if leader.Some? {
      Caller(s, leader.value);
      assert s'.pc[leader.value] == s.pc[leader.value];
      AbsLed(s, leader.value);
      AbsLed(s', leader.value);
    } else {
      forall j | 0 <= j < |s'.pc| ensures !Acting(s'.pc[j]) {
        assert j < |s.pc| ==> s'.pc[j] == s.pc[j];
      }
      AbsUnled(s);
      AbsUnled(s');
    }
  }

  lemma TestRefines(s: State, s': State, i: nat)
    requires Inv(s) && Inv(s') && Test(s, s', i)
    ensures Abs(s') == Abs(s) || G.Lead(Abs(s), Abs(s'))
  {
    Caller(s, i);
    if !s.done[i] && s.queue != [] && s.queue[0] == i {
      NobodyActs(s, i);
      AbsUnled(s);
      AbsLed(s', i);
    } else {
      OutsideStutters(s, s', i, s'.pc[i]);
    }
  }

  lemma RoomRefines(s: State, s': State, i: nat)
    requires Inv(s) && Inv(s') && (Yield(s, s', i) || Resume(s, s', i) || Skip(s, s', i))
    ensures Abs(s') == Abs(s) || G.Skip(Abs(s), Abs(s'))
  {
    Caller(s, i);
    AbsLed(s, i);
    AbsLed(s', i);
  }

  lemma QueuedIsTail(s: State)
    requires Inv(s)
    ensures (forall k :: 0 <= k < |s.queue| ==> s.queue[k] < |s.all|) && Queued(s) == s.all[Left(s)..]
  {
  }

  lemma BuildRefines(s: State, s': State, i: nat, count: nat)
    requires Inv(s) && Inv(s') && Build(s, s', i, count)
    ensures G.Build(Abs(s), Abs(s'), count)
  {
    Caller(s, i);
    QueuedIsTail(s);
    AbsLed(s, i);
    AbsLed(s', i);
  }

  lemma WorkRefines(s: State, s': State, i: nat)
    requires Inv(s) && Inv(s')
    requires AddLogRecord(s, s', i) || Sync(s, s', i) || InsertOne(s, s', i) || Commit(s, s', i)
    ensures G.Next(Abs(s), Abs(s'))
  {
    Caller(s, i);
    AbsLed(s, i);
    AbsLed(s', i);
    if AddLogRecord(s, s', i) {
      assert G.AddLogRecord(Abs(s), Abs(s'));
    } else if Sync(s, s', i) {
      assert G.Sync(Abs(s), Abs(s'));
    } else if InsertOne(s, s', i) {
      assert G.InsertOne(Abs(s), Abs(s'));
    } else {
      assert G.Finish(Abs(s), Abs(s'));
    }
  }

  lemma PopRefines(s: State, s': State, i: nat)
    requires Inv(s) && Inv(s') && Pop(s, s', i)
    ensures Abs(s') == Abs(s)
  {
    Caller(s, i);
    AbsLed(s, i);
    AbsLed(s', i);
  }

  lemma LeaveRefines(s: State, s': State, i: nat)
    requires Inv(s) && Inv(s') && Leave(s, s', i)
    ensures Abs(s') == Abs(s)
  {
    Caller(s, i);
    AbsLed(s, i);
    forall j | 0 <= j < |s'.pc| ensures !Acting(s'.pc[j]) {
      if j != i { assert !Acting(s.pc[j]); }
    }
    AbsUnled(s');
  }

  lemma ActsRefines(s: State, s': State, i: nat)
    requires Inv(s) && Inv(s') && Acts(s, s', i)
    ensures Abs(s') == Abs(s) || G.Next(Abs(s), Abs(s'))
  {
    if Test(s, s', i) {
      TestRefines(s, s', i);
    } else if Wake(s, s', i) || Relock(s, s', i) {
      OutsideStutters(s, s', i, s'.pc[i]);
    } else if Yield(s, s', i) || Resume(s, s', i) || Skip(s, s', i) {
      RoomRefines(s, s', i);
    } else if count :| Build(s, s', i, count) {
      BuildRefines(s, s', i, count);
    } else if Pop(s, s', i) {
      PopRefines(s, s', i);
    } else if Leave(s, s', i) {
      LeaveRefines(s, s', i);
    } else {
      WorkRefines(s, s', i);
    }
  }

  /** Every step of the callers is a step of the group commit, or changes nothing of it. */
  lemma NextRefines(s: State, s': State)
    requires Inv(s) && Next(s, s')
    ensures Inv(s') && (Abs(s') == Abs(s) || G.Next(Abs(s), Abs(s')))
  {
    assert Unfold(IN_CALLERS);
    NextKeepsInv(s, s');
    if w :| Join(s, s', w) {
      JoinRefines(s, s', w);
    } else if i :| Acts(s, s', i) {
      ActsRefines(s, s', i);
    } else {
      assert G.Snapshot(Abs(s), Abs(s'));
    }
  }

  // ---------------------------------------------------------------------------------------------
  // What that means
  // ---------------------------------------------------------------------------------------------

  ghost predicate IsRun(run: seq<State>) {
    |run| > 0 && Init(run[0]) && forall k :: 0 < k < |run| ==> Next(run[k - 1], run[k])
  }

  lemma {:induction false} RunKeepsInv(run: seq<State>, k: nat)
    requires IsRun(run) && k < |run|
    ensures Inv(run[k]) && G.Inv(Abs(run[k]))
  {
    if k == 0 {
      InitInv(run[0]);
      AbsUnled(run[0]);
      G.InitInv(Abs(run[0]));
    } else {
      RunKeepsInv(run, k - 1);
      NextRefines(run[k - 1], run[k]);
      if Abs(run[k]) != Abs(run[k - 1]) {
        G.NextKeepsInv(Abs(run[k - 1]), Abs(run[k]));
      }
    }
  }

  /** At every moment of every run at most one caller is past the wait loop and not yet out; until it takes its group
      off the queue it is at the front; and no caller whose work was done for it is there. */
  lemma OneLeader(run: seq<State>, k: nat, i: nat, j: nat)
    requires IsRun(run) && k < |run| && At(run[k], i) && At(run[k], j) && Acting(run[k].pc[i])
    ensures var s := run[k]; Acting(s.pc[j]) ==> i == j
    ensures var s := run[k]; s.pc[i].MakingRoom? || s.pc[i].Working? ==> s.queue != [] && s.queue[0] == i
    ensures !run[k].done[i]
  {
    RunKeepsInv(run, k);
    Caller(run[k], i);
  }

  /** The log, the memtable and the last sequence number change only in steps of a caller that was at the front of the
      queue when it went past the wait loop and still is. */
  lemma OnlyHeadWrites(run: seq<State>, k: nat)
    requires IsRun(run) && k + 1 < |run|
    ensures var s, s' := run[k], run[k + 1];
      s'.log != s.log || s'.mem != s.mem || s'.lastSequence != s.lastSequence || s'.syncedLog != s.syncedLog ==>
        s.queue != [] && At(s, s.queue[0]) && s.pc[s.queue[0]].Working? && Acts(s, s', s.queue[0])
  {
    var s, s' := run[k], run[k + 1];
    RunKeepsInv(run, k);
    assert Next(s, s') && Unfold(IN_CALLERS);
    if s'.log != s.log || s'.mem != s.mem || s'.lastSequence != s.lastSequence || s'.syncedLog != s.syncedLog {
      var i :| Acts(s, s', i);
      OnlyWorkWrites(s, s', i);
      Caller(s, i);
    }
  }

  lemma OnlyWorkWrites(s: State, s': State, i: nat)
    requires Acts(s, s', i)
    requires s'.log != s.log || s'.mem != s.mem || s'.lastSequence != s.lastSequence || s'.syncedLog != s.syncedLog
    ensures At(s, i) && s.pc[i].Working?
  {
  }

  lemma ActsKeepsDone(s: State, s': State, j: nat, i: nat)
    requires Acts(s, s', j) && At(s, i) && s.done[i]
    ensures At(s', i) && s'.done[i]
  {
  }

  lemma DoneStays(s: State, s': State, i: nat)
    requires Next(s, s') && At(s, i) && s.done[i]
    ensures At(s', i) && s'.done[i]
  {
    assert Unfold(IN_CALLERS);
    if j :| Acts(s, s', j) {
      ActsKeepsDone(s, s', j, i);
    } else if w :| Join(s, s', w) {
    } else {
      assert Snapshot(s, s');
    }
  }

  lemma {:induction false} DoneStaysInRun(run: seq<State>, k: nat, m: nat, i: nat)
    requires IsRun(run) && k <= m < |run| && At(run[k], i) && run[k].done[i]
    ensures At(run[m], i) && run[m].done[i]
    decreases m
  {
    if k < m {
      DoneStaysInRun(run, k, m - 1, i);
      DoneStays(run[m - 1], run[m], i);
    }
  }

  /** Once its work has been done for it, a caller never acts again: all it can do is wake up and return. */
  lemma AbsorbedNeverActs(run: seq<State>, k: nat, m: nat, i: nat)
    requires IsRun(run) && k <= m < |run| && At(run[k], i) && run[k].done[i]
    ensures At(run[m], i) && run[m].done[i] && !Acting(run[m].pc[i])
    ensures run[m].pc[i].Returned? ==> !run[m].pc[i].led
  {
    DoneStaysInRun(run, k, m, i);
    RunKeepsInv(run, m);
    Caller(run[m], i);
  }

  /** Whoever has returned has left the queue, either as the leader of a group or with its work done by one. */
  lemma ReturnedIsDone(run: seq<State>, k: nat, i: nat)
    requires IsRun(run) && k < |run| && At(run[k], i) && run[k].pc[i].Returned?
    ensures Inv(run[k]) && i < Left(run[k]) <= DoneCalls(run[k]) && (run[k].pc[i].led <==> !run[k].done[i])
  {
    RunKeepsInv(run, k);
    Caller(run[k], i);
    LeftIsDone(run[k]);
  }

  lemma LeftIsDone(s: State)
    requires Inv(s)
    ensures Left(s) <= DoneCalls(s) <= |s.all|
  {
    var leader := Leader(s.pc);
    if leader.Some? { Caller(s, leader.value); }
  }

  /** The log holds the operations of the calls that are done, once each and in the order in which they joined, and at
      most the group now being written after them; all calls that have returned are among those done. */
  lemma LoggedOnceInOrder(run: seq<State>, k: nat)
    requires IsRun(run) && k < |run|
    ensures var s := run[k];
      && Inv(s) && DoneCalls(s) <= |s.all| && (forall i :: 0 <= i < |s.pc| && s.pc[i].Returned? ==> i < DoneCalls(s))
      && G.Flat(s.log) == G.Ops(s.all[..DoneCalls(s)]) + G.Logged(PhaseOf(s))
    ensures var s := run[k]; forall i :: 0 <= i < |s.mem| ==>
      i < |G.Flat(s.log)| && s.mem[i].sn == s.base + 1 + i && (s.mem[i].key, s.mem[i].op) == G.Flat(s.log)[i]
  {
    RunKeepsInv(run, k);
    var s := run[k];
    G.LogIsInOrder(Abs(s));
    forall i | 0 <= i < |s.pc| && s.pc[i].Returned? ensures i < DoneCalls(s) {
      ReturnedIsDone(run, k, i);
    }
  }

  /** Whenever Write has returned to a caller that asked for a sync, its operations are in a synced record. */
  lemma SyncedWhenReturned(run: seq<State>, k: nat, i: nat)
    requires IsRun(run) && k < |run| && At(run[k], i) && run[k].pc[i].Returned?
    requires run[k].all[i].sync && run[k].all[i].batch.Some?
    ensures run[k].syncedLog <= |run[k].log| && G.Covered(run[k].all, run[k].log, run[k].syncedLog, i)
  {
    RunKeepsInv(run, k);
    ReturnedIsDone(run, k, i);
    LeftIsDone(run[k]);
    G.DoneIsSynced(Abs(run[k]), i);
  }

  /** Whenever a reader looks, it sees all of a batch or nothing of it. */
  lemma BatchesAreAtomic(run: seq<State>, k: nat, x: nat, i: nat)
    requires IsRun(run) && k < |run| && i < |run[k].all| && (x == run[k].lastSequence || x in run[k].snapshots)
    ensures Inv(run[k])
    ensures var s := run[k];
      || (forall e :: e in s.mem && G.From(Abs(s), e, i) ==> e.sn <= x)
      || (forall e :: e in s.mem && G.From(Abs(s), e, i) ==> e.sn > x)
  {
    RunKeepsInv(run, k);
    G.AllOrNothing(Abs(run[k]), x, i);
  }

  // ---------------------------------------------------------------------------------------------
  // Nobody waits for ever
  // ---------------------------------------------------------------------------------------------

  /** Caller i can go on without anything that need not happen: if it is asleep it has been signalled. */
  ghost predicate CanGoOn(s: State, i: nat) {
    At(s, i) && s.pc[i] != Asleep(false) && exists s' :: Acts(s, s', i)
  }

  lemma HolderGoesOn(s: State, i: nat)
    requires Inv(s) && s.mutex == Some(i)
    ensures CanGoOn(s, i)
  {
    Caller(s, i);
    var pc := s.pc[i];
    if pc.Testing? {
      var s' := if s.done[i] then Goto(s, i, Returned(false)).(mutex := None)
                else if s.queue != [] && s.queue[0] == i then Goto(s, i, MakingRoom)
                else Goto(s, i, Asleep(false)).(mutex := None);
      assert Test(s, s', i);
      assert Acts(s, s', i);
    } else if pc.MakingRoom? {
      assert Yield(s, s.(mutex := None), i);
      assert Acts(s, s.(mutex := None), i);
    } else if pc.Popping? {
      PopperGoesOn(s, i);
    } else {
      assert pc.Leaving?;
      LeaverGoesOn(s, i);
    }
  }

  lemma PopperGoesOn(s: State, i: nat)
    requires Inv(s) && s.mutex == Some(i) && At(s, i) && s.pc[i].Popping?
    ensures CanGoOn(s, i)
  {
    Caller(s, i);
    var ready := s.queue[0];
    var pc := if ready == i then s.pc else Signal(s.pc, ready);
    var s' := s.(queue := s.queue[1..], done := if ready == i then s.done else s.done[ready := true],
        pc := if ready == s.pc[i].last then pc[i := Leaving] else pc);
    assert Pop(s, s', i);
    assert Acts(s, s', i);
  }

  lemma LeaverGoesOn(s: State, i: nat)
    requires Inv(s) && s.mutex == Some(i) && At(s, i) && s.pc[i].Leaving?
    ensures CanGoOn(s, i)
  {
    Caller(s, i);
    var pc := if s.queue == [] then s.pc else Signal(s.pc, s.queue[0]);
    var s' := s.(pc := pc[i := Returned(true)], mutex := None);
    assert Leave(s, s', i);
    assert Acts(s, s', i);
  }

  lemma LeaderGoesOn(s: State, i: nat)
    requires Inv(s) && G.Inv(Abs(s)) && s.mutex.None? && At(s, i) && Acting(s.pc[i])
    ensures CanGoOn(s, i)
  {
    Caller(s, i);
    AbsLed(s, i);
    if s.pc[i].MakingRoom? {
      assert Resume(s, s.(mutex := Some(i)), i);
      assert Acts(s, s.(mutex := Some(i)), i);
    } else {
      WorkerGoesOn(s, i);
    }
  }

  lemma WorkerGoesOn(s: State, i: nat)
    requires Inv(s) && s.mutex.None? && IsWorking(s, i)
    requires s.pc[i].group.inserted <= |s.pc[i].group.ops| && s.pc[i].lastSequence + |s.pc[i].group.ops| <= MAX_SEQUENCE
    ensures CanGoOn(s, i)
  {
    var w := s.pc[i];
    var g := w.group;
    if !g.logged {
      var s' := Goto(s, i, w.(group := g.(logged := true))).(log := s.log + [G.Record(w.lastSequence + 1, g.ops)]);
      assert AddLogRecord(s, s', i);
      assert Acts(s, s', i);
    } else if s.all[i].sync && !g.synced {
      var s' := Goto(s, i, w.(group := g.(synced := true))).(syncedLog := |s.log|);
      assert Sync(s, s', i);
      assert Acts(s, s', i);
    } else if g.inserted < |g.ops| {
      var (u, op) := g.ops[g.inserted];
      var s' := Goto(s, i, w.(group := g.(inserted := g.inserted + 1)))
          .(mem := s.mem + [Entry(u, w.lastSequence + 1 + g.inserted, op)]);
      assert InsertOne(s, s', i);
      assert Acts(s, s', i);
    } else {
      var s' := Goto(s, i, Popping(w.last)).(mutex := Some(i), lastSequence := w.lastSequence + |g.ops|);
      assert Commit(s, s', i);
      assert Acts(s, s', i);
    }
  }

  lemma WaiterGoesOn(s: State, i: nat)
    requires Inv(s) && s.mutex.None? && At(s, i) && (s.pc[i] == Asleep(true) || s.pc[i].Awake?)
    ensures CanGoOn(s, i)
  {
    if s.pc[i].Awake? {
      assert Relock(s, Goto(s, i, Testing).(mutex := Some(i)), i);
      assert Acts(s, Goto(s, i, Testing).(mutex := Some(i)), i);
    } else {
      assert Wake(s, Goto(s, i, Awake), i);
      assert Acts(s, Goto(s, i, Awake), i);
    }
  }

  /** No signal is lost: as long as some call has not returned, some caller can go on, and not only because a wait may
      end without a signal. */
  lemma NobodyIsForgotten(run: seq<State>, k: nat, i: nat)
    requires IsRun(run) && k < |run| && At(run[k], i) && !run[k].pc[i].Returned?
    ensures exists j :: CanGoOn(run[k], j)
  {
    RunKeepsInv(run, k);
    var s := run[k];
    var leader := Leader(s.pc);
    if s.mutex.Some? {
      HolderGoesOn(s, s.mutex.value);
    } else if leader.Some? {
      LeaderGoesOn(s, leader.value);
    } else if s.queue != [] {
      Caller(s, s.queue[0]);
      WaiterGoesOn(s, s.queue[0]);
    } else {
      Caller(s, i);
      WaiterGoesOn(s, i);
    }
  }
}
