/** The skip list under one writer and any number of readers (db/skiplist.h).  Every load and store of a link is
    one atomic step. */
module SkipList {
  import opened Wrappers
  import Random

  type Key = real

  const MAX_HEIGHT: nat := 12
  const HEAD: nat := 0

  /** Shared memory.  Nodes are numbers, a NULL link is None, a link never written is absent.
      levels is auxiliary: the nodes published at each level. */
  datatype State = State(keys: map<nat, Key>, next: map<(nat, nat), Option<nat>>, maxHeight: nat, levels: seq<set<nat>>)

  /** x comes before y in key order; the head comes before everything. */
  predicate Precedes(keys: map<nat, Key>, x: nat, y: nat)
    requires y in keys
  {
    x == HEAD || (x in keys && keys[x] < keys[y])
  }

  /** o is the first node of the level after x. */
  ghost predicate IsNext(keys: map<nat, Key>, level: set<nat>, x: nat, o: Option<nat>)
    requires forall y :: y in level ==> y in keys
  {
    match o
    case None => forall y :: y in level ==> !Precedes(keys, x, y)
    case Some(n) => n in level && Precedes(keys, x, n) && forall y :: y in level && Precedes(keys, x, y) ==>
        keys[n] <= keys[y]
  }

  ghost predicate LinksOk(keys: map<nat, Key>, next: map<(nat, nat), Option<nat>>, level: set<nat>, l: nat)
    requires forall y :: y in level ==> y in keys
  {
    forall x :: x == HEAD || x in level ==> (x, l) in next && IsNext(keys, level, x, next[(x, l)])
  }

  /** Following the links of a level from the head visits its nodes in key order. */
  ghost predicate LevelOk(keys: map<nat, Key>, next: map<(nat, nat), Option<nat>>, level: set<nat>, l: nat) {
    && HEAD !in level && (forall y :: y in level ==> y in keys)
    && (forall x, y :: x in level && y in level && keys[x] == keys[y] ==> x == y)
    && LinksOk(keys, next, level, l)
  }

  /** Every level is sorted and a sublist of the one below. */
  ghost predicate Inv(s: State) {
    && |s.levels| == MAX_HEIGHT && 1 <= s.maxHeight <= MAX_HEIGHT
    && (forall l :: 0 <= l < MAX_HEIGHT ==> LevelOk(s.keys, s.next, s.levels[l], l))
    && (forall l :: 0 < l < MAX_HEIGHT ==> s.levels[l] <= s.levels[l - 1])
    && (forall l :: s.maxHeight <= l < MAX_HEIGHT ==> s.levels[l] == {})
  }

  /** The keys in the list. */
  ghost function Keys(s: State): set<Key>
    requires Inv(s)
  {
    set y | y in s.levels[0] :: s.keys[y]
  }

  // ---------------------------------------------------------------------------------------------
  // The stores of Insert
  // ---------------------------------------------------------------------------------------------

  function RaiseHeight(s: State, height: nat): State {
    s.(maxHeight := height)
  }

  function Allocate(s: State, x: nat, key: Key): State {
    s.(keys := s.keys[x := key])
  }

  /** x->NoBarrier_SetNext(i, p->NoBarrier_Next(i)) */
  function CopyLink(s: State, x: nat, p: nat, i: nat): State
    requires (p, i) in s.next
  {
    s.(next := s.next[(x, i) := s.next[(p, i)]])
  }

  /** p->SetNext(i, x) */
  function Publish(s: State, x: nat, p: nat, i: nat): State
    requires i < |s.levels|
  {
    s.(next := s.next[(p, i) := Some(x)], levels := s.levels[i := s.levels[i] + {x}])
  }

  /** p is the last node of the level before key. */
  ghost predicate IsPrev(keys: map<nat, Key>, level: set<nat>, p: nat, key: Key) {
    && (p == HEAD || (p in level && p in keys && keys[p] < key))
    && forall y :: y in level && y in keys && keys[y] < key ==> p != HEAD && p in keys && keys[y] <= keys[p]
  }

  /** x fits in at its place: the links of every node of the level are right with x among them. */
  ghost predicate Fits(keys: map<nat, Key>, next: map<(nat, nat), Option<nat>>, level: set<nat>, l: nat, x: nat,
      p: nat) {
    && x in keys && x != HEAD && x !in level && IsPrev(keys, level, p, keys[x])
    && (forall y :: y in level && y in keys ==> keys[y] != keys[x])
    && (p, l) in next && (x, l) in next && next[(x, l)] == next[(p, l)]
  }

  lemma LinkAfter(keys: map<nat, Key>, next: map<(nat, nat), Option<nat>>, level: set<nat>, l: nat, x: nat, p: nat,
      z: nat)
    requires LevelOk(keys, next, level, l) && Fits(keys, next, level, l, x, p) && (z == HEAD || z in level + {x})
    ensures var next' := next[(p, l) := Some(x)]; (z, l) in next' && IsNext(keys, level + {x}, z, next'[(z, l)])
  {
    assert IsNext(keys, level, p, next[(p, l)]);
    if z != p && z != x {
      assert IsNext(keys, level, z, next[(z, l)]);
    }
  }

  lemma LinksStayOk(keys: map<nat, Key>, next: map<(nat, nat), Option<nat>>, level: set<nat>, l: nat, x: nat, p: nat)
    requires LevelOk(keys, next, level, l) && Fits(keys, next, level, l, x, p)
    ensures LinksOk(keys, next[(p, l) := Some(x)], level + {x}, l)
  {
    forall z | z == HEAD || z in level + {x}
      ensures (z, l) in next[(p, l) := Some(x)] && IsNext(keys, level + {x}, z, next[(p, l) := Some(x)][(z, l)])
    {
      LinkAfter(keys, next, level, l, x, p, z);
    }
  }

  lemma LinkedIn(keys: map<nat, Key>, next: map<(nat, nat), Option<nat>>, level: set<nat>, l: nat, x: nat, p: nat)
    requires LevelOk(keys, next, level, l) && Fits(keys, next, level, l, x, p)
    ensures LevelOk(keys, next[(p, l) := Some(x)], level + {x}, l)
  {
    LinksStayOk(keys, next, level, l, x, p);
  }

  /** Links of nodes that are not on the level may change freely. */
  lemma LevelIgnores(keys: map<nat, Key>, next: map<(nat, nat), Option<nat>>, level: set<nat>, l: nat,
                     keys': map<nat, Key>, next': map<(nat, nat), Option<nat>>)
    requires LevelOk(keys, next, level, l)
    requires forall y :: y in level ==> y in keys' && keys'[y] == keys[y]
    requires forall x :: x == HEAD || x in level ==>
        (x, l) in next' && ((x, l) in next ==> next'[(x, l)] == next[(x, l)])
    ensures LevelOk(keys', next', level, l)
  {
    forall x | x == HEAD || x in level ensures IsNext(keys', level, x, next'[(x, l)]) {
      assert IsNext(keys, level, x, next[(x, l)]);
    }
  }

  // ---------------------------------------------------------------------------------------------
  // The writer
  // ---------------------------------------------------------------------------------------------

  /** Insert between its stores: node x is published below level i; copied says if its link at level i is set. */
  datatype Writer = Idle | Linking(x: nat, height: nat, prev: seq<nat>, i: nat, copied: bool)

  ghost predicate WriterOk(s: State, w: Writer)
    requires Inv(s)
  {
    w.Linking? ==>
      && w.x != HEAD && w.x in s.keys && w.i < w.height <= s.maxHeight && |w.prev| == MAX_HEIGHT
      && (forall l :: 0 <= l < MAX_HEIGHT ==> (w.x in s.levels[l] <==> l < w.i))
      && (forall l :: w.i <= l < w.height ==> IsPrev(s.keys, s.levels[l], w.prev[l], s.keys[w.x]))
      && (forall y :: y in s.levels[0] && y in s.keys && y != w.x ==> s.keys[y] != s.keys[w.x])
      && (w.copied ==>
          (w.x, w.i) in s.next && (w.prev[w.i], w.i) in s.next && s.next[(w.x, w.i)] == s.next[(w.prev[w.i], w.i)])
  }

  /** A new node is ready to be linked: the search for its key has filled prev, levels above the old height
      start at the head. */
  ghost predicate BeginStep(s: State, s': State, w': Writer, key: Key) {
    && w'.Linking? && w'.i == 0 && !w'.copied && w'.x !in s.keys && w'.x != HEAD
    && 1 <= w'.height <= MAX_HEIGHT && |w'.prev| == MAX_HEIGHT && |s.levels| == MAX_HEIGHT
    && (forall l :: 0 <= l < w'.height ==> IsPrev(s.keys, s.levels[l], w'.prev[l], key))
    && s' == Allocate(RaiseHeight(s, if w'.height > s.maxHeight then w'.height else s.maxHeight), w'.x, key)
  }

  ghost predicate CopyStep(s: State, s': State, w: Writer, w': Writer) {
    && w.Linking? && !w.copied && w.i < |w.prev| && (w.prev[w.i], w.i) in s.next
    && s' == CopyLink(s, w.x, w.prev[w.i], w.i) && w' == w.(copied := true)
  }

  ghost predicate PublishStep(s: State, s': State, w: Writer, w': Writer) {
    && w.Linking? && w.copied && w.i < |w.prev| && w.i < |s.levels|
    && s' == Publish(s, w.x, w.prev[w.i], w.i)
    && w' == if w.i + 1 < w.height then w.(i := w.i + 1, copied := false) else Idle
  }

  lemma BeginKeepsInv(s: State, s': State, w': Writer, key: Key)
    requires Inv(s) && BeginStep(s, s', w', key) && key !in Keys(s)
    ensures Inv(s') && WriterOk(s', w') && Keys(s') == Keys(s)
  {
    forall l | 0 <= l < MAX_HEIGHT ensures LevelOk(s'.keys, s'.next, s'.levels[l], l) {
      assert LevelOk(s.keys, s.next, s.levels[l], l);
      LevelIgnores(s.keys, s.next, s.levels[l], l, s'.keys, s'.next);
    }
    forall l | 0 <= l < w'.height ensures IsPrev(s'.keys, s'.levels[l], w'.prev[l], key) {
      assert LevelOk(s.keys, s.next, s.levels[l], l);
    }
    assert LevelOk(s.keys, s.next, s.levels[0], 0);
    forall l | 0 <= l < MAX_HEIGHT ensures w'.x !in s'.levels[l] {
      assert LevelOk(s.keys, s.next, s.levels[l], l);
    }
  }

  lemma CopyKeepsInv(s: State, s': State, w: Writer, w': Writer)
    requires Inv(s) && WriterOk(s, w) && CopyStep(s, s', w, w')
    ensures Inv(s') && WriterOk(s', w') && Keys(s') == Keys(s)
  {
    forall l | 0 <= l < MAX_HEIGHT ensures LevelOk(s'.keys, s'.next, s'.levels[l], l) {
      assert LevelOk(s.keys, s.next, s.levels[l], l);
      LevelIgnores(s.keys, s.next, s.levels[l], l, s'.keys, s'.next);
    }
  }

  lemma PublishLevels(s: State, w: Writer, l: nat)
    requires Inv(s) && WriterOk(s, w) && w.Linking? && w.copied && l < MAX_HEIGHT
    ensures var s' := Publish(s, w.x, w.prev[w.i], w.i); LevelOk(s'.keys, s'.next, s'.levels[l], l)
  {
    var s' := Publish(s, w.x, w.prev[w.i], w.i);
    assert LevelOk(s.keys, s.next, s.levels[l], l);
    if l == w.i {
      assert l > 0 ==> s.levels[l] <= s.levels[l - 1];
      InAllBelow(s, l);
      LinkedIn(s.keys, s.next, s.levels[l], l, w.x, w.prev[l]);
    } else {
      LevelIgnores(s.keys, s.next, s.levels[l], l, s'.keys, s'.next);
    }
  }

  lemma {:induction false} InAllBelow(s: State, l: nat)
    requires Inv(s) && l < MAX_HEIGHT
    ensures s.levels[l] <= s.levels[0]
  {
    if l > 0 {
      InAllBelow(s, l - 1);
    }
  }

  lemma PublishKeepsLevels(s: State, s': State, w: Writer, w': Writer)
    requires Inv(s) && WriterOk(s, w) && PublishStep(s, s', w, w')
    ensures Inv(s')
  {
    forall l | 0 <= l < MAX_HEIGHT ensures LevelOk(s'.keys, s'.next, s'.levels[l], l) {
      PublishLevels(s, w, l);
    }
  }

  lemma PublishKeepsWriter(s: State, s': State, w: Writer, w': Writer)
    requires Inv(s) && WriterOk(s, w) && PublishStep(s, s', w, w') && Inv(s')
    ensures WriterOk(s', w')
  {
  }

  /** The node appears in the list with the store at level 0. */
  lemma PublishAdds(s: State, s': State, w: Writer, w': Writer)
    requires Inv(s) && WriterOk(s, w) && PublishStep(s, s', w, w') && Inv(s')
    ensures Keys(s') == Keys(s) + {s.keys[w.x]}
  {
    assert s'.levels[0] == s.levels[0] + {w.x};
    assert LevelOk(s.keys, s.next, s.levels[0], 0);
    forall k | k in Keys(s) + {s.keys[w.x]} ensures k in Keys(s') {
      assert s'.keys[w.x] == s.keys[w.x];
    }
  }

  /** Nothing is ever taken out, and published nodes keep their keys. */
  ghost predicate Grows(s: State, s': State)
    requires Inv(s) && Inv(s')
  {
    forall l, y :: 0 <= l < MAX_HEIGHT && y in s.levels[l] ==>
        y in s'.levels[l] && y in s.keys && y in s'.keys && s'.keys[y] == s.keys[y]
  }

  ghost predicate WriterStep(s: State, s': State, w: Writer, w': Writer) {
    || (w.Idle? && exists key :: Inv(s) && key !in Keys(s) && BeginStep(s, s', w', key))
    || CopyStep(s, s', w, w')
    || PublishStep(s, s', w, w')
  }

  lemma WriterStepKeepsInv(s: State, s': State, w: Writer, w': Writer)
    requires Inv(s) && WriterOk(s, w) && WriterStep(s, s', w, w')
    ensures Inv(s') && WriterOk(s', w') && Grows(s, s')
  {
    if CopyStep(s, s', w, w') {
      CopyKeepsInv(s, s', w, w');
    } else if PublishStep(s, s', w, w') {
      PublishKeepsLevels(s, s', w, w');
      PublishKeepsWriter(s, s', w, w');
    } else {
      var key :| key !in Keys(s) && BeginStep(s, s', w', key);
      BeginKeepsInv(s, s', w', key);
    }
    forall l, y | 0 <= l < MAX_HEIGHT && y in s.levels[l] ensures y in s'.levels[l] && y in s.keys && y in s'.keys
        && s'.keys[y] == s.keys[y] {
      assert LevelOk(s.keys, s.next, s.levels[l], l);
    }
  }

  // ---------------------------------------------------------------------------------------------
  // Readers
  // ---------------------------------------------------------------------------------------------

  /** FindGreaterOrEqual and FindLessThan look for the place of a key, FindLast for the end (no bound).  A reader
      stands on node x at a level; seen are the nodes in the list when it began; at the end it has x and the
      link it read last. */
  datatype Reader = Reader(bound: Option<Key>, x: nat, level: nat, seen: set<nat>, found: Option<Option<nat>>)

  predicate IsBelow(k: Key, bound: Option<Key>) {
    bound.None? || k < bound.value
  }

  /** No node seen lies strictly between x and n, x is below the bound and n is not. */
  ghost predicate IsGap(keys: map<nat, Key>, seen: set<nat>, bound: Option<Key>, x: nat, n: Option<nat>) {
    && (x == HEAD || (x in keys && IsBelow(keys[x], bound)))
    && (n.Some? ==> n.value in keys && !IsBelow(keys[n.value], bound))
    && forall y :: y in seen && y in keys ==>
         && (IsBelow(keys[y], bound) ==> x != HEAD && x in keys && keys[y] <= keys[x])
         && (!IsBelow(keys[y], bound) ==> n.Some? && n.value in keys && keys[n.value] <= keys[y])
  }

  ghost predicate ReaderOk(s: State, r: Reader)
    requires Inv(s)
  {
    && r.level < MAX_HEIGHT && r.seen <= s.levels[0]
    && (r.x == HEAD || (r.x in s.levels[r.level] && r.x in s.keys && IsBelow(s.keys[r.x], r.bound)))
    && (r.found.Some? ==> r.level == 0 && IsGap(s.keys, r.seen, r.bound, r.x, r.found.value)
                          && (r.found.value.Some? ==> r.found.value.value in s.levels[0]))
  }

  /** The link the reader reads next is set. */
  lemma ReaderLinkIsSet(s: State, r: Reader)
    requires Inv(s) && ReaderOk(s, r)
    ensures (r.x, r.level) in s.next
    ensures s.next[(r.x, r.level)].Some? ==> s.next[(r.x, r.level)].value in s.keys
  {
    assert LevelOk(s.keys, s.next, s.levels[r.level], r.level);
    assert IsNext(s.keys, s.levels[r.level], r.x, s.next[(r.x, r.level)]);
  }

  /** One round of the search loop: load a link, go right, go down, or stop. */
  ghost predicate ReadStep(s: State, r: Reader, r': Reader) {
    && r.found.None? && (r.x, r.level) in s.next
    && var next := s.next[(r.x, r.level)];
       if next.Some? && next.value in s.keys && IsBelow(s.keys[next.value], r.bound) then r' == r.(x := next.value)
       else if r.level > 0 then r' == r.(level := r.level - 1)
       else r' == r.(found := Some(next))
  }

  /** A search begins: the reader takes the height, whatever it sees of it, and starts at the head. */
  ghost predicate StartRead(s: State, r: Reader) {
    && |s.levels| > 0 && r.x == HEAD && r.level < MAX_HEIGHT && r.found.None? && r.seen == s.levels[0]
  }

  lemma ReadKeepsOk(s: State, r: Reader, r': Reader)
    requires Inv(s) && ReaderOk(s, r) && ReadStep(s, r, r')
    ensures ReaderOk(s, r')
  {
    assert LevelOk(s.keys, s.next, s.levels[r.level], r.level);
    var next := s.next[(r.x, r.level)];
    assert IsNext(s.keys, s.levels[r.level], r.x, next);
    if r'.found.Some? {
      forall y | y in r.seen && y in s.keys
        ensures IsBelow(s.keys[y], r.bound) ==> r.x != HEAD && s.keys[y] <= s.keys[r.x]
        ensures !IsBelow(s.keys[y], r.bound) ==> next.Some? && s.keys[next.value] <= s.keys[y]
      {
        assert Precedes(s.keys, r.x, y) || !Precedes(s.keys, r.x, y);
      }
    }
  }

  /** What a reader knows survives every store of the writer. */
  lemma ReaderStable(s: State, s': State, r: Reader)
    requires Inv(s) && Inv(s') && Grows(s, s') && ReaderOk(s, r)
    ensures ReaderOk(s', r)
  {
    assert LevelOk(s.keys, s.next, s.levels[0], 0) && LevelOk(s'.keys, s'.next, s'.levels[0], 0);
    InAllBelow(s, r.level);
    InAllBelow(s', r.level);
  }

  // ---------------------------------------------------------------------------------------------
  // Runs
  // ---------------------------------------------------------------------------------------------

  datatype System = System(s: State, w: Writer, readers: seq<Reader>)

  ghost predicate ReadersOk(s: State, readers: seq<Reader>)
    requires Inv(s)
  {
    forall i :: 0 <= i < |readers| ==> ReaderOk(s, readers[i])
  }

  ghost predicate SystemInv(sys: System) {
    Inv(sys.s) && WriterOk(sys.s, sys.w) && ReadersOk(sys.s, sys.readers)
  }

  /** A store of the writer, a load of some reader, or the start of one more search. */
  ghost predicate Next(a: System, b: System) {
    || (WriterStep(a.s, b.s, a.w, b.w) && b.readers == a.readers)
    || (b.s == a.s && b.w == a.w && exists i, r ::
        0 <= i < |a.readers| && b.readers == a.readers[i := r] && ReadStep(a.s, a.readers[i], r))
    || (b.s == a.s && b.w == a.w && exists r :: b.readers == a.readers + [r] && StartRead(a.s, r))
  }

  ghost predicate IsRun(run: seq<System>) {
    && |run| > 0 && SystemInv(run[0]) && run[0].readers == []
    && forall k :: 0 < k < |run| ==> Next(run[k - 1], run[k])
  }

  lemma StartKeepsOk(s: State, r: Reader)
    requires Inv(s) && StartRead(s, r)
    ensures ReaderOk(s, r)
  {
  }

  lemma NextKeepsInv(a: System, b: System)
    requires SystemInv(a) && Next(a, b)
    ensures SystemInv(b) && Grows(a.s, b.s)
  {
    if WriterStep(a.s, b.s, a.w, b.w) && b.readers == a.readers {
      WriterStepKeepsInv(a.s, b.s, a.w, b.w);
      forall i | 0 <= i < |b.readers| ensures ReaderOk(b.s, b.readers[i]) {
        ReaderStable(a.s, b.s, a.readers[i]);
      }
    } else {
      GrowsSelf(a.s);
      if i, r :| 0 <= i < |a.readers| && b.readers == a.readers[i := r] && ReadStep(a.s, a.readers[i], r) {
        ReadKeepsOk(a.s, a.readers[i], r);
      } else {
        var r :| b.readers == a.readers + [r] && StartRead(a.s, r);
        StartKeepsOk(a.s, r);
      }
    }
  }

  lemma GrowsSelf(s: State)
    requires Inv(s)
    ensures Grows(s, s)
  {
    forall l, y | 0 <= l < MAX_HEIGHT && y in s.levels[l] ensures y in s.keys {
      assert LevelOk(s.keys, s.next, s.levels[l], l);
    }
  }

  /** After every single load and store of every run, every level is sorted and a sublist of the one below, the
      link each reader is about to read is set, and what a finished search found skips no key that was in the
      list when it began. */
  lemma {:induction false} EveryStepSound(run: seq<System>, k: nat)
    requires IsRun(run) && k < |run|
    ensures SystemInv(run[k])
    ensures forall r :: r in run[k].readers ==> (r.x, r.level) in run[k].s.next
    ensures forall r :: r in run[k].readers && r.found.Some? ==>
        IsGap(run[k].s.keys, r.seen, r.bound, r.x, r.found.value)
  {
    if k > 0 {
      EveryStepSound(run, k - 1);
      NextKeepsInv(run[k - 1], run[k]);
    }
    forall r | r in run[k].readers ensures (r.x, r.level) in run[k].s.next {
      ReaderLinkIsSet(run[k].s, r);
    }
  }

  /** A search for a key that was in the list when it began ends on that key. */
  lemma SearchFinds(s: State, r: Reader, y: nat)
    requires Inv(s) && ReaderOk(s, r) && r.found.Some? && y in r.seen && y in s.keys && r.bound == Some(s.keys[y])
    ensures r.found.value == Some(y)
  {
    assert LevelOk(s.keys, s.next, s.levels[0], 0);
  }

  // ---------------------------------------------------------------------------------------------
  // The class
  // ---------------------------------------------------------------------------------------------

  /** Nodes of a level that come after x: what a search still has to its right. */
  ghost function Right(keys: map<nat, Key>, level: set<nat>, x: nat): set<nat>
    requires forall y :: y in level ==> y in keys
  {
    set y | y in level && Precedes(keys, x, y)
  }

  lemma RightShrinks(keys: map<nat, Key>, level: set<nat>, x: nat, n: nat)
    requires forall y :: y in level ==> y in keys
    requires n in level && n != HEAD && Precedes(keys, x, n)
    ensures |Right(keys, level, n)| < |Right(keys, level, x)|
  {
    assert n in Right(keys, level, x) && n !in Right(keys, level, n);
    Smaller(Right(keys, level, n), Right(keys, level, x));
  }

  lemma Smaller(A: set<nat>, B: set<nat>)
    requires A < B
    ensures |A| < |B|
  {
    var x :| x in B && x !in A;
    assert A <= B - {x};
    NotLarger(A, B - {x});
  }

  lemma {:induction false} NotLarger(A: set<nat>, B: set<nat>)
    requires A <= B
    ensures |A| <= |B|
  {
    if x :| x in A {
      NotLarger(A - {x}, B - {x});
    }
  }

  /** Shared memory and the writer's place, from one step of the writer to the next. */
  ghost predicate IsTrail(trail: seq<(State, Writer)>, first: (State, Writer), last: (State, Writer)) {
    && |trail| > 0 && trail[0] == first && trail[|trail| - 1] == last
    && forall k :: 0 < k < |trail| ==> WriterStep(trail[k - 1].0, trail[k].0, trail[k - 1].1, trail[k].1)
  }

  lemma TrailGoesOn(trail: seq<(State, Writer)>, first: (State, Writer), middle: (State, Writer), last: (State, Writer))
    requires IsTrail(trail, first, middle) && WriterStep(middle.0, last.0, middle.1, last.1)
    ensures IsTrail(trail + [last], first, last)
  {
  }

  class SkipList {
    var keys: map<nat, Key>
    var next: map<(nat, nat), Option<nat>>
    var maxHeight: nat
    ghost var levels: seq<set<nat>>
    var arena: nat            // nodes from here on are free
    const rnd: Random.Random

    ghost function Abs(): State
      reads this
    {
      State(keys, next, maxHeight, levels)
    }

    ghost predicate Valid()
      reads this, rnd
    {
      Inv(Abs()) && rnd.Valid() && arena > HEAD && forall y :: y in keys ==> y < arena
    }

    constructor ()
      ensures Valid() && Keys(Abs()) == {} && fresh(rnd)
    {
      keys, maxHeight, arena := map[], 1, 1;
      next := map i: nat | 0 <= i < MAX_HEIGHT :: (HEAD, i) := None;
      levels := seq(MAX_HEIGHT, i => {});
      rnd := new Random.Random(0xdead_beef);
    }

    /** The height is one more than the run of numbers from the generator that are divisible by 4, at most 12. */
    method RandomHeight() returns (height: nat)
      requires rnd.Valid()
      modifies rnd
      ensures rnd.Valid() && 1 <= height <= MAX_HEIGHT
      ensures forall j :: 0 <= j < height - 1 ==> Random.Output(old(rnd.seed), j) % 4 == 0
      ensures height < MAX_HEIGHT ==> Random.Output(old(rnd.seed), height - 1) % 4 != 0
      ensures rnd.seed == Random.Output(old(rnd.seed), if height < MAX_HEIGHT then height - 1 else MAX_HEIGHT - 2)
    {
      height := 1;
      while height < MAX_HEIGHT
        invariant rnd.Valid() && 1 <= height <= MAX_HEIGHT
        invariant rnd.seed == if height == 1 then old(rnd.seed) else Random.Output(old(rnd.seed), height - 2)
        invariant forall j :: 0 <= j < height - 1 ==> Random.Output(old(rnd.seed), j) % 4 == 0
      {
        var r := rnd.Next();
        if r % 4 != 0 {
          break;
        }
        height := height + 1;
      }
    }

    method FindGreaterOrEqual(key: Key) returns (node: Option<nat>, prev: seq<nat>)
      requires Valid()
      ensures |prev| == MAX_HEIGHT
      ensures forall l :: 0 <= l < maxHeight ==> IsPrev(keys, levels[l], prev[l], key)
      ensures IsGap(keys, levels[0], Some(key), prev[0], node) && (node.Some? ==> node.value in levels[0])
    {
      var x, level := HEAD, maxHeight - 1;
      prev := seq(MAX_HEIGHT, i => HEAD);
      while true
        invariant 0 <= level < maxHeight && |prev| == MAX_HEIGHT
        invariant x == HEAD || (x in levels[level] && x in keys && keys[x] < key)
        invariant forall l :: level < l < maxHeight ==> IsPrev(keys, levels[l], prev[l], key)
        decreases level, |if LevelOk(keys, next, levels[level], level) then Right(keys, levels[level], x) else {}|
      {
        assert LevelOk(keys, next, levels[level], level);
        var n := next[(x, level)];
        NextIs(Abs(), x, level, key);
        if n.Some? && keys[n.value] < key {
          RightShrinks(keys, levels[level], x, n.value);
          x := n.value;
        } else {
          prev := prev[level := x];
          if level == 0 {
            return n, prev;
          }
          level := level - 1;
        }
      }
    }

    method Contains(key: Key) returns (r: bool)
      requires Valid()
      ensures r <==> key in Keys(Abs())
    {
      var node, prev := FindGreaterOrEqual(key);
      assert LevelOk(keys, next, levels[0], 0);
      r := node.Some? && keys[node.value] == key;
    }

    /** Every store is a step of the state machine above, so readers may run between any two of them: the trail has
        shared memory after each.  (The new height and the new node, which no reader can reach yet, are one step.) */
    method Insert(key: Key) returns (ghost trail: seq<(State, Writer)>)
      requires Valid() && key !in Keys(Abs())
      modifies this, rnd
      ensures Valid() && Keys(Abs()) == old(Keys(Abs())) + {key}
      ensures IsTrail(trail, (old(Abs()), Idle), (Abs(), Idle))
    {
      var node: Option<nat>, prev: seq<nat> := FindGreaterOrEqual(key);
      var height := RandomHeight();
      ghost var before := Abs();
      if height > maxHeight {
        for i := maxHeight to height
          invariant |prev| == MAX_HEIGHT && Abs() == before && Valid()
          invariant forall l :: 0 <= l < i ==> IsPrev(keys, levels[l], prev[l], key)
        {
          prev := prev[i := HEAD];
        }
        maxHeight := height;
      }
      var x := arena;
      arena := arena + 1;
      keys := keys[x := key];
      ghost var w := Linking(x, height, prev, 0, false);
      BeginKeepsInv(before, Abs(), w, key);
      trail := [(before, Idle), (Abs(), w)];
      trail := LinkNode(w, x, height, prev, key, trail);
    }

    method LinkNode(ghost w0: Writer, x: nat, height: nat, prev: seq<nat>, key: Key, ghost trail0: seq<(State, Writer)>)
        returns (ghost trail: seq<(State, Writer)>)
      requires Valid() && w0 == Linking(x, height, prev, 0, false) && WriterOk(Abs(), w0) && keys[x] == key
      requires trail0 != [] && IsTrail(trail0, trail0[0], (Abs(), w0))
      modifies this`next, this`levels
      ensures Valid() && Keys(Abs()) == old(Keys(Abs())) + {key}
      ensures IsTrail(trail, trail0[0], (Abs(), Idle))
    {
      trail := trail0;
      ghost var w := w0;
      ghost var k0 := Keys(Abs());
      var i := 0;
      while i < height
        invariant Valid() && i <= height && WriterOk(Abs(), w) && keys == old(keys)
        invariant w == if i < height then Linking(x, height, prev, i, false) else Idle
        invariant Keys(Abs()) == if i == 0 then k0 else k0 + {key}
        invariant IsTrail(trail, trail0[0], (Abs(), w))
      {
        ghost var before := (Abs(), w);
        w := CopyNext(x, prev[i], i, w);
        ghost var between := (Abs(), w);
        TrailGoesOn(trail, trail0[0], before, between);
        w := SetNext(x, prev[i], i, w);
        TrailGoesOn(trail + [between], trail0[0], between, (Abs(), w));
        trail := trail + [between] + [(Abs(), w)];
        i := i + 1;
      }
    }

    /** x->NoBarrier_SetNext(i, p->NoBarrier_Next(i)): the new node gets its own link while no reader can reach it
        on this level. */
    method CopyNext(x: nat, p: nat, i: nat, ghost w: Writer) returns (ghost w': Writer)
      requires Valid() && WriterOk(Abs(), w) && w.Linking? && !w.copied && x == w.x && i == w.i && p == w.prev[i]
      modifies this`next
      ensures CopyStep(old(Abs()), Abs(), w, w')
      ensures Valid() && WriterOk(Abs(), w') && Keys(Abs()) == old(Keys(Abs()))
    {
      LinksOfPrev(Abs(), w);
      w' := w.(copied := true);
      next := next[(x, i) := next[(p, i)]];
      CopyKeepsInv(old(Abs()), Abs(), w, w');
    }

    /** p->SetNext(i, x): from here on readers meet the new node on this level. */
    method SetNext(x: nat, p: nat, i: nat, ghost w: Writer) returns (ghost w': Writer)
      requires Valid() && WriterOk(Abs(), w) && w.Linking? && w.copied && x == w.x && i == w.i && p == w.prev[i]
      modifies this`next, this`levels
      ensures PublishStep(old(Abs()), Abs(), w, w')
      ensures Valid() && WriterOk(Abs(), w') && Keys(Abs()) == old(Keys(Abs())) + {keys[x]}
    {
      w' := if i + 1 < w.height then w.(i := i + 1, copied := false) else Idle;
      next := next[(p, i) := Some(x)];
      levels := levels[i := levels[i] + {x}];
      PublishKeepsLevels(old(Abs()), Abs(), w, w');
      PublishKeepsWriter(old(Abs()), Abs(), w, w');
      PublishAdds(old(Abs()), Abs(), w, w');
    }
  }

  lemma LinksOfPrev(s: State, w: Writer)
    requires Inv(s) && WriterOk(s, w) && w.Linking?
    ensures (w.prev[w.i], w.i) in s.next
  {
    assert LevelOk(s.keys, s.next, s.levels[w.i], w.i);
  }

  /** What the link read at (x, level) says of the place of key. */
  lemma NextIs(s: State, x: nat, level: nat, key: Key)
    requires Inv(s) && level < MAX_HEIGHT
    requires x == HEAD || (x in s.levels[level] && x in s.keys && s.keys[x] < key)
    ensures (x, level) in s.next
    ensures var n := s.next[(x, level)];
      && (n.Some? ==>
          n.value in s.levels[level] && n.value in s.keys && n.value != HEAD && Precedes(s.keys, x, n.value))
      && ((n.Some? && s.keys[n.value] < key) || IsPrev(s.keys, s.levels[level], x, key))
      && ((n.Some? && s.keys[n.value] < key) || IsGap(s.keys, s.levels[level], Some(key), x, n))
  {
    assert LevelOk(s.keys, s.next, s.levels[level], level);
    assert IsNext(s.keys, s.levels[level], x, s.next[(x, level)]);
    forall y | y in s.levels[level] ensures Precedes(s.keys, x, y) || !Precedes(s.keys, x, y) {}
  }
}
