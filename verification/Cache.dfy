/** A cache with least-recently-used eviction and reference counts (util/cache.cc).  Lists are sequences,
    oldest entry first. */
module Cache {
  import opened Wrappers
  import opened HandleTable

  /** All charges of a set. */
  ghost function Sum(s: set<Handle>): nat {
    if s == {} then 0 else
      var h :| h in s;
      h.charge + Sum(s - {h})
  }

  lemma {:induction false} SumRemoves(s: set<Handle>, h: Handle)
    requires h in s
    ensures Sum(s) == h.charge + Sum(s - {h})
    decreases |s|
  {
    var g :| g in s && Sum(s) == g.charge + Sum(s - {g});
    if g != h {
      SumRemoves(s - {g}, h);
      SumRemoves(s - {h}, g);
      assert s - {g} - {h} == s - {h} - {g};
    }
  }

  lemma SumAdds(s: set<Handle>, h: Handle)
    requires h !in s
    ensures Sum(s + {h}) == Sum(s) + h.charge
  {
    SumRemoves(s + {h}, h);
    assert s + {h} - {h} == s;
  }

  function Without(s: seq<Handle>, h: Handle): (r: seq<Handle>)
    ensures forall g :: g in r <==> g in s && g != h
  {
    if s == [] then [] else if s[0] == h then Without(s[1..], h) else [s[0]] + Without(s[1..], h)
  }

  lemma {:induction false} WithoutNoRepeats(s: seq<Handle>, h: Handle)
    requires NoRepeats(s)
    ensures NoRepeats(Without(s, h))
  {
    if s != [] {
      var t := s[1..];
      forall i, j | 0 <= i < j < |t| ensures t[i] != t[j] {
        assert s[i + 1] != s[j + 1];
      }
      WithoutNoRepeats(t, h);
      assert s[0] !in t;
    }
  }

  /** What a cache keeps about its entries: the fields of LRUCache, and of each entry that is not freed the references
      to it; of these, clients says how many are the clients'.  releasedAt is when a client last gave up the only
      reference clients had, on a clock that counts these events. */
  datatype Books = Books(usage: int, lru: seq<Handle>, inUse: seq<Handle>, refs: map<Handle, nat>, inCache: set<Handle>,
                         nextId: nat, clients: map<Handle, nat>, freed: set<Handle>, releasedAt: map<Handle, nat>,
                         clock: nat)

  /** The references clients hold on an entry, plus the cache's own. */
  ghost predicate Counted(refs: map<Handle, nat>, clients: map<Handle, nat>, inCache: set<Handle>) {
    && refs.Keys == clients.Keys && inCache <= refs.Keys
    && forall h :: h in refs ==> refs[h] > 0 && refs[h] == clients[h] + if h in inCache then 1 else 0
  }

  /** Entries in the cache are on one list: the LRU list if no client holds them, the in-use list otherwise. */
  ghost predicate OnLists(lru: seq<Handle>, inUse: seq<Handle>, refs: map<Handle, nat>, inCache: set<Handle>) {
    inCache <= refs.Keys && forall k {:trigger Unfold(k)} :: k == IN_LISTS && Unfold(k) ==>
      && NoRepeats(lru) && NoRepeats(inUse)
      && (forall h :: h in lru <==> h in inCache && h in refs && refs[h] == 1)
      && (forall h :: h in inUse <==> h in inCache && h in refs && refs[h] >= 2)
  }

  /** The entries of the LRU list were given up one after the other. */
  ghost predicate InOrder(lru: seq<Handle>, releasedAt: map<Handle, nat>, clock: nat) {
    forall k {:trigger Unfold(k)} :: k == IN_ORDER && Unfold(k) ==>
      && (forall h :: h in releasedAt ==> releasedAt[h] < clock)
      && (forall i :: 0 <= i < |lru| ==> lru[i] in releasedAt)
      && (forall i, j :: 0 <= i < j < |lru| ==> releasedAt[lru[i]] < releasedAt[lru[j]])
  }

  lemma {:induction false} InOrderWithout(lru: seq<Handle>, releasedAt: map<Handle, nat>, clock: nat, e: Handle)
    requires InOrder(lru, releasedAt, clock)
    ensures InOrder(Without(lru, e), releasedAt, clock)
  {
    assert Unfold(IN_ORDER);
    if lru != [] {
      assert forall i :: 0 <= i < |lru| - 1 ==> lru[1..][i] == lru[i + 1];
      InOrderWithout(lru[1..], releasedAt, clock, e);
      forall g | g in Without(lru[1..], e) ensures releasedAt[lru[0]] < releasedAt[g] {
        var i :| 0 <= i < |lru| - 1 && lru[1..][i] == g;
        assert lru[i + 1] == g;
      }
    }
  }

  /** An entry that is given up now is the last of all. */
  lemma InOrderAppend(lru: seq<Handle>, releasedAt: map<Handle, nat>, clock: nat, e: Handle)
    requires InOrder(lru, releasedAt, clock) && e !in lru
    ensures InOrder(lru, releasedAt[e := clock], clock + 1) && InOrder(lru + [e], releasedAt[e := clock], clock + 1)
  {
    assert Unfold(IN_ORDER);
  }

  /** Usage is the sum of the charges, entries are counted and listed as above, the LRU list is in the order in which
      clients gave its entries up, and what was freed is gone. */
  ghost predicate Agrees(b: Books) {
    b.inCache <= b.refs.Keys == b.clients.Keys && forall k {:trigger Unfold(k)} :: k == IN_CACHE && Unfold(k) ==>
      && Counted(b.refs, b.clients, b.inCache) && OnLists(b.lru, b.inUse, b.refs, b.inCache)
      && b.usage == Sum(b.inCache) && InOrder(b.lru, b.releasedAt, b.clock)
      && b.freed !! b.refs.Keys && (forall h :: h in b.refs || h in b.freed ==> h.id < b.nextId)
  }

  // ----- what the operations do to the books -----

  /** A client takes a reference. */
  ghost function Referenced(b: Books, e: Handle): Books
    requires e in b.refs && e in b.clients
  {
    var c := b.(refs := b.refs[e := b.refs[e] + 1], clients := b.clients[e := b.clients[e] + 1]);
    if b.refs[e] == 1 then c.(lru := Without(b.lru, e), inUse := b.inUse + [e]) else c
  }

  /** A reference is given up.  The last one frees the entry; the last but one, if it is the cache's, makes it the
      newest entry of the LRU list. */
  ghost function Unreferenced(b: Books, e: Handle): Books
    requires e in b.refs
  {
    if b.refs[e] <= 1 then b.(refs := b.refs - {e}, clients := b.clients - {e}, freed := b.freed + {e})
    else if b.refs[e] == 2
        && e in b.inCache then b.(refs := b.refs[e := 1], lru := b.lru + [e], inUse := Without(b.inUse, e))
    else b.(refs := b.refs[e := b.refs[e] - 1])
  }

  /** A client gives up a reference; the clock notes it if no client has another. */
  ghost function LetGo(b: Books, e: Handle): Books
    requires e in b.clients
  {
    var c := b.(clients := b.clients[e := if b.clients[e] > 0 then b.clients[e] - 1 else 0]);
    if b.clients[e] == 1 then c.(releasedAt := b.releasedAt[e := b.clock], clock := b.clock + 1) else c
  }

  ghost function Released(b: Books, e: Handle): Books
    requires e in b.refs && e in b.clients
  {
    Unreferenced(LetGo(b, e), e)
  }

  /** The entry leaves the cache, which gives up its reference. */
  ghost function Erased(b: Books, e: Handle): Books
    requires e in b.refs
  {
    Unreferenced(b.(lru := Without(b.lru, e), inUse := Without(b.inUse, e), inCache := b.inCache - {e},
        usage := b.usage - e.charge), e)
  }

  /** A new entry, with a reference for the cache and one for the caller. */
  ghost function Added(b: Books, e: Handle): Books {
    b.(usage := b.usage + e.charge, inUse := b.inUse + [e], refs := b.refs[e := 2], inCache := b.inCache + {e},
        nextId := b.nextId + 1,
       clients := b.clients[e := 1])
  }

  lemma ReferencedCounts(refs: map<Handle, nat>, clients: map<Handle, nat>, inCache: set<Handle>, e: Handle)
    requires Counted(refs, clients, inCache) && e in refs
    ensures Counted(refs[e := refs[e] + 1], clients[e := clients[e] + 1], inCache)
  {
  }

  lemma ReleasedCounts(refs: map<Handle, nat>, clients: map<Handle, nat>, inCache: set<Handle>, e: Handle)
    requires Counted(refs, clients, inCache) && e in refs && clients[e] > 0
    ensures refs[e] == 1 ==> e !in inCache && Counted(refs - {e}, clients[e := clients[e] - 1] - {e}, inCache)
    ensures refs[e] > 1 ==> Counted(refs[e := refs[e] - 1], clients[e := clients[e] - 1], inCache)
    ensures refs[e] == 2 && e in inCache ==> clients[e] == 1
  {
  }

  lemma AgreeParts(b: Books)
    requires Agrees(b)
    ensures Counted(b.refs, b.clients, b.inCache) && OnLists(b.lru, b.inUse, b.refs, b.inCache)
    ensures InOrder(b.lru, b.releasedAt, b.clock)
  {
    assert Unfold(IN_CACHE);
  }

  /** Books that differ only in references, lists and times of release agree if those parts do. */
  lemma PartsAgree(b: Books, c: Books)
    requires Agrees(b) && c.inCache == b.inCache && c.usage == b.usage && c.nextId == b.nextId
    requires c.refs.Keys + c.freed == b.refs.Keys + b.freed && c.freed !! c.refs.Keys
    requires Counted(c.refs, c.clients, c.inCache) && OnLists(c.lru, c.inUse, c.refs, c.inCache)
    requires InOrder(c.lru, c.releasedAt, c.clock)
    ensures Agrees(c)
  {
    assert Unfold(IN_CACHE);
    forall h | h in c.refs || h in c.freed ensures h.id < c.nextId {
      assert h in c.refs.Keys + c.freed;
    }
  }

  lemma ReferencedAgrees(b: Books, e: Handle)
    requires Agrees(b) && e in b.inCache
    ensures Agrees(Referenced(b, e)) && Referenced(b, e).lru == Without(b.lru, e)
  {
    AgreeParts(b);
    ReferencedCounts(b.refs, b.clients, b.inCache, e);
    RefOk(b.lru, b.inUse, b.refs, b.inCache, e);
    InOrderWithout(b.lru, b.releasedAt, b.clock, e);
    FreedApart(b);
    PartsAgree(b, Referenced(b, e));
  }

  lemma FreedApart(b: Books)
    requires Agrees(b)
    ensures b.freed !! b.refs.Keys
  {
    assert Unfold(IN_CACHE);
  }

  lemma ReleasedAgrees(b: Books, e: Handle)
    requires Agrees(b) && e in b.clients && b.clients[e] > 0
    ensures b.refs[e] > 0 && Agrees(Released(b, e))
  {
    AgreeParts(b);
    ReleasedCounts(b.refs, b.clients, b.inCache, e);
    ReleaseOk(b.lru, b.inUse, b.refs, b.inCache, e);
    if b.clients[e] == 1 {
      assert e !in b.lru by { assert Unfold(IN_LISTS); }
      InOrderAppend(b.lru, b.releasedAt, b.clock, e);
    }
    FreedApart(b);
    PartsAgree(b, Released(b, e));
  }

  lemma ErasedCounts(refs: map<Handle, nat>, clients: map<Handle, nat>, inCache: set<Handle>, e: Handle)
    requires Counted(refs, clients, inCache) && e in inCache
    ensures refs[e] == 1 ==> Counted(refs - {e}, clients - {e}, inCache - {e})
    ensures refs[e] > 1 ==> Counted(refs[e := refs[e] - 1], clients, inCache - {e})
  {
  }

  lemma ErasedAgrees(b: Books, e: Handle)
    requires Agrees(b) && e in b.inCache
    ensures b.refs[e] > 0 && (b.refs[e] == 1 <==> b.clients[e] == 0) && b.usage >= e.charge && Agrees(Erased(b, e))
  {
    assert Unfold(IN_CACHE);
    SumRemoves(b.inCache, e);
    ErasedCounts(b.refs, b.clients, b.inCache, e);
    EraseOk(b.lru, b.inUse, b.refs, b.inCache, e);
    InOrderWithout(b.lru, b.releasedAt, b.clock, e);
  }

  lemma AddedAgrees(b: Books, e: Handle)
    requires Agrees(b) && e.id == b.nextId
    ensures e !in b.refs && e !in b.freed && e !in b.lru && e !in b.inCache && Agrees(Added(b, e))
  {
    assert Unfold(IN_CACHE) && Unfold(IN_LISTS);
    SumAdds(b.inCache, e);
    AddOk(b.lru, b.inUse, b.refs, b.inCache, e);
  }

  // ----- eviction -----

  lemma OldestIsFree(b: Books)
    requires Agrees(b) && b.lru != []
    ensures b.lru[0] in b.inCache && b.lru[0] in b.refs && b.refs[b.lru[0]] == 1 && b.lru[0] in b.clients
        && b.clients[b.lru[0]] == 0
    ensures Without(b.lru, b.lru[0]) == b.lru[1..] && Without(b.inUse, b.lru[0]) == b.inUse
  {
    assert Unfold(IN_CACHE) && Unfold(IN_LISTS);
    assert b.lru[0] in b.lru;
    WithoutFirst(b.lru);
    WithoutAbsent(b.inUse, b.lru[0]);
  }

  /** The oldest entry that no client holds leaves the cache. */
  ghost function OldestErased(b: Books): (r: Books)
    requires Agrees(b) && b.lru != []
    ensures Agrees(r) && r.lru == b.lru[1..]
  {
    OldestIsFree(b);
    ErasedAgrees(b, b.lru[0]);
    Erased(b, b.lru[0])
  }

  lemma OldestErasedIs(b: Books)
    requires Agrees(b) && b.lru != []
    ensures var c, e := OldestErased(b), b.lru[0];
      && c.lru == b.lru[1..] && c.inUse == b.inUse && c.nextId == b.nextId && c.inCache == b.inCache - {e}
      && c.freed == b.freed + {e} && c.clients == b.clients - {e} && e in b.clients && b.clients[e] == 0
      && c.usage == b.usage - e.charge && c.releasedAt == b.releasedAt
  {
    OldestIsFree(b);
  }

  /** Evict until the charges fit or clients hold everything that is left. */
  ghost function Evicted(b: Books, capacity: nat): (r: Books)
    requires Agrees(b)
    ensures Agrees(r) && (r.usage <= capacity || r.lru == [])
    decreases |b.lru|
  {
    if b.usage <= capacity || b.lru == [] then b else Evicted(OldestErased(b), capacity)
  }

  /** The first k entries of the LRU list have left the cache and were freed; nothing else has changed. */
  ghost predicate OldestGone(b: Books, r: Books, k: nat) {
    && k <= |b.lru| && r.lru == b.lru[k..] && r.releasedAt == b.releasedAt && r.inUse == b.inUse && r.nextId == b.nextId
    && (forall h :: h in r.inCache <==> h in b.inCache && h !in b.lru[..k])
    && (forall h :: h in r.freed <==> h in b.freed || h in b.lru[..k])
    && (forall h :: h in r.clients <==> h in b.clients && h !in b.lru[..k])
    && (forall h :: h in r.clients ==> r.clients[h] == b.clients[h])
  }

  lemma OneMoreGone(b: Books, c: Books, r: Books, k: nat)
    requires b.lru != [] && c.lru == b.lru[1..] && c.inUse == b.inUse && c.nextId == b.nextId
        && c.inCache == b.inCache - {b.lru[0]}
    requires c.releasedAt == b.releasedAt && c.freed == b.freed + {b.lru[0]} && c.clients == b.clients - {b.lru[0]}
    requires OldestGone(c, r, k)
    ensures OldestGone(b, r, k + 1)
  {
    assert b.lru[..k + 1] == [b.lru[0]] + c.lru[..k];
  }

  /** Eviction takes the oldest entries, none that a client holds. */
  lemma {:induction false} EvictionTakesOldest(b: Books, capacity: nat) returns (k: nat)
    requires Agrees(b)
    ensures OldestGone(b, Evicted(b, capacity), k) && NotHeld(b.lru[..k], b.clients)
    decreases |b.lru|
  {
    if b.usage <= capacity || b.lru == [] {
      k := 0;
    } else {
      OldestErasedIs(b);
      var c := OldestErased(b);
      var n := EvictionTakesOldest(c, capacity);
      OneMoreGone(b, c, Evicted(b, capacity), n);
      OneMoreNotHeld(b, c, n);
      k := n + 1;
    }
  }

  ghost predicate NotHeld(s: seq<Handle>, clients: map<Handle, nat>) {
    forall h :: h in s ==> h in clients && clients[h] == 0
  }

  lemma OneMoreNotHeld(b: Books, c: Books, n: nat)
    requires b.lru != [] && c.lru == b.lru[1..] && n <= |c.lru| && c.clients == b.clients - {b.lru[0]}
    requires b.lru[0] in b.clients && b.clients[b.lru[0]] == 0 && NotHeld(c.lru[..n], c.clients)
    ensures NotHeld(b.lru[..n + 1], b.clients)
  {
    assert b.lru[..n + 1] == [b.lru[0]] + c.lru[..n];
  }

  /** y is in the cache and no client holds it. */
  ghost predicate IsFree(inCache: set<Handle>, clients: map<Handle, nat>, y: Handle) {
    y in inCache && y in clients && clients[y] == 0
  }

  lemma EvictedKeeps(b: Books, capacity: nat)
    requires Agrees(b)
    ensures var c := Evicted(b, capacity);
      c.releasedAt == b.releasedAt && forall h :: h in c.clients ==> h in b.clients && c.clients[h] == b.clients[h]
  {
    var k := EvictionTakesOldest(b, capacity);
  }

  lemma EvictedIsFree(b: Books, capacity: nat, x: Handle)
    requires Agrees(b) && x in b.inCache && x !in Evicted(b, capacity).inCache
    ensures x in b.clients && b.clients[x] == 0 && x in Evicted(b, capacity).freed
  {
    var k := EvictionTakesOldest(b, capacity);
    assert x in b.lru[..k];
  }

  lemma GivenUpEarlier(lru: seq<Handle>, releasedAt: map<Handle, nat>, clock: nat, k: nat, x: Handle, y: Handle)
    requires InOrder(lru, releasedAt, clock) && k <= |lru| && x in lru[..k] && y in lru && y !in lru[..k]
    ensures x in releasedAt && y in releasedAt && releasedAt[x] < releasedAt[y]
  {
    assert Unfold(IN_ORDER) && lru == lru[..k] + lru[k..];
    var i :| 0 <= i < k && lru[i] == x;
    var j :| 0 <= j < |lru| - k && lru[k..][j] == y;
    assert lru[k + j] == y;
  }

  lemma FreeIsListed(b: Books, y: Handle)
    requires Agrees(b) && IsFree(b.inCache, b.clients, y)
    ensures y in b.lru
  {
    assert Unfold(IN_CACHE) && Unfold(IN_LISTS);
  }

  lemma AgreeInOrder(b: Books)
    requires Agrees(b)
    ensures InOrder(b.lru, b.releasedAt, b.clock)
  {
    assert Unfold(IN_CACHE);
  }

  /** Of the entries that no client holds, those that are evicted were given up before those that stay. */
  lemma EvictedWereGivenUpFirst(b: Books, capacity: nat, x: Handle, y: Handle)
    requires Agrees(b) && x in b.inCache && x !in Evicted(b, capacity).inCache
    requires IsFree(Evicted(b, capacity).inCache, Evicted(b, capacity).clients, y)
    ensures x in b.releasedAt && y in b.releasedAt && b.releasedAt[x] < b.releasedAt[y]
  {
    var k := EvictionTakesOldest(b, capacity);
    FreeIsListed(b, y);
    AgreeInOrder(b);
    GivenUpEarlier(b.lru, b.releasedAt, b.clock, k, x, y);
  }

  /** e enters the cache and takes the place of r, if there is one. */
  ghost function Entered(b: Books, e: Handle, r: Option<Handle>): Books {
    if r.Some? && r.value in Added(b, e).refs then Erased(Added(b, e), r.value) else Added(b, e)
  }

  lemma EnteredAgrees(b: Books, e: Handle, r: Option<Handle>)
    requires Agrees(b) && e.id == b.nextId && (r.Some? ==> r.value in b.inCache)
    ensures Agrees(Entered(b, e, r))
        && (r.Some? ==> r.value in Added(b, e).refs && Entered(b, e, r) == Erased(Added(b, e), r.value))
    ensures e in Entered(b, e, r).inCache && e !in Entered(b, e, r).lru && e in Entered(b, e, r).clients
        && Entered(b, e, r).clients[e] == 1
  {
    AddedAgrees(b, e);
    if r.Some? {
      ErasedAgrees(Added(b, e), r.value);
    }
  }

  /** The new entry survives the eviction that it causes. */
  lemma NewStays(b: Books, e: Handle, capacity: nat)
    requires Agrees(b) && e in b.inCache && e !in b.lru && e in b.clients
    ensures var r := Evicted(b, capacity); e in r.inCache && e in r.clients && r.clients[e] == b.clients[e]
  {
    var k := EvictionTakesOldest(b, capacity);
    assert forall h :: h in b.lru[..k] ==> h in b.lru;
  }

  /** Without its last step the charges would not fit yet. */
  lemma {:induction false} EvictionIsNeeded(b: Books, capacity: nat)
    requires Agrees(b)
    ensures var r := Evicted(b, capacity);
      |r.lru| <= |b.lru| && (|r.lru| == |b.lru| ==> r == b)
          && (|r.lru| < |b.lru| ==> r.usage + b.lru[|b.lru| - |r.lru| - 1].charge > capacity)
    decreases |b.lru|
  {
    if b.usage > capacity && b.lru != [] {
      OldestErasedIs(b);
      EvictionIsNeeded(OldestErased(b), capacity);
    }
  }

  // ----- the cache -----

  class LRUCache {
    const capacity: nat
    var usage: nat
    var lru: seq<Handle>
    var inUse: seq<Handle>
    var refs: map<Handle, nat>      // one for every entry that is not freed
    var inCache: set<Handle>
    var nextId: nat
    const table: HandleTable
    ghost var clients: map<Handle, nat>
    ghost var freed: set<Handle>
    ghost var releasedAt: map<Handle, nat>
    ghost var clock: nat

    ghost function Abs(): Books
      reads this
    {
      Books(usage, lru, inUse, refs, inCache, nextId, clients, freed, releasedAt, clock)
    }

    ghost predicate Valid()
      reads this, table
    {
      Agrees(Abs()) && table.Valid() && table.held == inCache
    }

    constructor (capacity: nat)
      requires capacity > 0
      ensures Valid() && Abs() == Books(0, [], [], map[], {}, 0, map[], {}, map[], 0)
      ensures fresh(table) && this.capacity == capacity
    {
      this.capacity := capacity;
      table := new HandleTable();
      usage, lru, inUse, refs, inCache, nextId, clients, freed := 0, [], [], map[], {}, 0, map[], {};
      releasedAt, clock := map[], 0;
    }

    method Ref(e: Handle)
      requires e in inCache && e in refs && e in clients
      modifies this
      ensures Abs() == Referenced(old(Abs()), e)
    {
      if refs[e] == 1 {
        lru := Without(lru, e);
        inUse := inUse + [e];
      }
      refs := refs[e := refs[e] + 1];
      clients := clients[e := clients[e] + 1];
    }

    method Unref(e: Handle)
      requires e in refs && refs[e] > 0
      modifies this
      ensures Abs() == Unreferenced(old(Abs()), e)
    {
      refs := refs[e := refs[e] - 1];
      if refs[e] == 0 {
        refs := refs - {e};
        clients, freed := clients - {e}, freed + {e};
      } else if e in inCache && refs[e] == 1 {
        inUse := Without(inUse, e);
        lru := lru + [e];
      }
    }

    ghost method GiveUp(e: Handle)
      requires e in clients && clients[e] > 0
      modifies this`clients, this`releasedAt, this`clock
      ensures Abs() == LetGo(old(Abs()), e)
    {
      if clients[e] == 1 {
        releasedAt, clock := releasedAt[e := clock], clock + 1;
      }
      clients := clients[e := clients[e] - 1];
    }

    /** A client gives a reference back. */
    method Release(e: Handle)
      requires Valid() && e in clients && clients[e] > 0
      modifies this
      ensures Valid() && Abs() == Released(old(Abs()), e)
    {
      ReleasedAgrees(Abs(), e);
      GiveUp(e);
      Unref(e);
    }

    /** Take e, which is no longer in the hash table, out of the cache. */
    method FinishErase(e: Handle)
      requires Agrees(Abs()) && e in inCache
      modifies this
      ensures Abs() == Erased(old(Abs()), e) && Agrees(Abs())
    {
      ErasedAgrees(Abs(), e);
      lru, inUse := Without(lru, e), Without(inUse, e);
      inCache := inCache - {e};
      usage := usage - e.charge;
      Unref(e);
    }

    method Lookup(key: Key, hash: nat) returns (r: Option<Handle>)
      requires Valid()
      modifies this
      ensures Valid()
      ensures r.Some? ==>
          r.value in old(inCache) && Fits(r.value, key, hash) && Abs() == Referenced(old(Abs()), r.value)
      ensures r.None? ==> Abs() == old(Abs()) && forall h :: h in inCache ==> !Fits(h, key, hash)
    {
      r := table.Lookup(key, hash);
      if r.Some? {
        ReferencedAgrees(Abs(), r.value);
        Ref(r.value);
      }
    }

    /** Clients may go on using an erased entry; without any, it is freed. */
    method Erase(key: Key, hash: nat) returns (r: Option<Handle>)
      requires Valid()
      modifies this, table
      ensures Valid()
      ensures r.Some? ==> r.value in old(inCache) && Fits(r.value, key, hash) && Abs() == Erased(old(Abs()), r.value)
      ensures r.None? ==> Abs() == old(Abs()) && forall h :: h in inCache ==> !Fits(h, key, hash)
    {
      r := table.Remove(key, hash);
      if r.Some? {
        FinishErase(r.value);
        ErasedLeaves(old(Abs()), r.value);
      }
    }

    /** Evict the oldest entries that no client holds until the charges fit. */
    method Evict()
      requires Valid()
      modifies this, table
      ensures Valid() && Abs() == Evicted(old(Abs()), capacity)
    {
      while usage > capacity && lru != []
        invariant Valid() && Evicted(Abs(), capacity) == Evicted(old(Abs()), capacity)
        decreases |lru|
      {
        EvictOldest();
      }
    }

    method EvictOldest()
      requires Valid() && lru != []
      modifies this, table
      ensures Valid() && Abs() == OldestErased(old(Abs()))
    {
      var oldest := lru[0];
      OldestIsFree(Abs());
      assert KeysDiffer(inCache);
      var r := Erase(oldest.key, oldest.hash);
    }

    /** A new entry, in use by the caller; it replaces the one with the same key, and the oldest ones make room. */
    method Insert(key: Key, hash: nat, charge: nat) returns (e: Handle, ghost r: Option<Handle>)
      requires Valid()
      modifies this, table
      ensures Valid() && e == Handle(old(nextId), key, hash, charge) && e !in old(refs) && e !in old(freed)
      ensures r.Some? ==> r.value in old(inCache) && Fits(r.value, key, hash)
      ensures r.None? ==> forall h :: h in old(inCache) ==> !Fits(h, key, hash)
      ensures Agrees(Entered(old(Abs()), e, r)) && Abs() == Evicted(Entered(old(Abs()), e, r), capacity)
      ensures e in inCache && e in clients && clients[e] == 1 && (usage <= capacity || lru == [])
      ensures OldestMadeRoom(old(Abs()), Abs(), r)
      ensures releasedAt == old(releasedAt)
    {
      e := Handle(nextId, key, hash, charge);
      r := Enter(e);
      EnteredAgrees(old(Abs()), e, r);
      NewStays(Abs(), e, capacity);
      EvictedInOrder(old(Abs()), e, r, capacity);
      Evict();
    }

    /** The new entry, with a reference for the cache and one for the caller. */
    method AddInUse(e: Handle)
      modifies this
      ensures Abs() == Added(old(Abs()), e)
    {
      refs := refs[e := 2];
      clients := clients[e := 1];
      inCache := inCache + {e};
      inUse := inUse + [e];
      usage := usage + e.charge;
      nextId := nextId + 1;
    }

    /** Enter e into lists and table, and finish with the entry it replaces. */
    method Enter(e: Handle) returns (r: Option<Handle>)
      requires Valid() && e.id == nextId
      modifies this, table
      ensures Valid() && Abs() == Entered(old(Abs()), e, r) && e !in old(refs) && e !in old(freed)
      ensures r.Some? ==> r.value in old(inCache) && Fits(r.value, e.key, e.hash)
      ensures r.None? ==> forall h :: h in old(inCache) ==> !Fits(h, e.key, e.hash)
    {
      AddedAgrees(Abs(), e);
      AddInUse(e);
      r := table.Insert(e);
      if r.Some? {
        FinishErase(r.value);
        ErasedLeaves(Added(old(Abs()), e), r.value);
      }
    }
  }

  /** x left the cache to make room, and not because r was replaced. */
  ghost predicate MadeRoom(inCache: set<Handle>, inCache': set<Handle>, r: Option<Handle>, x: Handle) {
    x in inCache && x !in inCache' && r != Some(x)
  }

  /** What left to make room was free, and given up before every free entry that stays. */
  ghost predicate OldestMadeRoom(a: Books, c: Books, r: Option<Handle>) {
    && (forall x | MadeRoom(a.inCache, c.inCache, r, x) :: x in c.freed && x in a.clients && a.clients[x] == 0)
    && (forall x, y | MadeRoom(a.inCache, c.inCache, r, x) && IsFree(c.inCache, c.clients, y) ::
          x in a.releasedAt && y in a.releasedAt && a.releasedAt[x] < a.releasedAt[y])
  }

  /** What leaves the cache for a new entry, apart from the entry that the new one replaces. */
  lemma EvictedInOrder(a: Books, e: Handle, r: Option<Handle>, capacity: nat)
    requires Agrees(a) && Agrees(Entered(a, e, r)) && e.id == a.nextId && (r.Some? ==> r.value in a.inCache)
    ensures var c := Evicted(Entered(a, e, r), capacity); c.releasedAt == a.releasedAt && OldestMadeRoom(a, c, r)
  {
    var b := Entered(a, e, r);
    EnteredHasAll(a, e, r);
    EvictedKeeps(b, capacity);
    RoomMade(a, b, Evicted(b, capacity), r, capacity);
  }

  /** Apart from r, b has the entries of a with the same clients, and perhaps others. */
  ghost predicate HasAllBut(a: Books, b: Books, r: Option<Handle>) {
    && b.releasedAt == a.releasedAt && a.inCache <= a.clients.Keys
    && forall x :: x in a.inCache && r != Some(x) ==>
        x in b.inCache && (x in b.clients ==> b.clients[x] == a.clients[x])
  }

  lemma RoomMade(a: Books, b: Books, c: Books, r: Option<Handle>, capacity: nat)
    requires Agrees(b) && c == Evicted(b, capacity) && HasAllBut(a, b, r)
    ensures OldestMadeRoom(a, c, r)
  {
    forall x | MadeRoom(a.inCache, c.inCache, r, x) ensures x in c.freed && x in a.clients && a.clients[x] == 0 {
      EvictedIsFree(b, capacity, x);
    }
    forall x, y | MadeRoom(a.inCache, c.inCache, r, x) && IsFree(c.inCache, c.clients, y)
      ensures x in a.releasedAt && y in a.releasedAt && a.releasedAt[x] < a.releasedAt[y]
    {
      EvictedWereGivenUpFirst(b, capacity, x, y);
    }
  }

  lemma EnteredHasAll(a: Books, e: Handle, r: Option<Handle>)
    requires Agrees(a) && e.id == a.nextId && (r.Some? ==> r.value in a.inCache)
    ensures HasAllBut(a, Entered(a, e, r), r)
  {
    AddedAgrees(a, e);
  }

  lemma ErasedLeaves(b: Books, e: Handle)
    requires e in b.refs
    ensures Erased(b, e).inCache == b.inCache - {e}
  {
  }

  lemma WithoutFirst(s: seq<Handle>)
    requires NoRepeats(s) && s != []
    ensures Without(s, s[0]) == s[1..]
  {
    assert s[0] !in s[1..];
    WithoutAbsent(s[1..], s[0]);
  }

  lemma RefOk(lru: seq<Handle>, inUse: seq<Handle>, refs: map<Handle, nat>, inCache: set<Handle>, e: Handle)
    requires OnLists(lru, inUse, refs, inCache) && e in inCache && refs[e] > 0
    ensures refs[e] == 1 ==> OnLists(Without(lru, e), inUse + [e], refs[e := refs[e] + 1], inCache)
    ensures refs[e] != 1 ==> OnLists(lru, inUse, refs[e := refs[e] + 1], inCache) && Without(lru, e) == lru
  {
    assert Unfold(IN_LISTS);
    WithoutNoRepeats(lru, e);
    if refs[e] != 1 {
      WithoutAbsent(lru, e);
    }
  }

  lemma ReleaseOk(lru: seq<Handle>, inUse: seq<Handle>, refs: map<Handle, nat>, inCache: set<Handle>, e: Handle)
    requires OnLists(lru, inUse, refs, inCache) && e in refs && refs[e] > 0 && (refs[e] == 1 ==> e !in inCache)
    ensures refs[e] == 1 ==> OnLists(lru, inUse, refs - {e}, inCache)
    ensures refs[e] == 2 && e in inCache ==> OnLists(lru + [e], Without(inUse, e), refs[e := 1], inCache)
    ensures refs[e] > 1 && !(refs[e] == 2 && e in inCache) ==> OnLists(lru, inUse, refs[e := refs[e] - 1], inCache)
  {
    assert Unfold(IN_LISTS);
    WithoutNoRepeats(inUse, e);
  }

  lemma EraseOk(lru: seq<Handle>, inUse: seq<Handle>, refs: map<Handle, nat>, inCache: set<Handle>, e: Handle)
    requires OnLists(lru, inUse, refs, inCache) && e in inCache && refs[e] > 0
    ensures refs[e] == 1 ==> OnLists(Without(lru, e), Without(inUse, e), refs - {e}, inCache - {e})
    ensures refs[e] > 1 ==> OnLists(Without(lru, e), Without(inUse, e), refs[e := refs[e] - 1], inCache - {e})
  {
    assert Unfold(IN_LISTS);
    WithoutNoRepeats(lru, e);
    WithoutNoRepeats(inUse, e);
  }

  lemma AddOk(lru: seq<Handle>, inUse: seq<Handle>, refs: map<Handle, nat>, inCache: set<Handle>, e: Handle)
    requires OnLists(lru, inUse, refs, inCache) && e !in refs
    ensures OnLists(lru, inUse + [e], refs[e := 2], inCache + {e})
  {
    assert Unfold(IN_LISTS);
  }

  lemma {:induction false} WithoutAbsent(s: seq<Handle>, h: Handle)
    requires h !in s
    ensures Without(s, h) == s
  {
    if s != [] {
      WithoutAbsent(s[1..], h);
    }
  }
}
