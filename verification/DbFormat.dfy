/** Internal keys, sorted runs of entries, and the multi-version reading they stand for
    (db/dbformat.h, db/dbformat.cc, db/memtable.cc). */
module DbFormat {
  import opened Wrappers

  /** The engine looks at user keys only through a comparator, which is a total order.  Every countable
      total order, byte strings under the bytewise comparator included, embeds in the reals. */
  type UserKey = real

  type UserValue = seq<int>

  /** Sequence numbers have 56 bits; the low eight bits of a tag hold the type. */
  const MAX_SEQUENCE: nat := 0x100_0000_0000_0000 - 1

  type SeqNo = n: nat | n <= MAX_SEQUENCE

  /** kTypeDeletion and kTypeValue, the latter with the stored value. */
  datatype Op = Deletion | Value(data: UserValue)

  /** One (user key, sequence number, type) -> value entry of the store. */
  datatype Entry = Entry(key: UserKey, sn: SeqNo, op: Op)

  /** PackSequenceAndType: eight low bits for the type, the sequence number above them. */
  function Pack(e: Entry): nat {
    e.sn * 256 + if e.op.Deletion? then 0 else 1
  }

  /** InternalKeyComparator::Compare(a, b) < 0. */
  predicate Before(a: Entry, b: Entry) {
    a.key < b.key || (a.key == b.key && a.sn > b.sn)
  }

  /** The comparator of the program compares the packed tag; on entries with distinct sequence numbers that
      is the comparison of the sequence numbers alone. */
  lemma PackedTagOrdersBySequence(a: Entry, b: Entry)
    requires a.sn != b.sn
    ensures Pack(a) > Pack(b) <==> a.sn > b.sn
  {
  }

  /** e lies before the lookup key (u, s, kValueTypeForSeek). */
  predicate BeforeTarget(e: Entry, u: UserKey, s: nat) {
    e.key < u || (e.key == u && e.sn > s)
  }

  // ---------------------------------------------------------------------------------------------
  // Multi-version reading of a set of entries
  // ---------------------------------------------------------------------------------------------

  ghost predicate VisibleIn(E: set<Entry>, u: UserKey, s: nat, e: Entry) {
    e in E && e.key == u && e.sn <= s
  }

  /** e is the newest entry of u with a sequence number of at most s. */
  ghost predicate Newest(E: set<Entry>, u: UserKey, s: nat, e: Entry) {
    VisibleIn(E, u, s, e) && forall x :: VisibleIn(E, u, s, x) ==> x.sn <= e.sn
  }

  /** No two entries of E share user key and sequence number. */
  ghost predicate Coherent(E: set<Entry>) {
    forall a, b :: a in E && b in E && a.key == b.key && a.sn == b.sn ==> a == b
  }

  /** The newest entry of u visible at s, if there is one. */
  ghost function Latest(E: set<Entry>, u: UserKey, s: nat): (r: Option<Entry>)
    ensures r.Some? ==> Newest(E, u, s, r.value)
    ensures r.None? ==> forall x :: !VisibleIn(E, u, s, x)
  {
    if e :| VisibleIn(E, u, s, e) then
      NewestExists(E, u, s, e);
      var m :| Newest(E, u, s, m);
      Some(m)
    else None
  }

  /** What a reader at snapshot s is told about u: nothing if the newest visible entry is a deletion. */
  ghost function Read(E: set<Entry>, u: UserKey, s: nat): Option<UserValue> {
    Answer(Latest(E, u, s))
  }

  function Answer(r: Option<Entry>): Option<UserValue> {
    if r.Some? && r.value.op.Value? then Some(r.value.op.data) else None
  }

  lemma {:induction false} NewestExists(E: set<Entry>, u: UserKey, s: nat, e: Entry)
    requires VisibleIn(E, u, s, e)
    ensures exists m :: Newest(E, u, s, m)
    decreases s - e.sn
  {
    if x :| VisibleIn(E, u, s, x) && x.sn > e.sn {
      NewestExists(E, u, s, x);
    } else {
      assert Newest(E, u, s, e);
    }
  }

  lemma LatestIs(E: set<Entry>, u: UserKey, s: nat, e: Entry)
    requires Coherent(E) && Newest(E, u, s, e)
    ensures Latest(E, u, s) == Some(e)
  {
  }

  lemma CoherentSubset(A: set<Entry>, B: set<Entry>)
    requires A <= B && Coherent(B)
    ensures Coherent(A)
  {
  }

  /** Every entry of A is newer than every entry of B for the same user key. */
  ghost predicate Newer(A: set<Entry>, B: set<Entry>) {
    forall a, b :: a in A && b in B && a.key == b.key ==> a.sn > b.sn
  }

  /** Readers at snapshots >= floor cannot tell E and F apart. */
  ghost predicate Agree(E: set<Entry>, F: set<Entry>, floor: nat) {
    forall u, s :: s >= floor ==> Read(E, u, s) == Read(F, u, s)
  }

  /** A newer layer answers alone when it has a visible entry, and not at all otherwise. */
  lemma LatestOfOverlay(N: set<Entry>, E: set<Entry>, u: UserKey, s: nat)
    requires Coherent(N + E) && Newer(N, E)
    ensures Latest(N + E, u, s) == if Latest(N, u, s).Some? then Latest(N, u, s) else Latest(E, u, s)
  {
    var n, e := Latest(N, u, s), Latest(E, u, s);
    if n.Some? {
      assert VisibleIn(N, u, s, n.value);
      assert Newest(N + E, u, s, n.value) by {
        forall x | VisibleIn(N + E, u, s, x) ensures x.sn <= n.value.sn {
          if x in N { assert VisibleIn(N, u, s, x); }
        }
      }
      LatestIs(N + E, u, s, n.value);
    } else if e.Some? {
      assert VisibleIn(E, u, s, e.value);
      assert Newest(N + E, u, s, e.value) by {
        forall x | VisibleIn(N + E, u, s, x) ensures x.sn <= e.value.sn {
          assert !VisibleIn(N, u, s, x);
          assert VisibleIn(E, u, s, x);
        }
      }
      LatestIs(N + E, u, s, e.value);
    } else {
      forall x ensures !VisibleIn(N + E, u, s, x) {
        assert !VisibleIn(N, u, s, x) && !VisibleIn(E, u, s, x);
      }
    }
  }

  lemma AgreeUnderOverlay(N: set<Entry>, E: set<Entry>, F: set<Entry>, floor: nat)
    requires Coherent(N + E) && Coherent(N + F) && Newer(N, E) && Newer(N, F)
    requires Agree(E, F, floor)
    ensures Agree(N + E, N + F, floor)
  {
    forall u, s | s >= floor ensures Read(N + E, u, s) == Read(N + F, u, s) {
      LatestOfOverlay(N, E, u, s);
      LatestOfOverlay(N, F, u, s);
      assert Read(E, u, s) == Read(F, u, s);
    }
  }

  lemma AgreeTransitive(E: set<Entry>, F: set<Entry>, G: set<Entry>, e: nat, f: nat, floor: nat)
    requires Agree(E, F, e) && Agree(F, G, f) && e <= floor && f <= floor
    ensures Agree(E, G, floor)
  {
    forall u, s | s >= floor ensures Read(E, u, s) == Read(G, u, s) {
      assert Read(E, u, s) == Read(F, u, s);
    }
  }

  // ---------------------------------------------------------------------------------------------
  // Sorted runs: the contents of a memtable or of a table file
  // ---------------------------------------------------------------------------------------------

  type Run = seq<Entry>

  predicate Sorted(run: Run) {
    forall i, j :: 0 <= i < j < |run| ==> Before(run[i], run[j])
  }

  function Entries(run: Run): set<Entry> {
    set e | e in run
  }

  /** Index of the first entry at or after the target (u, s), as a linear scan. */
  function SeekIndex(run: Run, u: UserKey, s: nat): (i: nat)
    ensures i <= |run|
    ensures forall k :: 0 <= k < i ==> BeforeTarget(run[k], u, s)
    ensures i < |run| ==> !BeforeTarget(run[i], u, s)
  {
    if run == [] || !BeforeTarget(run[0], u, s) then 0 else 1 + SeekIndex(run[1..], u, s)
  }

  /** MemTable::Get and the table lookup with SaveValue: seek, then check the user key. */
  function SeekGet(run: Run, u: UserKey, s: nat): Option<Entry> {
    var i := SeekIndex(run, u, s);
    if i < |run| && run[i].key == u then Some(run[i]) else None
  }

  lemma SeekGetIsLatest(run: Run, u: UserKey, s: nat)
    requires Sorted(run)
    ensures Coherent(Entries(run))
    ensures SeekGet(run, u, s) == Latest(Entries(run), u, s)
  {
    var E, i := Entries(run), SeekIndex(run, u, s);
    if i < |run| && run[i].key == u {
      forall x | VisibleIn(E, u, s, x) ensures x.sn <= run[i].sn {
        var k :| 0 <= k < |run| && run[k] == x;
      }
      assert Newest(E, u, s, run[i]);
      LatestIs(E, u, s, run[i]);
    } else {
      forall x ensures !VisibleIn(E, u, s, x) {
        if x in run {
          var k :| 0 <= k < |run| && run[k] == x;
          assert k <= i || Before(run[i], run[k]);
        }
      }
    }
  }

  /** Add e to a run at its place in internal key order. */
  function Insert(run: Run, e: Entry): (r: Run)
    ensures |r| == |run| + 1 && Entries(r) == Entries(run) + {e}
  {
    if run == [] || Before(e, run[0]) then
      assert Entries([e] + run) == Entries(run) + {e};
      [e] + run
    else
      var t := Insert(run[1..], e);
      assert run == [run[0]] + run[1..];
      assert Entries([run[0]] + t) == {run[0]} + Entries(t);
      assert Entries(run) == {run[0]} + Entries(run[1..]);
      [run[0]] + t
  }

  lemma {:induction false} InsertSorted(run: Run, e: Entry)
    requires Sorted(run) && forall x :: x in run ==> x.sn != e.sn
    ensures Sorted(Insert(run, e))
  {
    if run == [] || Before(e, run[0]) {
    } else {
      InsertSorted(run[1..], e);
      var t := Insert(run[1..], e);
      forall x | x in t ensures Before(run[0], x) {
        assert x in Entries(t);
        if x != e {
          assert x in Entries(run[1..]);
        }
      }
    }
  }
}
