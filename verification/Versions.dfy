/** Table files, the seven levels of a version, and lookups in them (db/version_set.cc). */
module Versions {
  import opened Wrappers
  import opened DbFormat

  const NUM_LEVELS: nat := 7
  const MAX_MEM_COMPACT_LEVEL: nat := 2

  /** FileMetaData together with the contents of the table it names. */
  datatype RawFile = File(number: nat, size: nat, run: Run)

  type File = f: RawFile | f.run != [] && Sorted(f.run)
    witness File(0, 0, [Entry(0.0, 0, Deletion)])

  function Smallest(f: File): Entry { f.run[0] }
  function Largest(f: File): Entry { f.run[|f.run| - 1] }
  function Lo(f: File): UserKey { Smallest(f).key }
  function Hi(f: File): UserKey { Largest(f).key }

  type Version = v: seq<seq<File>> | |v| == NUM_LEVELS
    witness [[], [], [], [], [], [], []]

  ghost function Contents(fs: seq<File>): set<Entry> {
    set f, e | f in fs && e in f.run :: e
  }

  /** Entries of levels from .. 6. */
  ghost function Deeper(v: Version, from: nat): set<Entry> {
    set l, e | from <= l < NUM_LEVELS && e in Contents(v[l]) :: e
  }

  ghost function Tables(v: Version): set<Entry> {
    Deeper(v, 0)
  }

  /** The files of a level >= 1: in key order, without overlap in internal keys. */
  ghost predicate Disjoint(fs: seq<File>) {
    forall i, j :: 0 <= i < j < |fs| ==> Before(Largest(fs[i]), Smallest(fs[j]))
  }

  /** At level 0 the file with the larger number holds the newer entries. */
  ghost predicate NumberedByAge(fs: seq<File>) {
    && (forall f, g :: f in fs && g in fs && f.number == g.number ==> f == g)
    && (forall f, g :: f in fs && g in fs && f.number > g.number ==> Newer(Entries(f.run), Entries(g.run)))
  }

  /** A smaller level holds the newer entries of every key. */
  ghost predicate Recent(v: Version) {
    && NumberedByAge(v[0])
    && (forall l :: 1 <= l < NUM_LEVELS ==> Disjoint(v[l]))
    && (forall i, j :: 0 <= i < j < NUM_LEVELS ==> Newer(Contents(v[i]), Contents(v[j])))
  }

  lemma RunBounds(f: File, e: Entry)
    requires e in f.run
    ensures e == Smallest(f) || Before(Smallest(f), e)
    ensures e == Largest(f) || Before(e, Largest(f))
    ensures Lo(f) <= e.key <= Hi(f)
  {
  }

  // ---------------------------------------------------------------------------------------------
  // Searching one level
  // ---------------------------------------------------------------------------------------------

  /** Files before index end before the target, the others do not. */
  ghost predicate FileFound(fs: seq<File>, u: UserKey, s: SeqNo, index: nat) {
    && index <= |fs|
    && (forall k :: 0 <= k < index ==> BeforeTarget(Largest(fs[k]), u, s))
    && (forall k :: index <= k < |fs| ==> !BeforeTarget(Largest(fs[k]), u, s))
  }

  /** Binary search for the first file whose largest key is at or after the target (u, s). */
  method FindFile(fs: seq<File>, u: UserKey, s: SeqNo) returns (right: nat)
    requires Disjoint(fs)
    ensures FileFound(fs, u, s, right)
  {
    var left := 0;
    right := |fs|;
    while left < right
      invariant 0 <= left <= right <= |fs|
      invariant forall k :: 0 <= k < left ==> BeforeTarget(Largest(fs[k]), u, s)
      invariant forall k :: right <= k < |fs| ==> !BeforeTarget(Largest(fs[k]), u, s)
    {
      var mid := (left + right) / 2;
      forall k | 0 <= k < |fs| && k != mid
        ensures if k < mid then Before(Largest(fs[k]), Largest(fs[mid])) else Before(Largest(fs[mid]), Largest(fs[k]))
      {
        RunBounds(fs[k], Largest(fs[k]));
        RunBounds(fs[mid], Largest(fs[mid]));
      }
      if BeforeTarget(Largest(fs[mid]), u, s) {
        left := mid + 1;
      } else {
        right := mid;
      }
    }
  }

  /** The user-key range of f meets [lo, hi]. */
  predicate Meets(f: File, lo: UserKey, hi: UserKey) {
    !(Hi(f) < lo) && !(Lo(f) > hi)
  }

  ghost predicate Hit(fs: seq<File>, lo: UserKey, hi: UserKey) {
    exists f :: f in fs && Meets(f, lo, hi)
  }

  method SomeFileOverlapsRange(disjointSorted: bool, fs: seq<File>, lo: UserKey, hi: UserKey) returns (r: bool)
    requires disjointSorted ==> Disjoint(fs)
    requires lo <= hi
    ensures r <==> Hit(fs, lo, hi)
  {
    if !disjointSorted {
      for i := 0 to |fs|
        invariant forall k :: 0 <= k < i ==> !Meets(fs[k], lo, hi)
      {
        if lo > Hi(fs[i]) || hi < Lo(fs[i]) {
          // not met
        } else {
          assert Meets(fs[i], lo, hi);
          return true;
        }
      }
      return false;
    }
    var index := FindFile(fs, lo, MAX_SEQUENCE);
    if index >= |fs| {
      return false;
    }
    r := !(hi < Lo(fs[index]));
    if r {
      assert Meets(fs[index], lo, hi);
    } else {
      forall k | 0 <= k < |fs| ensures !Meets(fs[k], lo, hi) {
        if k > index {
          assert Before(Largest(fs[index]), Smallest(fs[k]));
        }
      }
    }
  }

  /** A visible entry of the level lies in the found file, or the found file has a newer one. */
  lemma FoundFileIsRelevant(fs: seq<File>, u: UserKey, s: SeqNo, index: nat, e: Entry)
    requires Disjoint(fs) && FileFound(fs, u, s, index) && VisibleIn(Contents(fs), u, s, e)
    ensures index < |fs| && u >= Lo(fs[index])
    ensures exists x :: VisibleIn(Entries(fs[index].run), u, s, x) && x.sn >= e.sn
  {
    var f :| f in fs && e in f.run;
    var k :| 0 <= k < |fs| && fs[k] == f;
    RunBounds(f, e);
    if k > index {
      assert Before(Largest(fs[index]), Smallest(fs[k]));
      RunBounds(fs[index], Largest(fs[index]));
      assert VisibleIn(Entries(fs[index].run), u, s, Largest(fs[index]));
    } else {
      assert VisibleIn(Entries(fs[index].run), u, s, e);
    }
  }

  /** What Version::Get finds in one level >= 1 is the newest visible entry of that level. */
  lemma FileAtIndexAnswersForLevel(fs: seq<File>, u: UserKey, s: SeqNo, index: nat)
    requires Disjoint(fs) && FileFound(fs, u, s, index) && Coherent(Contents(fs))
    ensures (if index < |fs| && u >= Lo(fs[index]) then SeekGet(fs[index].run, u, s) else None)
         == Latest(Contents(fs), u, s)
  {
    forall e | VisibleIn(Contents(fs), u, s, e)
      ensures index < |fs| && u >= Lo(fs[index])
      ensures exists x :: VisibleIn(Entries(fs[index].run), u, s, x) && x.sn >= e.sn
    {
      FoundFileIsRelevant(fs, u, s, index, e);
    }
    if index < |fs| && u >= Lo(fs[index]) {
      SeekGetIsLatest(fs[index].run, u, s);
      var m := Latest(Entries(fs[index].run), u, s);
      if m.Some? {
        assert VisibleIn(Contents(fs), u, s, m.value);
        LatestIs(Contents(fs), u, s, m.value);
      }
    }
  }

  // ---------------------------------------------------------------------------------------------
  // Searching a version
  // ---------------------------------------------------------------------------------------------

  /** Insert f into a list ordered from the largest file number down. */
  function InsertNewestFirst(fs: seq<File>, f: File): (r: seq<File>)
    ensures forall g :: g in r <==> g in fs || g == f
  {
    if fs == [] || f.number > fs[0].number then [f] + fs else
      assert fs == [fs[0]] + fs[1..];
      [fs[0]] + InsertNewestFirst(fs[1..], f)
  }

  predicate NewestFirst(fs: seq<File>) {
    forall i, j :: 0 <= i < j < |fs| ==> fs[i].number >= fs[j].number
  }

  lemma {:induction false} InsertKeepsNewestFirst(fs: seq<File>, f: File)
    requires NewestFirst(fs)
    ensures NewestFirst(InsertNewestFirst(fs, f))
  {
    if fs != [] && !(f.number > fs[0].number) {
      InsertKeepsNewestFirst(fs[1..], f);
      var t := InsertNewestFirst(fs[1..], f);
      assert forall k :: 0 <= k < |t| ==> t[k] in t;
    }
  }

  /** Level 0: the files whose range holds u, newest first; the first hit is the newest visible entry. */
  method SearchLevel0(fs: seq<File>, u: UserKey, s: SeqNo) returns (r: Option<Entry>)
    requires NumberedByAge(fs) && Coherent(Contents(fs))
    ensures r == Latest(Contents(fs), u, s)
  {
    var tmp: seq<File> := [];
    for i := 0 to |fs|
      invariant NewestFirst(tmp)
      invariant forall f :: f in tmp <==> f in fs[..i] && Lo(f) <= u <= Hi(f)
    {
      if u >= Lo(fs[i]) && u <= Hi(fs[i]) {
        InsertKeepsNewestFirst(tmp, fs[i]);
        tmp := InsertNewestFirst(tmp, fs[i]);
      }
    }
    for i := 0 to |tmp|
      invariant forall k :: 0 <= k < i ==> Latest(Entries(tmp[k].run), u, s) == None
    {
      r := SeekGet(tmp[i].run, u, s);
      SeekGetIsLatest(tmp[i].run, u, s);
      if r.Some? {
        Level0Hit(fs, tmp, u, s, i, r.value);
        return;
      }
    }
    r := None;
    forall e ensures !VisibleIn(Contents(fs), u, s, e) {
      if e in Contents(fs) && e.key == u {
        var f :| f in fs && e in f.run;
        RunBounds(f, e);
        assert f in tmp;
        assert !VisibleIn(Entries(f.run), u, s, e);
      }
    }
  }

  lemma Level0Rank(fs: seq<File>, f: File, g: File, u: UserKey, s: SeqNo, hit: Entry, e: Entry, earlier: bool)
    requires NumberedByAge(fs) && f in fs && g in fs
    requires earlier ==> Latest(Entries(g.run), u, s) == None
    requires !earlier ==> g.number <= f.number
    requires Latest(Entries(f.run), u, s) == Some(hit) && e in g.run && e.key == u && e.sn <= s
    ensures e.sn <= hit.sn
  {
    assert VisibleIn(Entries(g.run), u, s, e);
    assert Newest(Entries(f.run), u, s, hit);
    if g.number == f.number {
      assert f == g;
    } else {
      assert Newer(Entries(f.run), Entries(g.run));
      assert hit in Entries(f.run) && e in Entries(g.run);
    }
  }

  lemma Level0Bound(fs: seq<File>, tmp: seq<File>, u: UserKey, s: SeqNo, i: nat, hit: Entry, e: Entry)
    requires NumberedByAge(fs) && NewestFirst(tmp) && i < |tmp|
    requires forall f :: f in tmp <==> f in fs && Lo(f) <= u <= Hi(f)
    requires forall k :: 0 <= k < i ==> Latest(Entries(tmp[k].run), u, s) == None
    requires Latest(Entries(tmp[i].run), u, s) == Some(hit)
    requires VisibleIn(Contents(fs), u, s, e)
    ensures e.sn <= hit.sn
  {
    var f :| f in fs && e in f.run;
    RunBounds(f, e);
    assert f in tmp && tmp[i] in tmp;
    var k :| 0 <= k < |tmp| && tmp[k] == f;
    Level0Rank(fs, tmp[i], f, u, s, hit, e, k < i);
  }

  lemma Level0Hit(fs: seq<File>, tmp: seq<File>, u: UserKey, s: SeqNo, i: nat, hit: Entry)
    requires NumberedByAge(fs) && Coherent(Contents(fs)) && NewestFirst(tmp) && i < |tmp|
    requires forall f :: f in tmp <==> f in fs && Lo(f) <= u <= Hi(f)
    requires forall k :: 0 <= k < i ==> Latest(Entries(tmp[k].run), u, s) == None
    requires Latest(Entries(tmp[i].run), u, s) == Some(hit)
    ensures Latest(Contents(fs), u, s) == Some(hit)
  {
    forall e | VisibleIn(Contents(fs), u, s, e) ensures e.sn <= hit.sn {
      Level0Bound(fs, tmp, u, s, i, hit, e);
    }
    assert tmp[i] in tmp;
    assert VisibleIn(Entries(tmp[i].run), u, s, hit);
    LatestIs(Contents(fs), u, s, hit);
  }

  /** Levels from .. 6 searched in order, stopping at the first one with a visible entry. */
  ghost function Search(v: Version, u: UserKey, s: SeqNo, from: nat): Option<Entry>
    requires from <= NUM_LEVELS
    decreases NUM_LEVELS - from
  {
    if from == NUM_LEVELS then None
    else if Latest(Contents(v[from]), u, s).Some? then Latest(Contents(v[from]), u, s)
    else Search(v, u, s, from + 1)
  }

  /** Each level by itself is in order; nothing is said about entries of different levels. */
  ghost predicate LevelsInOrder(v: Version) {
    && NumberedByAge(v[0])
    && (forall l :: 1 <= l < NUM_LEVELS ==> Disjoint(v[l]))
    && (forall l :: 0 <= l < NUM_LEVELS ==> Coherent(Contents(v[l])))
  }

  /** Version::Get: level by level, in level 0 file by file from the newest to the oldest. */
  method Get(v: Version, u: UserKey, s: SeqNo) returns (r: Option<Entry>)
    requires LevelsInOrder(v)
    ensures r == Search(v, u, s, 0)
  {
    for level := 0 to NUM_LEVELS
      invariant Search(v, u, s, 0) == Search(v, u, s, level)
    {
      if level == 0 {
        r := SearchLevel0(v[0], u, s);
      } else {
        var index := FindFile(v[level], u, s);
        FileAtIndexAnswersForLevel(v[level], u, s, index);
        r := if index < |v[level]| && u >= Lo(v[level][index]) then SeekGet(v[level][index].run, u, s) else None;
      }
      if r.Some? {
        return;
      }
    }
    r := None;
  }

  lemma DeeperStep(v: Version, level: nat)
    requires level < NUM_LEVELS
    ensures Deeper(v, level) == Contents(v[level]) + Deeper(v, level + 1)
    ensures Deeper(v, level) <= Tables(v)
  {
    forall e | e in Deeper(v, level) ensures e in Contents(v[level]) + Deeper(v, level + 1) {
      var l :| level <= l < NUM_LEVELS && e in Contents(v[l]);
      if l > level {
        assert e in Deeper(v, level + 1);
      }
    }
  }

  lemma DeeperIsOlder(v: Version, level: nat)
    requires Recent(v) && level < NUM_LEVELS
    ensures Newer(Contents(v[level]), Deeper(v, level + 1))
  {
  }

  /** Stopping at the first level with a visible entry is right when smaller levels hold newer entries. */
  lemma {:induction false} SearchFindsLatest(v: Version, u: UserKey, s: SeqNo, from: nat)
    requires Recent(v) && Coherent(Tables(v)) && from <= NUM_LEVELS
    ensures Search(v, u, s, from) == Latest(Deeper(v, from), u, s)
    decreases NUM_LEVELS - from
  {
    if from < NUM_LEVELS {
      SearchFindsLatest(v, u, s, from + 1);
      DeeperIsOlder(v, from);
      DeeperStep(v, from);
      CoherentSubset(Deeper(v, from), Tables(v));
      LatestOfOverlay(Contents(v[from]), Deeper(v, from + 1), u, s);
    }
  }
}
