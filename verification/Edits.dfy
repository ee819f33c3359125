/** Version edits and the builder that applies them (db/version_edit.h, db/version_set.cc). */
module Edits {
  import opened Wrappers
  import opened DbFormat
  import opened Versions

  /** VersionEdit: what one MANIFEST record says. */
  datatype Edit = Edit(
    logNumber: Option<nat>,
    nextFile: Option<nat>,
    lastSequence: Option<SeqNo>,
    deleted: set<(nat, nat)>,   // (level, file number)
    added: seq<(nat, File)>)    // (level, file)

  /** BySmallestKey: by smallest internal key, ties by file number. */
  predicate FileBefore(f: File, g: File) {
    || Before(Smallest(f), Smallest(g))
    || (!Before(Smallest(g), Smallest(f)) && f.number < g.number)
  }

  ghost predicate InFileOrder(fs: seq<File>) {
    forall i, j :: 0 <= i < j < |fs| ==> FileBefore(fs[i], fs[j])
  }

  /** VersionSet::Builder::LevelState. */
  datatype LevelState = LevelState(deleted: set<nat>, added: seq<File>)

  /** std::set insertion: keep the list in order, ignore a file that compares equal to one in it. */
  function InsertFile(fs: seq<File>, f: File): (r: seq<File>)
  {
    if fs == [] then [f]
    else if FileBefore(f, fs[0]) then [f] + fs
    else if FileBefore(fs[0], f) then [fs[0]] + InsertFile(fs[1..], f)
    else fs
  }

  lemma {:induction false} InsertFileInOrder(fs: seq<File>, f: File)
    requires InFileOrder(fs) && forall g :: g in fs ==> g.number != f.number
    ensures InFileOrder(InsertFile(fs, f))
    ensures forall g :: g in InsertFile(fs, f) <==> g in fs || g == f
  {
    if fs != [] && !FileBefore(f, fs[0]) {
      assert fs[0] in fs && FileBefore(fs[0], f);
      InsertFileInOrder(fs[1..], f);
      assert fs == [fs[0]] + fs[1..];
      var t := InsertFile(fs[1..], f);
      forall j | 0 <= j < |t| ensures FileBefore(fs[0], t[j]) {
        assert t[j] in t;
      }
    }
  }

  /** r is the level "base" after an edit that leaves out the numbers in "deleted" and puts in "added". */
  ghost predicate Saved(base: seq<File>, deleted: set<nat>, added: seq<File>, r: seq<File>) {
    && InFileOrder(r)
    && forall f :: f in r <==> (f in base || f in added) && f.number !in deleted
  }

  lemma SavedIsUnique(base: seq<File>, deleted: set<nat>, added: seq<File>, r: seq<File>, r': seq<File>)
    requires Saved(base, deleted, added, r) && Saved(base, deleted, added, r')
    ensures r == r'
  {
    SameOrderedFiles(r, r');
  }

  lemma SomeMember(r: seq<File>)
    ensures r != [] ==> exists f :: f in r
  {
    if r != [] {
      assert r[0] in r;
    }
  }

  lemma {:induction false} SameOrderedFiles(r: seq<File>, r': seq<File>)
    requires InFileOrder(r) && InFileOrder(r') && forall f :: f in r <==> f in r'
    ensures r == r'
  {
    if r == [] || r' == [] {
      SomeMember(r);
      SomeMember(r');
    } else {
      assert r[0] in r' && r'[0] in r;
      assert r[0] == r'[0];
      forall f ensures f in r[1..] <==> f in r'[1..] {
        assert r == [r[0]] + r[1..] && r' == [r'[0]] + r'[1..];
        assert r[0] !in r[1..] && r'[0] !in r'[1..];
        assert f in r <==> f == r[0] || f in r[1..];
        assert f in r' <==> f == r'[0] || f in r'[1..];
      }
      SameOrderedFiles(r[1..], r'[1..]);
    }
  }

  /** All of r comes before the files of fs from index "from" on. */
  ghost predicate AllBefore(r: seq<File>, fs: seq<File>, from: nat) {
    forall f, k :: f in r && from <= k < |fs| ==> FileBefore(f, fs[k])
  }

  /** r is the merge of the first b base files and the first i added files, without the deleted ones. */
  ghost predicate Merged(base: seq<File>, state: LevelState, b: nat, i: nat, r: seq<File>)
    requires b <= |base| && i <= |state.added|
  {
    && InFileOrder(r) && AllBefore(r, base, b) && AllBefore(r, state.added, i)
    && forall f :: f in r <==> (f in base[..b] || f in state.added[..i]) && f.number !in state.deleted
  }

  /** The builder's precondition on one level: both lists in order, no file number in both. */
  ghost predicate Mergeable(base: seq<File>, state: LevelState) {
    && InFileOrder(base) && InFileOrder(state.added)
    && forall f, g :: f in base && g in state.added ==> f.number != g.number
  }

  lemma TakeBase(base: seq<File>, state: LevelState, b: nat, i: nat, r: seq<File>)
    requires Mergeable(base, state) && b < |base| && i <= |state.added| && Merged(base, state, b, i, r)
    requires i < |state.added| ==> !FileBefore(state.added[i], base[b])
    ensures Merged(base, state, b + 1, i, if base[b].number in state.deleted then r else r + [base[b]])
  {
    assert base[..b + 1] == base[..b] + [base[b]];
    if i < |state.added| {
      assert base[b] in base && state.added[i] in state.added;
      assert AllBefore([base[b]], state.added, i);
    }
  }

  lemma TakeAdded(base: seq<File>, state: LevelState, b: nat, i: nat, r: seq<File>)
    requires Mergeable(base, state) && b <= |base| && i < |state.added| && Merged(base, state, b, i, r)
    requires b < |base| ==> FileBefore(state.added[i], base[b])
    ensures Merged(base, state, b, i + 1, if state.added[i].number in state.deleted then r else r + [state.added[i]])
  {
    assert state.added[..i + 1] == state.added[..i] + [state.added[i]];
    assert AllBefore([state.added[i]], base, b);
  }

  /** Builder::SaveTo for one level: merge the added files into the base files, leaving out deleted ones. */
  method SaveLevel(base: seq<File>, state: LevelState) returns (r: seq<File>)
    requires Mergeable(base, state)
    ensures Saved(base, state.deleted, state.added, r)
  {
    r := [];
    var added := state.added;
    var baseIter := 0;
    for i := 0 to |added|
      invariant baseIter <= |base| && Merged(base, state, baseIter, i, r)
    {
      // what stands before the added file
      while baseIter < |base| && !FileBefore(added[i], base[baseIter])
        invariant baseIter <= |base| && Merged(base, state, baseIter, i, r)
      {
        TakeBase(base, state, baseIter, i, r);
        r := MaybeAddFile(state.deleted, r, base[baseIter]);
        baseIter := baseIter + 1;
      }
      TakeAdded(base, state, baseIter, i, r);
      r := MaybeAddFile(state.deleted, r, added[i]);
    }
    // what stands after all of them
    while baseIter < |base|
      invariant baseIter <= |base| && Merged(base, state, baseIter, |added|, r)
    {
      TakeBase(base, state, baseIter, |added|, r);
      r := MaybeAddFile(state.deleted, r, base[baseIter]);
      baseIter := baseIter + 1;
    }
    assert base[..|base|] == base && added[..|added|] == added;
  }

  method MaybeAddFile(deleted: set<nat>, files: seq<File>, f: File) returns (r: seq<File>)
    ensures r == if f.number in deleted then files else files + [f]
  {
    r := files;
    if f.number !in deleted {
      r := r + [f];
    }
  }
}
