/** Replaying a list of version edits in one builder (db/version_set.cc, VersionSet::Builder and Recover). */
module Manifest {
  import opened Wrappers
  import opened Versions
  import opened Edits
  import opened Engine

  ghost predicate LevelsInRange(e: Edit) {
    && (forall p :: p in e.deleted ==> p.0 < NUM_LEVELS)
    && (forall p :: p in e.added ==> p.0 < NUM_LEVELS)
  }

  function DeletedAt(deleted: set<(nat, nat)>, l: nat): set<nat> {
    set p | p in deleted && p.0 == l :: p.1
  }

  function NumbersAt(added: seq<(nat, File)>, l: nat): set<nat> {
    set p | p in added && p.0 == l :: p.1.number
  }

  /** The added files of level l, inserted one after the other. */
  function AddAll(fs: seq<File>, added: seq<(nat, File)>, l: nat): seq<File> {
    if added == [] then fs else
      var n := |added| - 1;
      var r := AddAll(fs, added[..n], l);
      if added[n].0 == l then InsertFile(r, added[n].1) else r
  }

  function WithAdded(s: LevelState, added: seq<(nat, File)>, l: nat): LevelState {
    LevelState(s.deleted - NumbersAt(added, l), AddAll(s.added, added, l))
  }

  /** What Builder::Apply does to one level: first the deletions, then the additions. */
  function AfterEdit(s: LevelState, l: nat, e: Edit): LevelState {
    WithAdded(s.(deleted := s.deleted + DeletedAt(e.deleted, l)), e.added, l)
  }

  class Builder {
    const base: Version
    var levels: seq<LevelState>

    constructor (base: Version)
      ensures this.base == base && levels == NoChanges()
    {
      this.base := base;
      levels := NoChanges();
    }

    /** One edit on top of what the builder has. */
    method Apply(e: Edit)
      requires |levels| == NUM_LEVELS && LevelsInRange(e)
      modifies this
      ensures |levels| == NUM_LEVELS
      ensures forall l :: 0 <= l < NUM_LEVELS ==> levels[l] == AfterEdit(old(levels)[l], l, e)
    {
      DeleteFiles(e.deleted);
      AddFiles(e.added);
    }

    method DeleteFiles(deleted: set<(nat, nat)>)
      requires |levels| == NUM_LEVELS && forall p :: p in deleted ==> p.0 < NUM_LEVELS
      modifies this
      ensures |levels| == NUM_LEVELS
      ensures forall l :: 0 <= l < NUM_LEVELS ==>
        levels[l] == old(levels)[l].(deleted := old(levels)[l].deleted + DeletedAt(deleted, l))
    {
      var rest := deleted;
      while rest != {}
        invariant |levels| == NUM_LEVELS && rest <= deleted
        invariant forall l :: 0 <= l < NUM_LEVELS ==>
          levels[l] == old(levels)[l].(deleted := old(levels)[l].deleted + DeletedAt(deleted - rest, l))
      {
        var p :| p in rest;
        forall l ensures DeletedAt(deleted - (rest - {p}), l) == DeletedAt(deleted - rest, l) + if l == p.0 then {p.1}
            else {} {
          var done := deleted - rest;
          assert deleted - (rest - {p}) == done + {p};
          if l == p.0 {
            assert p in done + {p};
            assert p.1 in DeletedAt(done + {p}, l);
          }
        }
        levels := levels[p.0 := levels[p.0].(deleted := levels[p.0].deleted + {p.1})];
        rest := rest - {p};
      }
      assert deleted - rest == deleted;
    }

    method AddFiles(added: seq<(nat, File)>)
      requires |levels| == NUM_LEVELS && forall p :: p in added ==> p.0 < NUM_LEVELS
      modifies this
      ensures |levels| == NUM_LEVELS
      ensures forall l :: 0 <= l < NUM_LEVELS ==> levels[l] == WithAdded(old(levels)[l], added, l)
    {
      for i := 0 to |added|
        invariant |levels| == NUM_LEVELS
        invariant forall l :: 0 <= l < NUM_LEVELS ==> levels[l] == WithAdded(old(levels)[l], added[..i], l)
      {
        var (level, f) := added[i];
        forall l ensures NumbersAt(added[..i + 1], l) == NumbersAt(added[..i], l) + if l == level then {f.number}
            else {} {
          NumbersStep(added, i, l);
        }
        assert added[..i + 1][..i] == added[..i];
        levels := levels[level := LevelState(levels[level].deleted - {f.number}, InsertFile(levels[level].added, f))];
      }
      assert added[..|added|] == added;
    }

    /** The version that base and edits lead to. */
    method SaveTo() returns (v: Version)
      requires |levels| == NUM_LEVELS && forall l :: 0 <= l < NUM_LEVELS ==> Mergeable(base[l], levels[l])
      ensures forall l :: 0 <= l < NUM_LEVELS ==> Saved(base[l], levels[l].deleted, levels[l].added, v[l])
    {
      var r: seq<seq<File>> := [];
      for l := 0 to NUM_LEVELS
        invariant |r| == l
        invariant forall k :: 0 <= k < l ==> Saved(base[k], levels[k].deleted, levels[k].added, r[k])
      {
        var fs := SaveLevel(base[l], levels[l]);
        r := r + [fs];
      }
      v := r;
    }
  }

  lemma NumbersStep(added: seq<(nat, File)>, i: nat, l: nat)
    requires i < |added|
    ensures NumbersAt(added[..i + 1], l) == NumbersAt(added[..i], l) + if l == added[i].0 then {added[i].1.number}
        else {}
  {
    var s := added[..i + 1];
    assert s == added[..i] + [added[i]];
    assert forall p :: p in s <==> p in added[..i] || p == added[i];
    if l == added[i].0 {
      assert added[i] in s;
    }
  }

  function NoChanges(): seq<LevelState> {
    seq(NUM_LEVELS, _ => LevelState({}, []))
  }

  // ---------------------------------------------------------------------------------------------
  // One builder for many edits
  // ---------------------------------------------------------------------------------------------

  /** The state of level l after the first n edits. */
  ghost function StateAfter(edits: seq<Edit>, n: nat, l: nat): LevelState
    requires n <= |edits|
  {
    if n == 0 then LevelState({}, []) else AfterEdit(StateAfter(edits, n - 1, l), l, edits[n - 1])
  }

  /** File number n has been at level l, in the base or by one of the first k edits. */
  ghost predicate Seen(base: Version, edits: seq<Edit>, k: nat, l: nat, n: nat) {
    || (l < NUM_LEVELS && exists f :: f in base[l] && f.number == n)
    || (exists i :: 0 <= i < k && i < |edits| && n in NumbersAt(edits[i].added, l))
  }

  ghost predicate NoNumberTwice(added: seq<(nat, File)>) {
    forall a, b :: 0 <= a < b < |added| && added[a].0 == added[b].0 ==> added[a].1.number != added[b].1.number
  }

  /** A file number comes to a level at most once, and no edit takes back what it adds. */
  ghost predicate ValidEdits(base: Version, edits: seq<Edit>) {
    forall k {:trigger Unfold(k)} :: k == IN_EDITS && Unfold(k) ==>
    && (forall i :: 0 <= i < |edits| ==> LevelsInRange(edits[i]) && NoNumberTwice(edits[i].added))
    && (forall i, p :: 0 <= i < |edits| && p in edits[i].added ==>
          !Seen(base, edits, i, p.0, p.1.number) && (p.0, p.1.number) !in edits[i].deleted)
  }

  /** A version after each edit. */
  ghost predicate Chain(base: Version, edits: seq<Edit>, vs: seq<Version>) {
    && |vs| == |edits| + 1 && vs[0] == base
    && (forall l :: 0 <= l < NUM_LEVELS ==> InFileOrder(base[l]))
    && forall i :: 0 <= i < |edits| ==> Applied(vs[i], edits[i].deleted, edits[i].added, vs[i + 1])
  }

  lemma {:induction false} AddAllInOrder(fs: seq<File>, added: seq<(nat, File)>, l: nat)
    requires InFileOrder(fs)
    requires forall p, g :: p in added && p.0 == l && g in fs ==> g.number != p.1.number
    requires NoNumberTwice(added)
    ensures InFileOrder(AddAll(fs, added, l))
    ensures forall f :: f in AddAll(fs, added, l) <==> f in fs || (l, f) in added
  {
    if added != [] {
      var n := |added| - 1;
      assert added == added[..n] + [added[n]];
      AddAllInOrder(fs, added[..n], l);
      var r := AddAll(fs, added[..n], l);
      if added[n].0 == l {
        forall g | g in r ensures g.number != added[n].1.number {
          if g in fs {
            assert added[n] in added;
          } else {
            var a :| 0 <= a < n && added[a] == (l, g);
          }
        }
        InsertFileInOrder(r, added[n].1);
      }
    }
  }

  /** The builder's state after n edits describes version n, relative to the base. */
  ghost predicate Describes(base: Version, edits: seq<Edit>, n: nat, l: nat, v: Version)
    requires n <= |edits| && l < NUM_LEVELS
  {
    var s := StateAfter(edits, n, l);
    && InFileOrder(s.added)
    && (forall f :: f in s.added ==> exists i :: 0 <= i < n && (l, f) in edits[i].added)
    && forall f :: f in v[l] <==> (f in base[l] || f in s.added) && f.number !in s.deleted
  }

  lemma AddedIsSeen(base: Version, edits: seq<Edit>, n: nat, l: nat, f: File, i: nat)
    requires i < n <= |edits| && (l, f) in edits[i].added
    ensures Seen(base, edits, n, l, f.number)
  {
    assert f.number in NumbersAt(edits[i].added, l);
  }

  lemma DescribesStep(base: Version, edits: seq<Edit>, n: nat, l: nat, v: Version, v': Version)
    requires ValidEdits(base, edits) && n < |edits| && l < NUM_LEVELS && Describes(base, edits, n, l, v)
    requires Applied(v, edits[n].deleted, edits[n].added, v')
    ensures Describes(base, edits, n + 1, l, v')
  {
    assert Unfold(IN_EDITS);
    var s, e := StateAfter(edits, n, l), edits[n];
    forall p, g | p in e.added && p.0 == l && (g in s.added || g in base[l]) ensures g.number != p.1.number {
      if g in s.added {
        var i :| 0 <= i < n && (l, g) in edits[i].added;
        AddedIsSeen(base, edits, n, l, g, i);
      }
      assert !Seen(base, edits, n, l, p.1.number);
    }
    AddAllInOrder(s.added, e.added, l);
    forall f ensures f in v'[l] <==>
        (f in base[l] || f in AddAll(s.added, e.added, l)) && f.number !in AfterEdit(s, l, e).deleted {
      if (l, f) in e.added {
        assert f.number in NumbersAt(e.added, l);
      }
    }
    forall f | f in AddAll(s.added, e.added, l) ensures exists i :: 0 <= i < n + 1 && (l, f) in edits[i].added {
      if (l, f) !in e.added {
        var i :| 0 <= i < n && (l, f) in edits[i].added;
      }
    }
  }

  lemma {:induction false} BuilderDescribesChain(base: Version, edits: seq<Edit>, vs: seq<Version>, n: nat, l: nat)
    requires ValidEdits(base, edits) && Chain(base, edits, vs) && n <= |edits| && l < NUM_LEVELS
    ensures Describes(base, edits, n, l, vs[n])
  {
    if n > 0 {
      BuilderDescribesChain(base, edits, vs, n - 1, l);
      DescribesStep(base, edits, n - 1, l, vs[n - 1], vs[n]);
    }
  }

  lemma DescribedIsMergeable(base: Version, edits: seq<Edit>, n: nat, l: nat, v: Version)
    requires ValidEdits(base, edits) && n <= |edits| && l < NUM_LEVELS && Describes(base, edits, n, l, v)
        && InFileOrder(base[l])
    ensures Mergeable(base[l], StateAfter(edits, n, l))
  {
    assert Unfold(IN_EDITS);
    forall f, g | f in base[l] && g in StateAfter(edits, n, l).added ensures f.number != g.number {
      var i :| 0 <= i < n && (l, g) in edits[i].added;
      assert !Seen(base, edits, i, l, g.number);
    }
  }

  /** v is what one builder makes of all the edits, saved once. */
  ghost predicate Rebuilt(base: Version, edits: seq<Edit>, v: Version) {
    forall l :: 0 <= l < NUM_LEVELS ==>
      Saved(base[l], StateAfter(edits, |edits|, l).deleted, StateAfter(edits, |edits|, l).added, v[l])
  }

  /** One builder for all edits arrives where a version after every edit arrived. */
  lemma RebuiltIsLast(base: Version, edits: seq<Edit>, vs: seq<Version>, v: Version)
    requires ValidEdits(base, edits) && Chain(base, edits, vs) && Rebuilt(base, edits, v)
    ensures v == vs[|edits|]
  {
    forall l | 0 <= l < NUM_LEVELS ensures v[l] == vs[|edits|][l] {
      BuilderDescribesChain(base, edits, vs, |edits|, l);
      ChainInOrder(base, edits, vs, |edits|, l);
      SameOrderedFiles(v[l], vs[|edits|][l]);
    }
  }

  /** The replay of a MANIFEST (VersionSet::Recover): the edits go into one builder, which is saved once. */
  method Replay(base: Version, edits: seq<Edit>, ghost vs: seq<Version>) returns (v: Version)
    requires ValidEdits(base, edits) && Chain(base, edits, vs)
    ensures Rebuilt(base, edits, v) && v == vs[|edits|]
  {
    assert LevelsFit(edits) by { assert Unfold(IN_EDITS); }
    var builder := new Builder(base);
    for i := 0 to |edits|
      invariant builder.base == base && |builder.levels| == NUM_LEVELS
      invariant forall l :: 0 <= l < NUM_LEVELS ==> builder.levels[l] == StateAfter(edits, i, l)
    {
      builder.Apply(edits[i]);
    }
    forall l | 0 <= l < NUM_LEVELS ensures Mergeable(base[l], builder.levels[l]) {
      BuilderDescribesChain(base, edits, vs, |edits|, l);
      DescribedIsMergeable(base, edits, |edits|, l, vs[|edits|]);
    }
    v := builder.SaveTo();
    RebuiltIsLast(base, edits, vs, v);
  }

  ghost predicate LevelsFit(edits: seq<Edit>) {
    forall i :: 0 <= i < |edits| ==> LevelsInRange(edits[i])
  }

  lemma ChainInOrder(base: Version, edits: seq<Edit>, vs: seq<Version>, n: nat, l: nat)
    requires Chain(base, edits, vs) && n <= |edits| && l < NUM_LEVELS
    ensures InFileOrder(vs[n][l])
  {
    if n > 0 {
      assert Applied(vs[n - 1], edits[n - 1].deleted, edits[n - 1].added, vs[n]);
    }
  }
}
