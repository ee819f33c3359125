/** The cache's own hash table (util/cache.cc). */
module HandleTable {
  import opened Wrappers

  type Key = seq<int>

  /** What does not change in an entry; id tells entries with equal keys apart. */
  datatype Handle = Handle(id: nat, key: Key, hash: nat, charge: nat)

  /** hash & (length - 1), for a length that is a power of two. */
  function Slot(hash: nat, length: nat): (b: nat)
    requires length > 0
    ensures b < length
  {
    hash % length
  }

  ghost predicate NoRepeats(s: seq<Handle>) {
    forall i, j :: 0 <= i < j < |s| ==> s[i] != s[j]
  }

  /** The buckets hold exactly the handles of H, each once and where its hash says. */
  ghost predicate Spread(list: seq<seq<Handle>>, H: set<Handle>) {
    && |list| > 0
    && forall k {:trigger Unfold(k)} :: k == IN_BUCKETS && Unfold(k) ==>
      && (forall b, h :: 0 <= b < |list| && h in list[b] ==> h in H && Slot(h.hash, |list|) == b)
      && (forall h :: h in H ==> h in list[Slot(h.hash, |list|)])
      && (forall b :: 0 <= b < |list| ==> NoRepeats(list[b]))
  }

  /** At most one handle for a key. */
  ghost predicate KeysDiffer(H: set<Handle>) {
    forall h, g :: h in H && g in H && h.key == g.key && h.hash == g.hash ==> h == g
  }

  predicate Fits(h: Handle, key: Key, hash: nat) {
    h.hash == hash && h.key == key
  }

  lemma SpreadReplaces(list: seq<seq<Handle>>, H: set<Handle>, b: nat, p: nat, h: Handle)
    requires Spread(list, H) && b < |list| && p < |list[b]| && h !in H && Slot(h.hash, |list|) == b
    ensures Spread(list[b := list[b][p := h]], H - {list[b][p]} + {h})
  {
    assert Unfold(IN_BUCKETS);
    var gone, bucket, list' := list[b][p], list[b][p := h], list[b := list[b][p := h]];
    assert NoRepeats(list[b]) && bucket[p] == h;
    NoRepeatsReplaced(list[b], p, h);
    forall c, g | 0 <= c < |list| && g in list'[c] ensures g in H - {gone} + {h} && Slot(g.hash, |list|) == c {
      if c == b {
        var i :| 0 <= i < |bucket| && bucket[i] == g;
        if i != p {
          assert g in list[b] && list[b][i] == g;
          assert list[b][if i < p then i else p] != list[b][if i < p then p else i];
          assert g != gone && g in H;
        }
      } else {
        assert g in list[c] && gone in list[b];
        assert Slot(gone.hash, |list|) == b && Slot(g.hash, |list|) == c && g in H;
      }
    }
    forall g | g in H - {gone} + {h} ensures g in list'[Slot(g.hash, |list|)] {
      if g != h && Slot(g.hash, |list|) == b {
        var i :| 0 <= i < |list[b]| && list[b][i] == g;
        assert bucket[i] == g;
      }
    }
  }

  lemma NoRepeatsReplaced(s: seq<Handle>, p: nat, h: Handle)
    requires NoRepeats(s) && p < |s| && h !in s
    ensures NoRepeats(s[p := h])
  {
  }

  lemma SpreadAppends(list: seq<seq<Handle>>, H: set<Handle>, b: nat, h: Handle)
    requires Spread(list, H) && b < |list| && h !in H && Slot(h.hash, |list|) == b
    ensures Spread(list[b := list[b] + [h]], H + {h}) && Spread(list[b := [h] + list[b]], H + {h})
  {
    assert Unfold(IN_BUCKETS);
    assert h !in list[b];
    SpreadJoins(list, H, b, h, list[b] + [h]);
    SpreadJoins(list, H, b, h, [h] + list[b]);
  }

  lemma SpreadJoins(list: seq<seq<Handle>>, H: set<Handle>, b: nat, h: Handle, bucket: seq<Handle>)
    requires Spread(list, H) && b < |list| && h !in H && Slot(h.hash, |list|) == b
    requires NoRepeats(bucket) && forall g :: g in bucket <==> g in list[b] || g == h
    ensures Spread(list[b := bucket], H + {h})
  {
    assert Unfold(IN_BUCKETS);
  }

  lemma SpreadRemoves(list: seq<seq<Handle>>, H: set<Handle>, b: nat, p: nat)
    requires Spread(list, H) && b < |list| && p < |list[b]|
    ensures Spread(list[b := list[b][..p] + list[b][p + 1..]], H - {list[b][p]})
  {
    assert Unfold(IN_BUCKETS);
    assert NoRepeats(list[b]) && list[b][p] in list[b];
    OneLess(list[b], p, list[b][..p] + list[b][p + 1..]);
  }

  lemma OneLess(s: seq<Handle>, p: nat, rest: seq<Handle>)
    requires NoRepeats(s) && p < |s| && rest == s[..p] + s[p + 1..]
    ensures NoRepeats(rest) && forall g :: g in rest <==> g in s && g != s[p]
  {
    forall g | g in s && g != s[p] ensures g in rest {
      var i :| 0 <= i < |s| && s[i] == g;
      assert rest[if i < p then i else i - 1] == g;
    }
    assert s[p] !in rest;
  }

  lemma SwapSize(H: set<Handle>, gone: Handle, h: Handle)
    requires gone in H && h !in H && KeysDiffer(H) && gone.key == h.key && gone.hash == h.hash
    ensures |H - {gone} + {h}| == |H| && KeysDiffer(H - {gone} + {h})
  {
    assert H - {gone} + {h} - {h} == H - {gone};
  }

  /** For such a number of buckets, masking a hash with one less is the remainder. */
  predicate IsPowerOfTwo(n: nat) {
    n == 1 || (n > 1 && n % 2 == 0 && IsPowerOfTwo(n / 2))
  }

  class HandleTable {
    var list: seq<seq<Handle>>
    var elems: nat
    ghost var held: set<Handle>

    ghost predicate Linked()
      reads this
    {
      Spread(list, held) && KeysDiffer(held) && elems == |held| && IsPowerOfTwo(|list|)
    }

    /** There are at least as many buckets as handles. */
    ghost predicate Valid()
      reads this
    {
      Linked() && elems <= |list|
    }

    constructor ()
      ensures Valid() && held == {}
    {
      list, elems, held := [[], [], [], []], 0, {};
    }

    /** Bucket and place of the handle for a key; the end of the bucket if there is none. */
    method FindPointer(key: Key, hash: nat) returns (b: nat, p: nat)
      requires Valid()
      ensures b == Slot(hash, |list|) && p <= |list[b]|
      ensures p < |list[b]| ==> list[b][p] in held && Fits(list[b][p], key, hash)
      ensures p == |list[b]| ==> forall h :: h in held ==> !Fits(h, key, hash)
    {
      assert Unfold(IN_BUCKETS);
      b := Slot(hash, |list|);
      p := 0;
      while p < |list[b]| && !Fits(list[b][p], key, hash)
        invariant p <= |list[b]| && forall i :: 0 <= i < p ==> !Fits(list[b][i], key, hash)
      {
        p := p + 1;
      }
    }

    method Lookup(key: Key, hash: nat) returns (r: Option<Handle>)
      requires Valid()
      ensures r.Some? ==> r.value in held && Fits(r.value, key, hash)
      ensures r.None? ==> forall h :: h in held ==> !Fits(h, key, hash)
    {
      var b, p := FindPointer(key, hash);
      r := if p < |list[b]| then Some(list[b][p]) else None;
    }

    /** h takes the place of the handle for its key, which is returned, or is new. */
    method Insert(h: Handle) returns (r: Option<Handle>)
      requires Valid() && h !in held
      modifies this
      ensures Valid()
      ensures r.Some? ==> r.value in old(held) && Fits(r.value, h.key, h.hash) && held == old(held) - {r.value} + {h}
      ensures r.None? ==> held == old(held) + {h} && forall g :: g in old(held) ==> !Fits(g, h.key, h.hash)
    {
      var b, p := FindPointer(h.key, h.hash);
      if p < |list[b]| {
        r := Some(list[b][p]);
        Replace(b, p, h);
      } else {
        r := None;
        Append(b, h);
        if elems > |list| {
          Resize();
        }
      }
    }

    /** *ptr = h, at the end of a bucket. */
    method Append(b: nat, h: Handle)
      requires Valid() && h !in held && b == Slot(h.hash, |list|) && forall g :: g in held ==> !Fits(g, h.key, h.hash)
      modifies this
      ensures Linked() && held == old(held) + {h}
    {
      SpreadAppends(list, held, b, h);
      list, held, elems := list[b := list[b] + [h]], held + {h}, elems + 1;
    }

    /** *ptr = h, where a handle for the key of h was. */
    method Replace(b: nat, p: nat, h: Handle)
      requires Valid() && h !in held && b == Slot(h.hash, |list|) && p < |list[b]| && Fits(list[b][p], h.key, h.hash)
      modifies this
      ensures Valid() && old(list[b][p] in held) && held == old(held) - {old(list[b][p])} + {h}
    {
      SpreadReplaces(list, held, b, p, h);
      assert Unfold(IN_BUCKETS);
      ghost var gone := list[b][p];
      SwapSize(held, gone, h);
      held := held - {gone} + {h};
      list := list[b := list[b][p := h]];
    }

    method Remove(key: Key, hash: nat) returns (r: Option<Handle>)
      requires Valid()
      modifies this
      ensures Valid()
      ensures r.Some? ==> r.value in old(held) && Fits(r.value, key, hash) && held == old(held) - {r.value}
      ensures r.None? ==> held == old(held) && forall g :: g in held ==> !Fits(g, key, hash)
    {
      var b, p := FindPointer(key, hash);
      r := None;
      if p < |list[b]| {
        r := Some(list[b][p]);
        SpreadRemoves(list, held, b, p);
        list, held, elems := list[b := list[b][..p] + list[b][p + 1..]], held - {r.value}, elems - 1;
      }
    }

    /** The smallest power of two that is large enough, from 4 on. */
    method NewLength() returns (newLength: nat)
      ensures newLength >= 4 && elems <= newLength && IsPowerOfTwo(newLength)
      ensures newLength > 4 ==> newLength / 2 < elems
    {
      newLength := 4;
      while newLength < elems
        invariant newLength >= 4 && IsPowerOfTwo(newLength) && (newLength > 4 ==> newLength / 2 < elems)
      {
        newLength := newLength * 2;
      }
    }

    /** Spread the handles over enough buckets. */
    method Resize()
      requires Linked()
      modifies `list
      ensures Valid() && held == old(held) && |list| >= 4 && (|list| > 4 ==> |list| / 2 < elems)
    {
      assert Unfold(IN_BUCKETS);
      var newLength := NewLength();
      var newList: seq<seq<Handle>> := seq(newLength, i => []);
      var count := 0;
      ghost var moved: set<Handle> := {};
      for i := 0 to |list|
        invariant Linked() && list == old(list)
        invariant Spread(newList, moved) && |newList| == newLength && count == |moved| && moved <= held
        invariant forall h :: h in moved <==> h in held && Slot(h.hash, |list|) < i
      {
        newList, count, moved := MoveBucket(i, newList, count, moved);
      }
      assert moved == held;
      list := newList;
    }

    method MoveBucket(i: nat, newList0: seq<seq<Handle>>, count0: nat, ghost moved0: set<Handle>)
      returns (newList: seq<seq<Handle>>, count: nat, ghost moved: set<Handle>)
      requires Linked() && i < |list| && Spread(newList0, moved0) && count0 == |moved0| && moved0 <= held
      requires forall h :: h in moved0 <==> h in held && Slot(h.hash, |list|) < i
      ensures Spread(newList, moved) && |newList| == |newList0| && count == |moved| && moved <= held
      ensures forall h :: h in moved <==> h in held && Slot(h.hash, |list|) < i + 1
    {
      assert Unfold(IN_BUCKETS);
      newList, count, moved := newList0, count0, moved0;
      for p := 0 to |list[i]|
        invariant Spread(newList, moved) && |newList| == |newList0| && count == |moved|
        invariant forall h :: h in moved <==> h in moved0 || h in list[i][..p]
      {
        var h := list[i][p];
        assert NoRepeats(list[i]) && h in list[i] && h !in list[i][..p];
        var b := Slot(h.hash, |newList|);
        SpreadAppends(newList, moved, b, h);
        newList, count, moved := newList[b := [h] + newList[b]], count + 1, moved + {h};
      }
      assert list[i][..|list[i]|] == list[i];
    }
  }
}
