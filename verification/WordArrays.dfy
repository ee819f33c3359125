/** Arrays of 32-bit words at the end of a block (PutFixed32 in util/coding.cc). */
module WordArrays {
  import opened Wrappers
  import opened Varints
  import opened BlockFormat

  /** The four bytes at p are the word x. */
  ghost predicate Holds(data: Bytes, p: nat, x: nat) {
    p + 4 <= |data| && forall k {:trigger Unfold(k)} :: k == IN_WORD && Unfold(k) ==> At(data, p, Fixed(x))
  }

  method PutFixed32(x: nat) returns (w: Bytes)
    ensures |w| == 4 && Holds(w, 0, x)
  {
    w := Fixed(x);
  }

  lemma AtInside(a: Bytes, b: Bytes, c: Bytes, p: nat, code: Bytes)
    requires At(b, p, code)
    ensures At(a + b + c, |a| + p, code)
  {
    assert (a + b + c)[|a| + p..|a| + p + |code|] == b[p..p + |code|];
  }

  lemma HoldsInside(a: Bytes, b: Bytes, c: Bytes, p: nat, x: nat)
    requires Holds(b, p, x)
    ensures Holds(a + b + c, |a| + p, x)
  {
    assert Unfold(IN_WORD);
    AtInside(a, b, c, p, Fixed(x));
  }

  lemma HoldsWord(data: Bytes, p: nat, x: nat)
    requires Holds(data, p, x) && x < LIMIT32
    ensures WordAt(data, p) == x
  {
    assert Unfold(IN_WORD);
    FixedRoundTrip(x);
    var w := data[p..p + 4];
    assert w[0] == data[p] && w[1] == data[p + 1] && w[2] == data[p + 2] && w[3] == data[p + 3];
  }

  ghost predicate IsArray(words: Bytes, xs: seq<nat>) {
    |words| == 4 * |xs| && forall j {:trigger Holds(words, 4 * j, xs[j])} :: 0 <= j < |xs| ==>
        Holds(words, 4 * j, xs[j])
  }

  lemma ArrayGrows(words: Bytes, xs: seq<nat>, w: Bytes, x: nat)
    requires IsArray(words, xs) && |w| == 4 && Holds(w, 0, x)
    ensures IsArray(words + w, xs + [x])
  {
    assert [] + words + w == words + w && words + w + [] == words + w;
    forall j | 0 <= j < |xs| + 1 ensures Holds(words + w, 4 * j, (xs + [x])[j]) {
      if j < |xs| {
        assert Holds(words, 4 * j, xs[j]);
        HoldsInside([], words, w, 4 * j, xs[j]);
      } else {
        HoldsInside(words, w, [], 0, x);
      }
    }
  }

  /** The words one after the other. */
  method PutArray(xs: seq<nat>) returns (words: Bytes)
    ensures IsArray(words, xs)
  {
    words := [];
    for i := 0 to |xs|
      invariant IsArray(words, xs[..i])
    {
      var w := PutFixed32(xs[i]);
      ArrayGrows(words, xs[..i], w, xs[i]);
      assert xs[..i] + [xs[i]] == xs[..i + 1];
      words := words + w;
    }
    assert xs[..|xs|] == xs;
  }

  /** A word of an array that lies between other bytes. */
  lemma WordInside(before: Bytes, words: Bytes, after: Bytes, p: nat, x: nat)
    requires Holds(words, p, x) && x < LIMIT32
    ensures |before| + p + 4 <= |before + words + after| && WordAt(before + words + after, |before| + p) == x
  {
    HoldsInside(before, words, after, p, x);
    HoldsWord(before + words + after, |before| + p, x);
  }

  /** An array and then one more word, after some bytes and before others. */
  lemma ArrayInside(before: Bytes, words: Bytes, w: Bytes, after: Bytes, data: Bytes, xs: seq<nat>, x: nat)
    requires data == before + words + w + after && IsArray(words, xs) && |w| == 4 && Holds(w, 0, x) && x < LIMIT32
    requires forall j :: 0 <= j < |xs| ==> xs[j] < LIMIT32
    ensures |data| == |before| + 4 * |xs| + 4 + |after|
    ensures WordAt(data, |before| + 4 * |xs|) == x
    ensures forall j :: 0 <= j < |xs| ==> WordAt(data, |before| + 4 * j) == xs[j]
  {
    assert data == before + words + (w + after);
    WordInside(before + words, w, after, 0, x);
    forall j | 0 <= j < |xs| ensures WordAt(data, |before| + 4 * j) == xs[j] {
      assert Holds(words, 4 * j, xs[j]);
      WordInside(before, words, w + after, 4 * j, xs[j]);
    }
  }
}
