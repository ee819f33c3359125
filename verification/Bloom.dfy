/** The Bloom filter: no false negatives, whatever the hash (util/bloom.cc). */
module Bloom {
  import opened Wrappers
  import opened Coding
  import opened Varints

  type Word = bv8

  /** 1 << k */
  function Mask(k: nat): Word
    requires k < 8
  {
    1 << k
  }

  /** The bit at bitpos is set. */
  ghost predicate IsSet(bits: seq<Word>, bitpos: nat)
    requires bitpos < 8 * |bits|
  {
    forall k {:trigger Unfold(k)} :: k == IN_FILTER_BIT && Unfold(k) ==> bits[bitpos / 8] & Mask(bitpos % 8) != 0
  }

  method TestBit(bits: seq<Word>, bitpos: nat) returns (r: bool)
    requires bitpos < 8 * |bits|
    ensures r <==> IsSet(bits, bitpos)
  {
    assert Unfold(IN_FILTER_BIT);
    r := bits[bitpos / 8] & Mask(bitpos % 8) != 0;
  }

  /** h % n */
  function Position(h: nat, n: nat): (p: nat)
    requires n > 0
    ensures p < n
  {
    h % n
  }

  lemma BitIsSet(x: Word, m: Word)
    requires m != 0
    ensures (x | m) & m != 0
  {
  }

  lemma MaskNotZero(k: nat)
    requires k < 8
    ensures Mask(k) != 0
  {
    if k < 4 {
      assert k == 0 || k == 1 || k == 2 || k == 3;
    } else {
      assert k == 4 || k == 5 || k == 6 || k == 7;
    }
  }

  function MaskOf(k: nat): Word {
    if k == 0 then 1 else if k == 1 then 2 else if k == 2 then 4 else if k == 3 then 8
    else if k == 4 then 16 else if k == 5 then 32 else if k == 6 then 64 else 128
  }

  lemma MaskIs(k: nat)
    requires k < 8
    ensures Mask(k) == MaskOf(k)
  {
    if k < 4 {
      assert k == 0 || k == 1 || k == 2 || k == 3;
    } else {
      assert k == 4 || k == 5 || k == 6 || k == 7;
    }
  }

  lemma MasksApart(a: nat, b: nat)
    requires a < 8 && b < 8 && a != b
    ensures MaskOf(a) & MaskOf(b) == 0
  {
  }

  lemma OtherBit(x: Word, m: Word, w: Word)
    requires m & w == 0
    ensures (x | m) & w == x & w
  {
  }

  /** Setting one bit sets no other. */
  lemma OtherBitStays(x: Word, a: nat, b: nat)
    requires a < 8 && b < 8 && a != b
    ensures (x | Mask(a)) & Mask(b) == x & Mask(b)
  {
    MaskIs(a);
    MaskIs(b);
    MasksApart(a, b);
    OtherBit(x, Mask(a), Mask(b));
  }

  type Hash = n: nat | n < LIMIT32

  /** Rotate right by 17 bits. */
  function Delta(h: Hash): Hash {
    h / 0x2_0000 + h % 0x2_0000 * 0x8000
  }

  /** The value for probe j. */
  function Probe(h: Hash, delta: Hash, j: nat): Hash {
    if j == 0 then h else (Probe(h, delta, j - 1) + delta) % LIMIT32
  }

  function Words(filter: Bytes): seq<Word> {
    seq(|filter|, i requires 0 <= i < |filter| => filter[i] as Word)
  }

  ghost predicate AllSet(bits: seq<Word>, h: Hash, delta: Hash, k: nat)
    requires |bits| > 0
  {
    forall j :: 0 <= j < k ==> IsSet(bits, Position(Probe(h, delta, j), 8 * |bits|))
  }

  /** The filter does not rule the key out: bits for all of its probes are set; the last byte says how many
      probes, and more than 30 are kept for other encodings. */
  ghost predicate Matches(hash: Bytes -> Hash, key: Bytes, filter: Bytes) {
    forall n {:trigger Unfold(n)} :: n == IN_FILTER && Unfold(n) ==>
    && |filter| >= 2
    && (filter[|filter| - 1] > 30
        || AllSet(Words(filter[..|filter| - 1]), hash(key), Delta(hash(key)), filter[|filter| - 1]))
  }

  function WithBit(bits: seq<Word>, bitpos: nat): (r: seq<Word>)
    requires bitpos < 8 * |bits|
    ensures |r| == |bits|
  {
    bits[bitpos / 8 := bits[bitpos / 8] | Mask(bitpos % 8)]
  }

  lemma ThisBit(bits: seq<Word>, bitpos: nat)
    requires bitpos < 8 * |bits|
    ensures IsSet(WithBit(bits, bitpos), bitpos)
  {
    MaskNotZero(bitpos % 8);
    BitIsSet(bits[bitpos / 8], Mask(bitpos % 8));
  }

  lemma OtherBits(bits: seq<Word>, bitpos: nat, b: nat)
    requires bitpos < 8 * |bits| && b < 8 * |bits| && b != bitpos
    ensures IsSet(WithBit(bits, bitpos), b) <==> IsSet(bits, b)
  {
    assert Unfold(IN_FILTER_BIT);
    if b / 8 == bitpos / 8 {
      OtherBitStays(bits[b / 8], bitpos % 8, b % 8);
    }
  }

  /** One more bit is set, and nothing else. */
  ghost predicate Sets(before: seq<Word>, after: seq<Word>, bitpos: nat) {
    |before| == |after| && forall b :: 0 <= b < 8 * |before| ==> (IsSet(after, b) <==> IsSet(before, b) || b == bitpos)
  }

  lemma WithBitSets(bits: seq<Word>, bitpos: nat)
    requires bitpos < 8 * |bits|
    ensures Sets(bits, WithBit(bits, bitpos), bitpos)
  {
    forall b | 0 <= b < 8 * |bits| ensures IsSet(WithBit(bits, bitpos), b) <==> IsSet(bits, b) || b == bitpos {
      if b == bitpos { ThisBit(bits, bitpos); } else { OtherBits(bits, bitpos, b); }
    }
  }

  method SetBit(bits: array<Word>, bitpos: nat)
    requires bitpos < 8 * bits.Length
    modifies bits
    ensures Sets(old(bits[..]), bits[..], bitpos)
  {
    WithBitSets(bits[..], bitpos);
    bits[bitpos / 8] := bits[bitpos / 8] | Mask(bitpos % 8);
    assert bits[..] == WithBit(old(bits[..]), bitpos);
  }

  /** b is the place of one of the first k probes for h. */
  ghost predicate IsProbed(size: nat, h: Hash, k: nat, b: nat)
    requires size > 0
  {
    exists j :: 0 <= j < k && b == Position(Probe(h, Delta(h), j), size)
  }

  /** Exactly the bits of the first k probes for h are set in addition. */
  ghost predicate SetsProbes(before: seq<Word>, after: seq<Word>, h: Hash, k: nat) {
    && |before| == |after| > 0
    && forall b :: 0 <= b < 8 * |before| ==> (IsSet(after, b) <==> IsSet(before, b) || IsProbed(8 * |before|, h, k, b))
  }

  lemma OneMoreProbe(before: seq<Word>, now: seq<Word>, after: seq<Word>, h: Hash, j: nat)
    requires SetsProbes(before, now, h, j) && Sets(now, after, Position(Probe(h, Delta(h), j), 8 * |now|))
    ensures SetsProbes(before, after, h, j + 1)
  {
  }

  /** The probes of one key. */
  method AddKey(bits: array<Word>, h0: Hash, k: nat)
    requires bits.Length > 0
    modifies bits
    ensures SetsProbes(old(bits[..]), bits[..], h0, k)
  {
    var h, delta := h0, Delta(h0);
    for j := 0 to k
      invariant h == Probe(h0, delta, j) && SetsProbes(old(bits[..]), bits[..], h0, j)
    {
      ghost var now := bits[..];
      SetBit(bits, Position(h, 8 * bits.Length));
      OneMoreProbe(old(bits[..]), now, bits[..], h0, j);
      h := (h + delta) % LIMIT32;
    }
  }

  /** The fewest bytes with that many bits, and 64 at least; small filters would have too many false positives. */
  function FilterSize(wanted: nat): (n: nat)
    ensures 8 * n >= 64 && 8 * n >= wanted && (8 * (n - 1) < 64 || 8 * (n - 1) < wanted)
  {
    ((if wanted < 64 then 64 else wanted) + 7) / 8
  }

  /** Exactly the bits of the probes for the first n keys are set. */
  ghost predicate HasProbes(bits: seq<Word>, hash: Bytes -> Hash, keys: seq<Bytes>, n: nat, k: nat) {
    && |bits| > 0 && n <= |keys|
    && forall b :: 0 <= b < 8 * |bits| ==>
        (IsSet(bits, b) <==> exists i :: 0 <= i < n && IsProbed(8 * |bits|, hash(keys[i]), k, b))
  }

  lemma NothingSet(bits: seq<Word>, hash: Bytes -> Hash, keys: seq<Bytes>, k: nat)
    requires |bits| > 0 && forall i :: 0 <= i < |bits| ==> bits[i] == 0
    ensures HasProbes(bits, hash, keys, 0, k)
  {
    assert Unfold(IN_FILTER_BIT);
  }

  lemma OneMoreKey(before: seq<Word>, after: seq<Word>, hash: Bytes -> Hash, keys: seq<Bytes>, n: nat, k: nat)
    requires HasProbes(before, hash, keys, n, k) && n < |keys| && SetsProbes(before, after, hash(keys[n]), k)
    ensures HasProbes(after, hash, keys, n + 1, k)
  {
  }

  lemma ProbesAreSet(bits: seq<Word>, hash: Bytes -> Hash, keys: seq<Bytes>, k: nat, i: nat)
    requires HasProbes(bits, hash, keys, |keys|, k) && i < |keys|
    ensures AllSet(bits, hash(keys[i]), Delta(hash(keys[i])), k)
  {
    forall j | 0 <= j < k ensures IsSet(bits, Position(Probe(hash(keys[i]), Delta(hash(keys[i])), j), 8 * |bits|)) {
      assert IsProbed(8 * |bits|, hash(keys[i]), k,
          Position(Probe(hash(keys[i]), Delta(hash(keys[i])), j), 8 * |bits|));
    }
  }

  /** A filter with the bits of all probes set, and no others: it matches every key. */
  method CreateFilter(hash: Bytes -> Hash, bitsPerKey: nat, k: nat, keys: seq<Bytes>) returns (filter: Bytes)
    requires 1 <= k <= 30
    ensures forall i :: 0 <= i < |keys| ==> Matches(hash, keys[i], filter)
    ensures |filter| == FilterSize(|keys| * bitsPerKey) + 1 && filter[|filter| - 1] == k
    ensures HasProbes(Words(filter[..|filter| - 1]), hash, keys, |keys|, k)
  {
    var bits := new Word[FilterSize(|keys| * bitsPerKey)](_ => 0);
    NothingSet(bits[..], hash, keys, k);
    for i := 0 to |keys|
      invariant HasProbes(bits[..], hash, keys, i, k)
    {
      ghost var before := bits[..];
      AddKey(bits, hash(keys[i]), k);
      OneMoreKey(before, bits[..], hash, keys, i, k);
    }
    filter := AsBytes(bits[..]) + [k];
    BytesBack(bits[..]);
    assert filter[..|filter| - 1] == AsBytes(bits[..]) && Unfold(IN_FILTER);
    forall i | 0 <= i < |keys| ensures Matches(hash, keys[i], filter) {
      ProbesAreSet(bits[..], hash, keys, k, i);
    }
  }

  function AsBytes(bits: seq<Word>): Bytes {
    seq(|bits|, i requires 0 <= i < |bits| => bits[i] as int)
  }

  lemma BytesBack(bits: seq<Word>)
    ensures Words(AsBytes(bits)) == bits
  {
    forall i | 0 <= i < |bits| ensures Words(AsBytes(bits))[i] == bits[i] {
      ByteAsInt(bits[i]);
    }
  }

  method ProbeAll(words: seq<Word>, h0: Hash, k: nat) returns (r: bool)
    requires |words| > 0
    ensures r <==> AllSet(words, h0, Delta(h0), k)
  {
    var h, delta := h0, Delta(h0);
    for j := 0 to k
      invariant h == Probe(h0, delta, j) && AllSet(words, h0, delta, j)
    {
      var isSet := TestBit(words, Position(h, 8 * |words|));
      if !isSet {
        return false;
      }
      h := (h + delta) % LIMIT32;
    }
    return true;
  }

  method KeyMayMatch(hash: Bytes -> Hash, key: Bytes, filter: Bytes) returns (r: bool)
    ensures r <==> Matches(hash, key, filter)
  {
    assert Unfold(IN_FILTER);
    var len := |filter|;
    if len < 2 {
      return false;
    }
    var k := filter[len - 1];
    if k > 30 {
      return true;
    }
    r := ProbeAll(Words(filter[..len - 1]), hash(key), k);
  }
}
