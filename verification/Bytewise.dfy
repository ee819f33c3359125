/** The bytewise order on user keys, internal keys, and the shortening of index keys
    (util/comparator.cc, db/dbformat.cc). */
module Bytewise {
  import opened Varints

  /** Slice::compare(a, b) < 0. */
  predicate Less(a: Bytes, b: Bytes)
    decreases |a|
  {
    b != [] && (a == [] || a[0] < b[0] || (a[0] == b[0] && Less(a[1..], b[1..])))
  }

  predicate AtMost(a: Bytes, b: Bytes) {
    a == b || Less(a, b)
  }

  lemma {:induction false} LessTransitive(a: Bytes, b: Bytes, c: Bytes)
    requires Less(a, b) && Less(b, c)
    ensures Less(a, c)
    decreases |a|
  {
    if a != [] && a[0] == b[0] == c[0] {
      LessTransitive(a[1..], b[1..], c[1..]);
    }
  }

  lemma {:induction false} LessTotal(a: Bytes, b: Bytes)
    ensures Less(a, b) || a == b || Less(b, a)
    ensures !(Less(a, b) && Less(b, a)) && !Less(a, a)
    decreases |a|
  {
    if a != [] && b != [] && a[0] == b[0] {
      LessTotal(a[1..], b[1..]);
      assert a == [a[0]] + a[1..] && b == [b[0]] + b[1..];
    }
    if a != [] {
      LessTotal(a[1..], a[1..]);
    }
  }

  /** The first byte in which two strings differ decides. */
  lemma {:induction false} LessAt(a: Bytes, b: Bytes, d: nat)
    requires d < |a| && d < |b| && a[..d] == b[..d] && a[d] < b[d]
    ensures Less(a, b)
    decreases d
  {
    if d > 0 {
      assert a[0] == a[..d][0] == b[..d][0] == b[0];
      assert a[1..][..d - 1] == a[..d][1..] && b[1..][..d - 1] == b[..d][1..];
      LessAt(a[1..], b[1..], d - 1);
    }
  }

  /** At the first difference, d, the byte of a can be raised and stays below that of b. */
  predicate CanRaise(a: Bytes, b: Bytes, d: nat) {
    d < |a| && d < |b| && a[..d] == b[..d] && a[d] != b[d] && a[d] < 0xff && a[d] + 1 < b[d]
  }

  lemma SamePrefix(a: Bytes, b: Bytes, n: nat)
    requires n <= |a| && n <= |b| && a[..n] == b[..n]
    ensures forall k :: 0 <= k < n ==> a[k] == b[k]
  {
    forall k | 0 <= k < n ensures a[k] == b[k] {
      assert a[k] == a[..n][k] == b[..n][k];
    }
  }

  /** Only the first difference can be raised, if it can. */
  lemma FirstDifferenceOnly(a: Bytes, b: Bytes, d: nat, e: nat)
    requires d <= |a| && d <= |b| && a[..d] == b[..d] && (d < |a| && d < |b| ==> a[d] != b[d]) && CanRaise(a, b, e)
    ensures e == d < |a| && d < |b|
  {
    SamePrefix(a, b, d);
    SamePrefix(a, b, e);
  }

  /** A string not before start and before limit: start with its first differing byte raised and the rest dropped,
      where that leads to such a string, else start. */
  method FindShortestSeparator(start: Bytes, limit: Bytes) returns (r: Bytes)
    ensures AtMost(start, r) && (Less(start, limit) ==> Less(r, limit)) && (start == limit ==> r == start)
    ensures || (exists d: nat :: CanRaise(start, limit, d) && r == start[..d] + [start[d] + 1])
            || (r == start && forall d: nat :: !CanRaise(start, limit, d))
  {
    var minLength := if |start| < |limit| then |start| else |limit|;
    var diffIndex := 0;
    while diffIndex < minLength && start[diffIndex] == limit[diffIndex]
      invariant diffIndex <= minLength && start[..diffIndex] == limit[..diffIndex]
    {
      diffIndex := diffIndex + 1;
    }
    if diffIndex < minLength {
      var diffByte := start[diffIndex];
      if diffByte < 0xff && diffByte + 1 < limit[diffIndex] {
        r := start[..diffIndex] + [diffByte + 1];
        assert r[..diffIndex] == start[..diffIndex];
        LessAt(start, r, diffIndex);
        LessAt(r, limit, diffIndex);
        assert CanRaise(start, limit, diffIndex);
        return;
      }
    }
    forall e: nat | CanRaise(start, limit, e) ensures e == diffIndex < minLength {
      FirstDifferenceOnly(start, limit, diffIndex, e);
    }
    return start;
  }

  /** Byte i is the first that can be raised. */
  predicate FirstToRaise(key: Bytes, i: nat) {
    i < |key| && key[i] != 0xff && forall k :: 0 <= k < i ==> key[k] == 0xff
  }

  /** A string not before key: the first byte that can be is raised and the rest dropped. */
  method FindShortSuccessor(key: Bytes) returns (r: Bytes)
    ensures AtMost(key, r)
    ensures || (exists i: nat :: FirstToRaise(key, i) && r == key[..i] + [key[i] + 1])
            || (r == key && forall k :: 0 <= k < |key| ==> key[k] == 0xff)
  {
    for i := 0 to |key|
      invariant forall k :: 0 <= k < i ==> key[k] == 0xff
    {
      if key[i] != 0xff {
        r := key[..i] + [key[i] + 1];
        assert r[..i] == key[..i];
        LessAt(key, r, i);
        assert FirstToRaise(key, i);
        return;
      }
    }
    return key;
  }

  // ----- internal keys -----

  /** A user key with its packed sequence number and type; larger tags come first. */
  datatype InternalKey = InternalKey(user: Bytes, tag: nat)

  /** The tag before all others of a user key: the largest sequence number with the type used for seeking. */
  const FIRST_TAG: nat := 0x100_0000_0000_0000 * 256 - 255

  predicate Before(a: InternalKey, b: InternalKey) {
    Less(a.user, b.user) || (a.user == b.user && a.tag > b.tag)
  }

  predicate NotAfter(a: InternalKey, b: InternalKey) {
    a == b || Before(a, b)
  }

  lemma BeforeTransitive(a: InternalKey, b: InternalKey, c: InternalKey)
    requires Before(a, b) && Before(b, c)
    ensures Before(a, c)
  {
    if Less(a.user, b.user) && Less(b.user, c.user) {
      LessTransitive(a.user, b.user, c.user);
    }
  }

  /** sep divides start from limit, and no key between start and sep has the user key of limit. */
  predicate Divides(start: InternalKey, sep: InternalKey, limit: InternalKey) {
    NotAfter(start, sep) && Before(sep, limit) && (sep == start || Less(sep.user, limit.user))
  }

  /** sep is start with the first byte in which it differs from limit raised, the rest dropped, and the first tag, if
      that can be done and drops something; else it is start. */
  ghost predicate IsSeparator(start: InternalKey, limit: InternalKey, sep: InternalKey) {
    || (exists d: nat :: CanRaise(start.user, limit.user, d) && d + 1 < |start.user|
         && sep == InternalKey(start.user[..d] + [start.user[d] + 1], FIRST_TAG))
    || (sep == start && forall d: nat :: CanRaise(start.user, limit.user, d) ==> d + 1 >= |start.user|)
  }

  method FindShortestInternalSeparator(start: InternalKey, limit: InternalKey) returns (r: InternalKey)
    ensures NotAfter(start, r) && (Before(start, limit) ==> Divides(start, r, limit))
    ensures IsSeparator(start, limit, r)
  {
    var tmp := FindShortestSeparator(start.user, limit.user);
    ghost var a, b := start.user, limit.user;
    forall d: nat | CanRaise(a, b, d)
      ensures Less(a, a[..d] + [a[d] + 1]) && forall e: nat :: CanRaise(a, b, e) ==> e == d
    {
      RaisedIsLater(a, d);
      forall e: nat | CanRaise(a, b, e) ensures e == d {
        FirstDifferenceOnly(a, b, d, e);
      }
    }
    if |tmp| < |start.user| && Less(start.user, tmp) {
      SeparatorOfEqual(start.user, limit.user, tmp);
      r := InternalKey(tmp, FIRST_TAG);
    } else {
      r := start;
    }
  }

  /** Raising a byte of a string gives a later one. */
  lemma RaisedIsLater(a: Bytes, d: nat)
    requires d < |a| && a[d] < 0xff
    ensures Less(a, a[..d] + [a[d] + 1])
  {
    var r := a[..d] + [a[d] + 1];
    assert r[..d] == a[..d];
    LessAt(a, r, d);
  }

  lemma SeparatorOfEqual(a: Bytes, b: Bytes, tmp: Bytes)
    requires Less(a, tmp) && (Less(a, b) ==> Less(tmp, b))
    ensures a != tmp
  {
    LessTotal(a, tmp);
  }

  /** r is key with the first byte that can be raised raised, the rest dropped, and the first tag, if that drops
      something; else it is key. */
  ghost predicate IsSuccessor(key: InternalKey, r: InternalKey) {
    || (exists i: nat :: FirstToRaise(key.user, i) && i + 1 < |key.user|
         && r == InternalKey(key.user[..i] + [key.user[i] + 1], FIRST_TAG))
    || (r == key && forall i: nat :: FirstToRaise(key.user, i) ==> i + 1 >= |key.user|)
  }

  method FindShortInternalSuccessor(key: InternalKey) returns (r: InternalKey)
    ensures NotAfter(key, r) && IsSuccessor(key, r)
  {
    var tmp := FindShortSuccessor(key.user);
    ghost var a := key.user;
    forall i: nat | FirstToRaise(a, i) ensures Less(a, a[..i] + [a[i] + 1]) {
      RaisedIsLater(a, i);
    }
    if |tmp| < |key.user| && Less(key.user, tmp) {
      r := InternalKey(tmp, FIRST_TAG);
    } else {
      r := key;
    }
  }
}
