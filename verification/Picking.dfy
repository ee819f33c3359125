/** Choosing the inputs of an automatic compaction and the level of a flushed memtable (db/version_set.cc). */
module Picking {
  import opened Wrappers
  import opened DbFormat
  import opened Versions

  /** The files of fs whose range meets [lo, hi], in their order. */
  function Meeting(fs: seq<File>, lo: UserKey, hi: UserKey): (r: seq<File>)
    ensures forall f :: f in r <==> f in fs && Meets(f, lo, hi)
    ensures |r| <= |fs|
  {
    if fs == [] then [] else
      var n := |fs| - 1;
      assert fs == fs[..n] + [fs[n]];
      Meeting(fs[..n], lo, hi) + if Meets(fs[n], lo, hi) then [fs[n]] else []
  }

  /** No file of fs that meets [lo, hi] sticks out of it. */
  ghost predicate Closed(fs: seq<File>, lo: UserKey, hi: UserKey) {
    forall f :: f in fs && Meets(f, lo, hi) ==> lo <= Lo(f) && Hi(f) <= hi
  }

  /** [lo, hi] is the least overlap-closed range around [begin, end]. */
  ghost predicate LeastClosed(fs: seq<File>, begin: UserKey, end: UserKey, lo: UserKey, hi: UserKey) {
    && lo <= begin && end <= hi && Closed(fs, lo, hi)
    && Forced(fs, begin, end, lo, hi)
  }

  /** Every closed range around [begin, end] holds [lo, hi]. */
  ghost predicate Forced(fs: seq<File>, begin: UserKey, end: UserKey, lo: UserKey, hi: UserKey) {
    forall a, b :: Closed(fs, a, b) && a <= begin && end <= b ==> a <= lo && hi <= b
  }

  ghost predicate Covers(fs: seq<File>, x: UserKey) {
    exists f :: f in fs && Lo(f) <= x <= Hi(f)
  }

  /** Every point of [lo, hi] outside [begin, end] lies in the range of a file. */
  ghost predicate Joined(fs: seq<File>, begin: UserKey, end: UserKey, lo: UserKey, hi: UserKey) {
    forall x :: lo <= x <= hi ==> begin <= x <= end || Covers(fs, x)
  }

  lemma JoinedByMeeting(fs: seq<File>, begin: UserKey, end: UserKey, lo: UserKey, hi: UserKey)
    requires Joined(fs, begin, end, lo, hi)
    ensures Joined(Meeting(fs, lo, hi), begin, end, lo, hi)
  {
    forall x | lo <= x <= hi && !(begin <= x <= end) ensures Covers(Meeting(fs, lo, hi), x) {
      assert Covers(fs, x);
      var f :| f in fs && Lo(f) <= x <= Hi(f);
      assert f in Meeting(fs, lo, hi);
    }
  }

  /** One restart: the range grows to take in f. */
  lemma Widen(fs: seq<File>, begin: UserKey, end: UserKey, lo: UserKey, hi: UserKey, f: File, lo': UserKey,
      hi': UserKey)
    requires f in fs && Meets(f, lo, hi)
    requires (lo' == Lo(f) < lo && hi' == hi) || (lo' == lo && hi < Hi(f) == hi')
    requires Forced(fs, begin, end, lo, hi) && Joined(fs, begin, end, lo, hi)
    ensures Forced(fs, begin, end, lo', hi') && Joined(fs, begin, end, lo', hi')
    ensures EndsOutside(fs, lo', hi') < EndsOutside(fs, lo, hi)
  {
    WiderLeavesFewerOutside(fs, f, lo, hi, lo', hi');
    forall a, b | Closed(fs, a, b) && a <= begin && end <= b ensures a <= lo' && hi' <= b {
      assert a <= lo && hi <= b;
    }
    forall x | lo' <= x <= hi' && !(lo <= x <= hi) ensures Covers(fs, x) {
      RunBounds(f, Smallest(f));
    }
  }

  /** How many file ends stick out of [lo, hi]: what a restart of the search makes smaller. */
  ghost function EndsOutside(fs: seq<File>, lo: UserKey, hi: UserKey): nat {
    if fs == [] then 0 else
      (if Lo(fs[0]) < lo then 1 else 0) + (if Hi(fs[0]) > hi then 1 else 0) + EndsOutside(fs[1..], lo, hi)
  }

  lemma {:induction false} WiderLeavesFewerOutside(fs: seq<File>, f: File, lo: UserKey, hi: UserKey, lo': UserKey,
      hi': UserKey)
    requires lo' <= lo && hi <= hi'
    ensures EndsOutside(fs, lo', hi') <= EndsOutside(fs, lo, hi)
    ensures f in fs && (lo' <= Lo(f) < lo || hi < Hi(f) <= hi') ==> EndsOutside(fs, lo', hi') < EndsOutside(fs, lo, hi)
  {
    if fs != [] {
      WiderLeavesFewerOutside(fs[1..], f, lo, hi, lo', hi');
    }
  }

  /** All files of a level that overlap [begin, end].  At level 0, where ranges may overlap, the
      search restarts with a wider range whenever a file sticks out. */
  method GetOverlappingInputs(level: nat, fs: seq<File>, begin: UserKey, end: UserKey)
    returns (inputs: seq<File>, ghost lo: UserKey, ghost hi: UserKey)
    requires begin <= end
    ensures inputs == Meeting(fs, lo, hi)
    ensures level > 0 ==> lo == begin && hi == end
    ensures level == 0 ==> LeastClosed(fs, begin, end, lo, hi)
    ensures Joined(inputs, begin, end, lo, hi) && Overlapping(level, fs, begin, end, inputs)
  {
    var userBegin, userEnd := begin, end;
    inputs := [];
    var i := 0;
    while i < |fs|
      invariant i <= |fs| && userBegin <= begin && end <= userEnd
      invariant inputs == Meeting(fs[..i], userBegin, userEnd)
      invariant level > 0 ==> userBegin == begin && userEnd == end
      invariant level == 0 ==> Closed(fs[..i], userBegin, userEnd)
      invariant Forced(fs, begin, end, userBegin, userEnd) && Joined(fs, begin, end, userBegin, userEnd)
      decreases EndsOutside(fs, userBegin, userEnd), |fs| - i
    {
      var f := fs[i];
      i := i + 1;
      assert fs[..i][..i - 1] == fs[..i - 1] && fs[..i] == fs[..i - 1] + [f];
      if Hi(f) < userBegin {
        // Completely before the range
      } else if Lo(f) > userEnd {
        // Completely after the range
      } else {
        inputs := inputs + [f];
        if level == 0 {
          if Lo(f) < userBegin {
            Widen(fs, begin, end, userBegin, userEnd, f, Lo(f), userEnd);
            userBegin := Lo(f);
            inputs, i := [], 0;
          } else if Hi(f) > userEnd {
            Widen(fs, begin, end, userBegin, userEnd, f, userBegin, Hi(f));
            userEnd := Hi(f);
            inputs, i := [], 0;
          }
        }
      }
    }
    assert fs[..i] == fs;
    lo, hi := userBegin, userEnd;
    JoinedByMeeting(fs, begin, end, lo, hi);
  }

  /** The same answer as a relation between level, range and result. */
  ghost predicate Overlapping(level: nat, fs: seq<File>, begin: UserKey, end: UserKey, inputs: seq<File>) {
    if level > 0 then inputs == Meeting(fs, begin, end)
    else exists lo, hi ::
        LeastClosed(fs, begin, end, lo, hi) && Joined(fs, begin, end, lo, hi) && inputs == Meeting(fs, lo, hi)
  }

  lemma OverlappingIsUnique(level: nat, fs: seq<File>, begin: UserKey, end: UserKey, a: seq<File>, b: seq<File>)
    requires Overlapping(level, fs, begin, end, a) && Overlapping(level, fs, begin, end, b)
    ensures a == b
  {
  }

  // ---------------------------------------------------------------------------------------------
  // Ranges of file lists
  // ---------------------------------------------------------------------------------------------

  ghost predicate IsFirst(fs: seq<File>, f: File) {
    f in fs && forall g :: g in fs ==> Lo(f) <= Lo(g)
  }

  ghost predicate IsLast(fs: seq<File>, f: File) {
    f in fs && forall g :: g in fs ==> Hi(g) <= Hi(f)
  }

  lemma {:induction false} EndsExist(fs: seq<File>)
    requires fs != []
    ensures exists f :: IsFirst(fs, f)
    ensures exists f :: IsLast(fs, f)
  {
    var n := |fs| - 1;
    if n == 0 {
      assert IsFirst(fs, fs[0]) && IsLast(fs, fs[0]);
    } else {
      EndsExist(fs[..n]);
      var f :| IsFirst(fs[..n], f);
      var l :| IsLast(fs[..n], l);
      assert fs == fs[..n] + [fs[n]];
      assert IsFirst(fs, if Lo(fs[n]) < Lo(f) then fs[n] else f);
      assert IsLast(fs, if Hi(fs[n]) > Hi(l) then fs[n] else l);
    }
  }

  /** The least user key in the files. */
  ghost function MinLo(fs: seq<File>): (r: UserKey)
    requires fs != []
    ensures forall f :: f in fs ==> r <= Lo(f)
    ensures exists f :: f in fs && Lo(f) == r
  {
    EndsExist(fs);
    var f :| IsFirst(fs, f);
    Lo(f)
  }

  /** The greatest user key in the files. */
  ghost function MaxHi(fs: seq<File>): (r: UserKey)
    requires fs != []
    ensures forall f :: f in fs ==> Hi(f) <= r
    ensures exists f :: f in fs && Hi(f) == r
  {
    EndsExist(fs);
    var f :| IsLast(fs, f);
    Hi(f)
  }

  /** The least and greatest internal keys of the files; their user keys bound the range. */
  method GetRange(fs: seq<File>) returns (smallest: Entry, largest: Entry)
    requires fs != []
    ensures smallest.key == MinLo(fs) && largest.key == MaxHi(fs)
  {
    smallest, largest := Smallest(fs[0]), Largest(fs[0]);
    for i := 1 to |fs|
      invariant forall k :: 0 <= k < i ==> smallest.key <= Lo(fs[k]) && Hi(fs[k]) <= largest.key
      invariant exists k :: 0 <= k < i && Lo(fs[k]) == smallest.key
      invariant exists k :: 0 <= k < i && Hi(fs[k]) == largest.key
    {
      if Before(Smallest(fs[i]), smallest) {
        smallest := Smallest(fs[i]);
      }
      if Before(largest, Largest(fs[i])) {
        largest := Largest(fs[i]);
      }
    }
  }

  function TotalSize(fs: seq<File>): nat {
    if fs == [] then 0 else TotalSize(fs[..|fs| - 1]) + fs[|fs| - 1].size
  }

  method TotalFileSize(fs: seq<File>) returns (sum: nat)
    ensures sum == TotalSize(fs)
  {
    sum := 0;
    for i := 0 to |fs|
      invariant sum == TotalSize(fs[..i])
    {
      assert fs[..i + 1][..i] == fs[..i];
      sum := sum + fs[i].size;
    }
    assert fs[..|fs|] == fs;
  }

  // ---------------------------------------------------------------------------------------------
  // The level a flushed memtable goes to
  // ---------------------------------------------------------------------------------------------

  /** Nothing in the next level is in the way, and little in the one after. */
  ghost predicate MayPushBelow(v: Version, lo: UserKey, hi: UserKey, maxGrandParentBytes: nat, level: nat)
    requires level < MAX_MEM_COMPACT_LEVEL
  {
    !Hit(v[level + 1], lo, hi) && TotalSize(Meeting(v[level + 2], lo, hi)) <= maxGrandParentBytes
  }

  method CheckPush(v: Version, lo: UserKey, hi: UserKey, maxGrandParentBytes: nat, level: nat) returns (r: bool)
    requires lo <= hi && level < MAX_MEM_COMPACT_LEVEL && Disjoint(v[level + 1])
    ensures r == MayPushBelow(v, lo, hi, maxGrandParentBytes, level)
  {
    var hit := SomeFileOverlapsRange(true, v[level + 1], lo, hi);
    if hit {
      return false;
    }
    var overlaps, a, b := GetOverlappingInputs(level + 2, v[level + 2], lo, hi);
    var sum := TotalFileSize(overlaps);
    return sum <= maxGrandParentBytes;
  }

  /** Push the new table down while it meets nothing in the next level and little in the one after. */
  method PickLevelForMemTableOutput(v: Version, lo: UserKey, hi: UserKey, maxGrandParentBytes: nat) returns (level: nat)
    requires lo <= hi && forall l :: 1 <= l < NUM_LEVELS ==> Disjoint(v[l])
    ensures MemTableLevel(v, lo, hi, maxGrandParentBytes, level)
  {
    level := 0;
    var hit := SomeFileOverlapsRange(false, v[0], lo, hi);
    if !hit {
      var push := CheckPush(v, lo, hi, maxGrandParentBytes, 0);
      while push
        invariant level <= MAX_MEM_COMPACT_LEVEL
        invariant level > 0 ==> MayPushBelow(v, lo, hi, maxGrandParentBytes, 0)
        invariant level > 1 ==> MayPushBelow(v, lo, hi, maxGrandParentBytes, 1)
        invariant level < MAX_MEM_COMPACT_LEVEL ==> push == MayPushBelow(v, lo, hi, maxGrandParentBytes, level)
        invariant level == MAX_MEM_COMPACT_LEVEL ==> !push
        decreases MAX_MEM_COMPACT_LEVEL - level
      {
        level := level + 1;
        push := false;
        if level < MAX_MEM_COMPACT_LEVEL {
          push := CheckPush(v, lo, hi, maxGrandParentBytes, level);
        }
      }
    }
  }

  /** The level is free of overlap all the way down, and the deepest such level the rules allow. */
  ghost predicate MemTableLevel(v: Version, lo: UserKey, hi: UserKey, maxGrandParentBytes: nat, level: nat) {
    && level <= MAX_MEM_COMPACT_LEVEL
    && (level > 0 ==> !Hit(v[0], lo, hi))
    && (level > 0 ==> MayPushBelow(v, lo, hi, maxGrandParentBytes, 0))
    && (level > 1 ==> MayPushBelow(v, lo, hi, maxGrandParentBytes, 1))
    && (level < MAX_MEM_COMPACT_LEVEL ==>
          (level == 0 && Hit(v[0], lo, hi)) || !MayPushBelow(v, lo, hi, maxGrandParentBytes, level))
  }

  lemma MemTableLevelIsClear(v: Version, lo: UserKey, hi: UserKey, maxGrandParentBytes: nat, level: nat, l: nat)
    requires MemTableLevel(v, lo, hi, maxGrandParentBytes, level) && level > 0 && l <= level
    ensures !Hit(v[l], lo, hi)
  {
    assert l > 0 ==> MayPushBelow(v, lo, hi, maxGrandParentBytes, l - 1);
  }

  // ---------------------------------------------------------------------------------------------
  // The inputs of an automatic compaction
  // ---------------------------------------------------------------------------------------------

  /** Merge in0 from "level" with in1 from the level below into new files of the level below. */
  datatype Compaction = Compaction(level: nat, in0: seq<File>, in1: seq<File>)

  /** The files that start a compaction: the chosen one, at level 0 with everything it overlaps. */
  ghost predicate StartsFrom(v: Version, level: nat, chosen: File, base: seq<File>)
    requires level < NUM_LEVELS
  {
    if level == 0 then Overlapping(0, v[0], Lo(chosen), Hi(chosen), base) else base == [chosen]
  }

  /** The outcome of SetupOtherInputs: the next-level files, and more files of this level if that brings in
      no further next-level files and stays below the byte limit. */
  ghost predicate SetUp(v: Version, level: nat, base: seq<File>, limit: nat, c: Compaction)
    requires level + 1 < NUM_LEVELS && base != []
  {
    var parents := Meeting(v[level + 1], MinLo(base), MaxHi(base));
    if parents == [] then c == Compaction(level, base, []) else
      exists wide :: Widened(v, level, base, parents, wide) && Chosen(v, level, base, parents, wide, limit, c)
  }

  ghost predicate Chosen(v: Version, level: nat, base: seq<File>, parents: seq<File>, wide: seq<File>, limit: nat,
      c: Compaction)
    requires level + 1 < NUM_LEVELS
  {
    if Expands(v, level, base, parents, wide, limit)
    then c == Compaction(level, wide, Meeting(v[level + 1], MinLo(wide), MaxHi(wide)))
    else c == Compaction(level, base, parents)
  }

  ghost predicate Widened(v: Version, level: nat, base: seq<File>, parents: seq<File>, wide: seq<File>)
    requires level < NUM_LEVELS && base != []
  {
    Overlapping(level, v[level], MinLo(base + parents), MaxHi(base + parents), wide)
  }

  ghost predicate Expands(v: Version, level: nat, base: seq<File>, parents: seq<File>, wide: seq<File>, limit: nat)
    requires level + 1 < NUM_LEVELS
  {
    && |wide| > |base|
    && TotalSize(parents) + TotalSize(wide) < limit
    && |Meeting(v[level + 1], MinLo(wide), MaxHi(wide))| == |parents|
  }

  ghost predicate Picked(v: Version, level: nat, chosen: File, limit: nat, c: Compaction) {
    && level + 1 < NUM_LEVELS && chosen in v[level]
    && forall k {:trigger Unfold(k)} :: k == IN_PICKS && Unfold(k) ==>
         exists base :: base != [] && StartsFrom(v, level, chosen, base) && SetUp(v, level, base, limit, c)
  }

  lemma RangeInOrder(fs: seq<File>)
    requires fs != []
    ensures MinLo(fs) <= MaxHi(fs)
  {
    RunBounds(fs[0], Smallest(fs[0]));
    assert fs[0] in fs;
  }

  method SetupOtherInputs(v: Version, level: nat, base: seq<File>, limit: nat) returns (c: Compaction)
    requires level + 1 < NUM_LEVELS && base != []
    ensures SetUp(v, level, base, limit, c)
  {
    var smallest, largest := GetRange(base);
    RangeInOrder(base);
    var parents, a, b := GetOverlappingInputs(level + 1, v[level + 1], smallest.key, largest.key);
    if parents == [] {
      c := Compaction(level, base, []);
    } else {
      c := GrowInputs(v, level, base, parents, limit);
    }
  }

  /** Take more files of the level if that needs no more of the next one. */
  method GrowInputs(v: Version, level: nat, base: seq<File>, parents: seq<File>, limit: nat) returns (c: Compaction)
    requires level + 1 < NUM_LEVELS && base != []
    ensures exists wide :: Widened(v, level, base, parents, wide) && Chosen(v, level, base, parents, wide, limit, c)
  {
    var allStart, allLimit := GetRange(base + parents);
    RangeInOrder(base + parents);
    var wide, lo, hi := GetOverlappingInputs(level, v[level], allStart.key, allLimit.key);
    assert Widened(v, level, base, parents, wide);
    var parentSize := TotalFileSize(parents);
    var wideSize := TotalFileSize(wide);
    c := Compaction(level, base, parents);
    if |wide| > |base| && parentSize + wideSize < limit {
      var newStart, newLimit := GetRange(wide);
      RangeInOrder(wide);
      var wideParents, a, b := GetOverlappingInputs(level + 1, v[level + 1], newStart.key, newLimit.key);
      if |wideParents| == |parents| {
        c := Compaction(level, wide, wideParents);
      }
    }
  }

  /** A size compaction takes the first file behind the level's compaction pointer, wrapping around; a seek
      compaction takes the file that was charged.  "chosen" is either. */
  method PickCompaction(v: Version, level: nat, chosen: File, limit: nat) returns (c: Compaction)
    requires level + 1 < NUM_LEVELS && chosen in v[level]
    ensures Picked(v, level, chosen, limit, c)
  {
    var base := [chosen];
    if level == 0 {
      var smallest, largest := GetRange(base);
      RangeInOrder(base);
      ghost var lo, hi;
      base, lo, hi := GetOverlappingInputs(0, v[0], smallest.key, largest.key);
      assert chosen in base;
    }
    c := SetupOtherInputs(v, level, base, limit);
  }

  /** The ranges of the files leave no gap between their ends. */
  ghost predicate Gapless(fs: seq<File>) {
    forall f, g, x :: f in fs && g in fs && Lo(f) <= x <= Hi(g) ==> Covers(fs, x)
  }

  /** r holds exactly the files of fs that meet the range spanned by "span". */
  ghost predicate AllMeeting(fs: seq<File>, span: seq<File>, r: seq<File>)
    requires span != []
  {
    forall f :: f in r <==> f in fs && Meets(f, MinLo(span), MaxHi(span))
  }

  /** What every automatic pick guarantees, whatever file it started from. */
  ghost predicate SoundPick(v: Version, c: Compaction) {
    && c.level + 1 < NUM_LEVELS && c.in0 != []
    && forall k {:trigger Unfold(k)} :: k == IN_PICKS && Unfold(k) ==>
      && (forall f :: f in c.in0 ==> f in v[c.level])
      // the next-level inputs are exactly the files that meet the range of the first inputs
      && AllMeeting(v[c.level + 1], c.in0, c.in1)
      // at level 0 the first inputs are exactly the files that meet their range
      && (c.level == 0 ==> AllMeeting(v[0], c.in0, c.in0))
      && Gapless(c.in0 + c.in1)
  }

  lemma GaplessGrows(A: seq<File>, C: seq<File>, a: UserKey, b: UserKey)
    requires forall x :: a <= x <= b ==> Covers(A, x)
    requires forall f :: f in A ==> f in C
    requires forall f :: f in C ==> Meets(f, a, b)
    ensures Gapless(C)
  {
    forall f, g, x | f in C && g in C && Lo(f) <= x <= Hi(g) ensures Covers(C, x) {
      if a <= x <= b {
        assert Covers(A, x);
      }
    }
  }

  lemma {:induction false} SameMeeting(fs: seq<File>, a: UserKey, b: UserKey, c: UserKey, d: UserKey)
    requires forall f :: f in fs && Meets(f, a, b) ==> Meets(f, c, d)
    ensures |Meeting(fs, a, b)| <= |Meeting(fs, c, d)|
    ensures |Meeting(fs, a, b)| == |Meeting(fs, c, d)| ==> Meeting(fs, a, b) == Meeting(fs, c, d)
  {
    if fs != [] {
      var n := |fs| - 1;
      assert fs == fs[..n] + [fs[n]];
      SameMeeting(fs[..n], a, b, c, d);
    }
  }

  /** A level-0 overlap set is exactly the files that meet its own range, and it fills that range. */
  lemma Level0Overlap(fs: seq<File>, begin: UserKey, end: UserKey, inputs: seq<File>, A: seq<File>, parents: seq<File>)
    requires Overlapping(0, fs, begin, end, inputs) && inputs != []
    requires forall x :: begin <= x <= end ==> Covers(A, x)
    requires forall f :: f in A ==> f in inputs + parents
    requires forall f :: f in parents ==> begin <= Lo(f) && Hi(f) <= end
    ensures AllMeeting(fs, inputs, inputs)
    ensures Gapless(inputs + parents)
  {
    var lo, hi :| LeastClosed(fs, begin, end, lo, hi) && Joined(fs, begin, end, lo, hi)
        && inputs == Meeting(fs, lo, hi);
    forall f | f in fs ensures Meets(f, lo, hi) <==> Meets(f, MinLo(inputs), MaxHi(inputs)) {
      if Meets(f, lo, hi) {
        assert f in inputs;
        RunBounds(f, Smallest(f));
      }
    }
    JoinedByMeeting(fs, begin, end, lo, hi);
    forall f, g, x | f in inputs + parents && g in inputs + parents && Lo(f) <= x <= Hi(g)
      ensures Covers(inputs + parents, x)
    {
      if begin <= x <= end {
        assert Covers(A, x);
      } else {
        assert Covers(inputs, x);
      }
    }
  }

  lemma GaplessFills(fs: seq<File>, x: UserKey)
    requires fs != [] && Gapless(fs) && MinLo(fs) <= x <= MaxHi(fs)
    ensures Covers(fs, x)
  {
  }

  lemma StartIsSound(v: Version, level: nat, chosen: File, base: seq<File>)
    requires level + 1 < NUM_LEVELS && chosen in v[level] && StartsFrom(v, level, chosen, base)
    ensures chosen in base && Gapless(base) && forall f :: f in base ==> f in v[level]
    ensures level == 0 ==> AllMeeting(v[0], base, base)
  {
    RunBounds(chosen, Smallest(chosen));
    if level == 0 {
      forall x | Lo(chosen) <= x <= Hi(chosen) ensures Covers([chosen], x) {
        assert chosen in [chosen];
      }
      Level0Overlap(v[0], Lo(chosen), Hi(chosen), base, [chosen], []);
      assert base + [] == base;
    } else {
      forall f, g, x | f in base && g in base && Lo(f) <= x <= Hi(g) ensures Covers(base, x) {
        assert chosen in base;
      }
    }
  }

  lemma BaseWithParentsIsGapless(base: seq<File>, fs: seq<File>)
    requires base != [] && Gapless(base)
    ensures Gapless(base + Meeting(fs, MinLo(base), MaxHi(base)))
  {
    forall x | MinLo(base) <= x <= MaxHi(base) ensures Covers(base, x) {
      GaplessFills(base, x);
    }
    forall f | f in base ensures Meets(f, MinLo(base), MaxHi(base)) {
      RunBounds(f, Smallest(f));
    }
    GaplessGrows(base, base + Meeting(fs, MinLo(base), MaxHi(base)), MinLo(base), MaxHi(base));
  }

  lemma PlainIsSound(v: Version, level: nat, base: seq<File>)
    requires level + 1 < NUM_LEVELS && base != [] && Gapless(base) && (forall f :: f in base ==> f in v[level])
    requires level == 0 ==> AllMeeting(v[0], base, base)
    ensures SoundPick(v, Compaction(level, base, Meeting(v[level + 1], MinLo(base), MaxHi(base))))
  {
    BaseWithParentsIsGapless(base, v[level + 1]);
  }

  lemma WideIsSound(v: Version, level: nat, base: seq<File>, wide: seq<File>, limit: nat)
    requires level + 1 < NUM_LEVELS && base != [] && Gapless(base) && (forall f :: f in base ==> f in v[level])
    requires Widened(v, level, base, Meeting(v[level + 1], MinLo(base), MaxHi(base)), wide)
    requires Expands(v, level, base, Meeting(v[level + 1], MinLo(base), MaxHi(base)), wide, limit)
    ensures SoundPick(v, Compaction(level, wide, Meeting(v[level + 1], MinLo(wide), MaxHi(wide))))
    ensures forall f :: f in base ==> f in wide
  {
    var parents := Meeting(v[level + 1], MinLo(base), MaxHi(base));
    BaseWithParentsIsGapless(base, v[level + 1]);
    ExpansionIsGapless(v, level, base, parents, wide);
    ExpansionIsSound(v, level, base, wide, parents);
  }

  lemma SetUpIsSound(v: Version, level: nat, base: seq<File>, limit: nat, c: Compaction)
    requires level + 1 < NUM_LEVELS && base != [] && Gapless(base) && (forall f :: f in base ==> f in v[level])
    requires level == 0 ==> AllMeeting(v[0], base, base)
    requires SetUp(v, level, base, limit, c)
    ensures SoundPick(v, c) && c.level == level && forall f :: f in base ==> f in c.in0
  {
    PlainIsSound(v, level, base);
    var parents := Meeting(v[level + 1], MinLo(base), MaxHi(base));
    if parents != [] {
      var wide :| Widened(v, level, base, parents, wide) && Chosen(v, level, base, parents, wide, limit, c);
      if Expands(v, level, base, parents, wide, limit) {
        WideIsSound(v, level, base, wide, limit);
      }
    }
  }

  /** Every automatic pick is sound. */
  lemma PickIsSound(v: Version, level: nat, chosen: File, limit: nat, c: Compaction)
    requires Picked(v, level, chosen, limit, c)
    ensures SoundPick(v, c) && c.level == level && chosen in c.in0
  {
    assert Unfold(IN_PICKS);
    var base :| base != [] && StartsFrom(v, level, chosen, base) && SetUp(v, level, base, limit, c);
    StartIsSound(v, level, chosen, base);
    SetUpIsSound(v, level, base, limit, c);
  }

  lemma ParentsUnchanged(fs: seq<File>, base: seq<File>, wide: seq<File>)
    requires base != [] && wide != [] && forall f :: f in base ==> f in wide
    requires |Meeting(fs, MinLo(wide), MaxHi(wide))| == |Meeting(fs, MinLo(base), MaxHi(base))|
    ensures Meeting(fs, MinLo(wide), MaxHi(wide)) == Meeting(fs, MinLo(base), MaxHi(base))
  {
    assert MinLo(wide) <= MinLo(base) && MaxHi(base) <= MaxHi(wide);
    SameMeeting(fs, MinLo(base), MaxHi(base), MinLo(wide), MaxHi(wide));
  }

  lemma ExpansionIsGapless(v: Version, level: nat, base: seq<File>, parents: seq<File>, wide: seq<File>)
    requires level < NUM_LEVELS && base != [] && (forall f :: f in base ==> f in v[level])
    requires Gapless(base + parents) && wide != [] && Widened(v, level, base, parents, wide)
    ensures Gapless(wide + parents)
    ensures forall f :: f in base ==> f in wide
    ensures forall f :: f in wide ==> f in v[level]
    ensures level == 0 ==> AllMeeting(v[0], wide, wide)
  {
    var A, start, end := base + parents, MinLo(base + parents), MaxHi(base + parents);
    forall f | f in A ensures Meets(f, start, end) && start <= Lo(f) && Hi(f) <= end {
      RunBounds(f, Smallest(f));
    }
    forall x | start <= x <= end ensures Covers(A, x) {
      GaplessFills(A, x);
    }
    assert forall f :: f in base ==> f in A && f in wide;
    assert forall f :: f in parents ==> f in A;
    if level == 0 {
      Level0Overlap(v[0], start, end, wide, A, parents);
    } else {
      GaplessGrows(A, wide + parents, start, end);
    }
  }

  lemma ExpansionIsSound(v: Version, level: nat, base: seq<File>, wide: seq<File>, parents: seq<File>)
    requires level + 1 < NUM_LEVELS && base != [] && wide != []
    requires forall f :: f in base ==> f in wide
    requires forall f :: f in wide ==> f in v[level]
    requires level == 0 ==> AllMeeting(v[0], wide, wide)
    requires parents == Meeting(v[level + 1], MinLo(base), MaxHi(base)) && Gapless(wide + parents)
    requires |Meeting(v[level + 1], MinLo(wide), MaxHi(wide))| == |parents|
    ensures SoundPick(v, Compaction(level, wide, Meeting(v[level + 1], MinLo(wide), MaxHi(wide))))
  {
    ParentsUnchanged(v[level + 1], base, wide);
  }
}
