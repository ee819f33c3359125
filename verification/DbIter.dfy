/** The iterator users see: a cursor over user keys, driven by a cursor over versioned entries (db/db_iter.cc). */
module DbIter {
  import opened Wrappers
  import opened DbFormat
  import opened Versions
  import opened Engine

  /** run[i] is what a reader at snapshot s is told about its user key. */
  predicate Shown(run: Run, s: SeqNo, i: nat)
    requires i < |run|
  {
    run[i].op.Value? && run[i].sn <= s && forall j :: 0 <= j < i && run[j].key == run[i].key ==> run[j].sn > s
  }

  function PairOf(e: Entry): (UserKey, UserValue)
    requires e.op.Value?
  {
    (e.key, e.op.data)
  }

  /** The live (key, value) pairs among the first n entries. */
  ghost function Pairs(run: Run, s: SeqNo, n: nat): (r: seq<(UserKey, UserValue)>)
    requires n <= |run|
    ensures forall p :: p in r <==> exists i :: 0 <= i < n && Shown(run, s, i) && PairOf(run[i]) == p
  {
    if n == 0 then [] else Pairs(run, s, n - 1) + (if Shown(run, s, n - 1) then [PairOf(run[n - 1])] else [])
  }

  /** The list a cursor at snapshot s moves over. */
  ghost function Live(run: Run, s: SeqNo): seq<(UserKey, UserValue)> {
    Pairs(run, s, |run|)
  }

  lemma {:induction false} PairsGrow(run: Run, s: SeqNo, m: nat, n: nat)
    requires m <= n <= |run|
    ensures |Pairs(run, s, m)| <= |Pairs(run, s, n)| && Pairs(run, s, n)[..|Pairs(run, s, m)|] == Pairs(run, s, m)
    decreases n
  {
    if m < n {
      PairsGrow(run, s, m, n - 1);
    }
  }

  /** From one shown entry to the next, or to the end, the list grows by one. */
  lemma StepOne(run: Run, s: SeqNo, i: nat, j: nat)
    requires i < j <= |run| && Shown(run, s, i) && forall k :: i < k < j ==> !Shown(run, s, k)
    ensures |Pairs(run, s, j)| == |Pairs(run, s, i)| + 1
  {
    NoneShown(run, s, i + 1, j);
  }

  /** A shown entry sits in the list right after the pairs of the entries before it. */
  lemma PairPlace(run: Run, s: SeqNo, i: nat)
    requires i < |run| && Shown(run, s, i)
    ensures |Pairs(run, s, i)| < |Live(run, s)| && Live(run, s)[|Pairs(run, s, i)|] == PairOf(run[i])
  {
    PairsGrow(run, s, i + 1, |run|);
    assert Pairs(run, s, i + 1)[|Pairs(run, s, i)|] == PairOf(run[i]);
  }

  lemma {:induction false} NoneShown(run: Run, s: SeqNo, m: nat, n: nat)
    requires m <= n <= |run| && forall i :: m <= i < n ==> !Shown(run, s, i)
    ensures Pairs(run, s, n) == Pairs(run, s, m)
    decreases n
  {
    if m < n {
      NoneShown(run, s, m, n - 1);
    }
  }

  lemma ShownOncePerKey(run: Run, s: SeqNo, i: nat, j: nat)
    requires Sorted(run) && i < j < |run| && Shown(run, s, i) && Shown(run, s, j)
    ensures run[i].key < run[j].key
  {
    assert Before(run[i], run[j]);
  }

  /** The list is strictly ascending and says exactly what reading every key at s would say. */
  lemma LiveIsTheMap(run: Run, s: SeqNo)
    requires Sorted(run)
    ensures forall p, q :: 0 <= p < q < |Live(run, s)| ==> Live(run, s)[p].0 < Live(run, s)[q].0
    ensures forall u, v :: (u, v) in Live(run, s) <==> Read(Entries(run), u, s) == Some(v)
  {
    PairsAscend(run, s, |run|);
    forall u, v ensures (u, v) in Live(run, s) <==> Read(Entries(run), u, s) == Some(v) {
      LiveIffRead(run, s, u, v);
    }
  }

  lemma {:induction false} PairsAscend(run: Run, s: SeqNo, n: nat)
    requires Sorted(run) && n <= |run|
    ensures forall p, q :: 0 <= p < q < |Pairs(run, s, n)| ==> Pairs(run, s, n)[p].0 < Pairs(run, s, n)[q].0
  {
    if n > 0 {
      PairsAscend(run, s, n - 1);
      var before := Pairs(run, s, n - 1);
      if Shown(run, s, n - 1) {
        forall p | 0 <= p < |before| ensures before[p].0 < run[n - 1].key {
          assert before[p] in before;
          var i :| 0 <= i < n - 1 && Shown(run, s, i) && PairOf(run[i]) == before[p];
          ShownOncePerKey(run, s, i, n - 1);
        }
      }
    }
  }

  lemma LiveIffRead(run: Run, s: SeqNo, u: UserKey, v: UserValue)
    requires Sorted(run)
    ensures (u, v) in Live(run, s) <==> Read(Entries(run), u, s) == Some(v)
  {
    SeekGetIsLatest(run, u, s);
    var i := SeekIndex(run, u, s);
    if (u, v) in Live(run, s) {
      var k :| 0 <= k < |run| && Shown(run, s, k) && PairOf(run[k]) == (u, v);
      assert i <= k;
      assert i < k ==> Before(run[i], run[k]);
    }
    if Read(Entries(run), u, s) == Some(v) {
      assert Shown(run, s, i) && PairOf(run[i]) == (u, v);
    }
  }

  // ----- what FindNextUserEntry has learned before entry n -----

  predicate Skips(skipping: bool, skip: Option<UserKey>, u: UserKey) {
    skipping && skip.Some? && u <= skip.value
  }

  /** Some entry before n that the snapshot sees has user key u. */
  ghost predicate Seen(run: Run, s: SeqNo, n: nat, u: UserKey) {
    exists j :: 0 <= j < n && j < |run| && run[j].sn <= s && run[j].key == u
  }

  /** From n on, the keys now skipped are those skipped at the start and those seen already. */
  ghost predicate SkipsRight(run: Run, s: SeqNo, n: nat, skipping0: bool, skip0: Option<UserKey>, skipping: bool,
      skip: Option<UserKey>) {
    forall k :: n <= k < |run| && run[k].sn <= s ==>
      (Skips(skipping, skip, run[k].key) <==> Skips(skipping0, skip0, run[k].key) || Seen(run, s, n, run[k].key))
  }

  ghost predicate SkipIsBehind(run: Run, s: SeqNo, n: nat, skipping: bool, skip: Option<UserKey>) {
    skipping ==> skip.Some? && forall j :: n <= j < |run| && run[j].sn <= s ==> skip.value <= run[j].key
  }

  lemma SkipsRightStep(run: Run, s: SeqNo, n: nat, skipping0: bool, skip0: Option<UserKey>, skipping: bool,
      skip: Option<UserKey>)
    requires n < |run| && SkipsRight(run, s, n, skipping0, skip0, skipping, skip)
    requires run[n].sn <= s ==> Skips(skipping, skip, run[n].key)
    ensures SkipsRight(run, s, n + 1, skipping0, skip0, skipping, skip)
  {
    forall k | n + 1 <= k < |run| && run[k].sn <= s
      ensures Skips(skipping, skip, run[k].key) <==>
          Skips(skipping0, skip0, run[k].key) || Seen(run, s, n + 1, run[k].key)
    {
      if Seen(run, s, n + 1, run[k].key) && !Seen(run, s, n, run[k].key) {
        assert run[n].key == run[k].key;
      }
    }
  }

  lemma SkipsRightDeletion(run: Run, s: SeqNo, n: nat, skipping0: bool, skip0: Option<UserKey>)
    requires Sorted(run) && n < |run| && run[n].sn <= s && SkipIsBehind(run, s, n, skipping0, skip0)
    ensures SkipsRight(run, s, n + 1, skipping0, skip0, true, Some(run[n].key))
  {
    forall k | n + 1 <= k < |run| && run[k].sn <= s
      ensures Skips(true, Some(run[n].key), run[k].key) <==>
          Skips(skipping0, skip0, run[k].key) || Seen(run, s, n + 1, run[k].key)
    {
      assert Before(run[n], run[k]);
      if Seen(run, s, n + 1, run[k].key) {
        var j :| 0 <= j < n + 1 && run[j].sn <= s && run[j].key == run[k].key;
        assert j < n ==> Before(run[j], run[n]);
      }
    }
  }

  /** What holds of a forward scan from p0 when it has come to n. */
  ghost predicate Scan(run: Run, s: SeqNo, p0: nat, n: nat, skipping0: bool, skip0: Option<UserKey>, skipping: bool,
      skip: Option<UserKey>) {
    forall k {:trigger Unfold(k)} :: k == IN_SCANS && Unfold(k) ==>
      && SkipsRight(run, s, n, skipping0, skip0, skipping, skip) && SkipIsBehind(run, s, n, skipping0, skip0)
      && Sorted(run) && n <= |run|
      && forall j :: p0 <= j < n && Shown(run, s, j) ==> Skips(skipping0, skip0, run[j].key)
  }

  /** The scan goes past entry n: it is invisible, or its key is skipped. */
  lemma ScanPasses(run: Run, s: SeqNo, p0: nat, n: nat, skipping0: bool, skip0: Option<UserKey>, skipping: bool,
      skip: Option<UserKey>)
    requires n < |run| && Scan(run, s, p0, n, skipping0, skip0, skipping, skip)
    requires run[n].sn <= s ==> Skips(skipping, skip, run[n].key)
    ensures Scan(run, s, p0, n + 1, skipping0, skip0, skipping, skip)
  {
    assert Unfold(IN_SCANS);
    SkipsRightStep(run, s, n, skipping0, skip0, skipping, skip);
  }

  lemma ScanDeletes(run: Run, s: SeqNo, p0: nat, n: nat, skipping0: bool, skip0: Option<UserKey>, skipping: bool,
      skip: Option<UserKey>)
    requires n < |run| && Scan(run, s, p0, n, skipping0, skip0, skipping, skip)
    requires run[n].sn <= s && run[n].op.Deletion?
    ensures Scan(run, s, p0, n + 1, skipping0, skip0, true, Some(run[n].key))
  {
    assert Unfold(IN_SCANS);
    SkipsRightDeletion(run, s, n, skipping0, skip0);
  }

  lemma ScanStops(run: Run, s: SeqNo, p0: nat, n: nat, skipping0: bool, skip0: Option<UserKey>, skipping: bool,
      skip: Option<UserKey>)
    requires p0 <= n <= |run| && Scan(run, s, p0, n, skipping0, skip0, skipping, skip)
    ensures n < |run| && run[n].sn <= s && run[n].op.Value? && !Skips(skipping, skip, run[n].key) ==>
      Shown(run, s, n) && !Skips(skipping0, skip0, run[n].key)
    ensures forall j :: p0 <= j < n && Shown(run, s, j) ==> Skips(skipping0, skip0, run[j].key)
  {
    assert Unfold(IN_SCANS);
  }

  // ----- what FindPrevUserEntry has learned of the entries from n up to end -----

  ghost predicate NoneVisible(run: Run, s: SeqNo, a: nat, b: nat) {
    forall j :: a <= j < b && j < |run| ==> run[j].sn > s
  }

  /** Only a, the newest visible entry met so far, can still turn out to be shown. */
  ghost predicate BackScan(run: Run, s: SeqNo, n: nat, end: nat, a: Option<nat>) {
    forall k {:trigger Unfold(k)} :: k == IN_SCANS && Unfold(k) ==>
      && n <= end <= |run| && Sorted(run)
      && (a.Some? ==>
          n <= a.value < end && run[a.value].sn <= s && run[a.value].op.Value? && NoneVisible(run, s, n, a.value))
      && forall j :: n <= j < end && Shown(run, s, j) ==> a == Some(j)
  }

  lemma BackScanStep(run: Run, s: SeqNo, n: nat, end: nat, a: Option<nat>)
    requires 0 < n <= end <= |run| && BackScan(run, s, n, end, a) && Sorted(run)
    requires a.Some? ==> a.value < |run|
    ensures run[n - 1].sn > s ==> BackScan(run, s, n - 1, end, a)
    ensures run[n - 1].sn <= s && (a.Some? ==> run[n - 1].key >= run[a.value].key) ==>
      BackScan(run, s, n - 1, end, if run[n - 1].op.Deletion? then None else Some(n - 1))
  {
    assert Unfold(IN_SCANS);
    assert a.Some? ==> Before(run[n - 1], run[a.value]);
  }

  /** The scan ends on the last shown entry before end. */
  lemma BackScanStops(run: Run, s: SeqNo, n: nat, end: nat, a: nat)
    requires BackScan(run, s, n, end, Some(a)) && a < |run|
    requires n > 0 ==> n - 1 < |run| && run[n - 1].sn <= s && run[n - 1].key < run[a].key
    ensures n <= a < end <= |run| && Shown(run, s, a) && NoneVisible(run, s, n, a)
    ensures forall j :: a < j < end ==> !Shown(run, s, j)
  {
    assert Unfold(IN_SCANS);
    forall j | 0 <= j < a && run[j].key == run[a].key ensures run[j].sn > s {
      assert n > 0 && j < n - 1 ==> Before(run[j], run[n - 1]);
    }
  }

  datatype Direction = Forward | Reverse

  class DBIter {
    // the internal iterator: the entries it runs over and where it stands, |run| when it is not valid
    const run: Run
    var pos: nat
    const sequence: SeqNo
    var savedKey: Option<UserKey>
    var savedValue: UserValue
    var direction: Direction
    var valid: bool
    ghost var at: nat   // index of the shown entry the cursor stands on

    ghost predicate Ok()
      reads this
    {
      Sorted(run) && pos <= |run| && (valid ==> at < |run| && Shown(run, sequence, at) && StandsOn())
    }

    /** Moving forward, the internal iterator is at the entry itself; moving backwards it is before it, with
        only entries newer than the snapshot in between. */
    ghost predicate StandsOn()
      requires at < |run| && Shown(run, sequence, at) && pos <= |run|
      reads this
    {
      match direction
      case Forward => pos == at
      case Reverse =>
        && savedKey == Some(run[at].key) && savedValue == run[at].op.data
        && Start(pos) <= at && NoneVisible(run, sequence, Start(pos), at)
        && (pos < |run| ==> run[pos].key < run[at].key)
    }

    /** Where iter_->Next() goes, or SeekToFirst() when the iterator ran off the front. */
    function Start(p: nat): nat {
      if p < |run| then p + 1 else 0
    }

    /** Where iter_->Prev() goes. */
    function Back(p: nat): nat {
      if p > 0 then p - 1 else |run|
    }

    /** The cursor position in the list of live pairs. */
    ghost function At(): Option<nat>
      requires Ok()
      reads this
    {
      if valid then Some(|Pairs(run, sequence, at)|) else None
    }

    constructor (run: Run, sequence: SeqNo)
      requires Sorted(run)
      ensures Ok() && At() == None && this.run == run && this.sequence == sequence
    {
      this.run, this.sequence := run, sequence;
      pos, savedKey, savedValue, direction, valid, at := |run|, None, [], Forward, false, 0;
    }

    method Key() returns (k: UserKey)
      requires Ok() && valid
      ensures At().value < |Live(run, sequence)| && k == Live(run, sequence)[At().value].0
    {
      PairPlace(run, sequence, at);
      k := if direction == Forward then run[pos].key else savedKey.value;
    }

    method Value() returns (v: UserValue)
      requires Ok() && valid
      ensures At().value < |Live(run, sequence)| && v == Live(run, sequence)[At().value].1
    {
      PairPlace(run, sequence, at);
      v := if direction == Forward then run[pos].op.data else savedValue;
    }

    /** The cursor stands on the first shown entry from p0 on that is not to be skipped. */
    ghost predicate IsNext(p0: nat, skipping: bool, skip: Option<UserKey>)
      reads this
    {
      var end := if valid then at else |run|;
      && (valid ==> p0 <= at < |run| && !Skips(skipping, skip, run[at].key))
      && forall j :: p0 <= j < end && j < |run| && Shown(run, sequence, j) ==> Skips(skipping, skip, run[j].key)
    }

    method FindNextUserEntry(skipping0: bool)
      requires Sorted(run) && pos < |run| && direction == Forward
      requires SkipsRight(run, sequence, pos, skipping0, savedKey, skipping0, savedKey)
      requires SkipIsBehind(run, sequence, pos, skipping0, savedKey) && (skipping0 ==> savedKey.Some?)
      modifies this
      ensures Ok() && direction == Forward && IsNext(old(pos), skipping0, old(savedKey))
    {
      ghost var p0, skip0 := pos, savedKey;
      var skipping := skipping0;
      valid := false;
      assert Scan(run, sequence, p0, p0, skipping0, skip0, skipping0, skip0) by { assert Unfold(IN_SCANS); }
      while pos < |run|
        invariant !valid && direction == Forward && p0 <= pos <= |run|
        invariant Scan(run, sequence, p0, pos, skipping0, skip0, skipping, savedKey)
        invariant skipping ==> savedKey.Some?
        decreases |run| - pos
      {
        var ikey := run[pos];
        if ikey.sn > sequence || (ikey.op.Value? && skipping && ikey.key <= savedKey.value) {
          ScanPasses(run, sequence, p0, pos, skipping0, skip0, skipping, savedKey);
        } else if ikey.op.Deletion? {
          ScanDeletes(run, sequence, p0, pos, skipping0, skip0, skipping, savedKey);
          savedKey, skipping := Some(ikey.key), true;
        } else {
          ScanStops(run, sequence, p0, pos, skipping0, skip0, skipping, savedKey);
          valid, savedKey, at := true, None, pos;
          return;
        }
        pos := pos + 1;
      }
      ScanStops(run, sequence, p0, pos, skipping0, skip0, skipping, savedKey);
      savedKey := None;
    }

    /** The cursor stands on the last shown entry before end. */
    ghost predicate IsPrev(end: nat)
      reads this
    {
      && (valid ==> at < end)
      && forall j :: (if valid then at + 1 else 0) <= j < end && j < |run| ==> !Shown(run, sequence, j)
    }

    method FindPrevUserEntry()
      requires Sorted(run) && pos <= |run| && direction == Reverse
      modifies this
      ensures Ok() && IsPrev(old(Start(pos)))
    {
      ghost var end := Start(pos);
      ghost var a: Option<nat> := None;
      var isValue := false;
      assert BackScan(run, sequence, end, end, None) by { assert Unfold(IN_SCANS); }
      while pos < |run|
        invariant pos <= |run| && direction == Reverse && Start(pos) <= end
        invariant BackScan(run, sequence, Start(pos), end, a)
        invariant isValue == a.Some?
        invariant isValue ==>
            a.value < |run| && savedKey == Some(run[a.value].key) && run[a.value].op.Value?
            && savedValue == run[a.value].op.data
        decreases Start(pos)
      {
        var ikey := run[pos];
        BackScanStep(run, sequence, pos + 1, end, a);
        if ikey.sn <= sequence {
          if isValue && ikey.key < savedKey.value {
            break;
          }
          isValue := ikey.op.Value?;
          if isValue {
            savedKey, savedValue, a := Some(ikey.key), ikey.op.data, Some(pos);
          } else {
            savedKey, savedValue, a := None, [], None;
          }
        }
        pos := Back(pos);
      }
      if isValue {
        BackScanStops(run, sequence, Start(pos), end, a.value);
        valid, at := true, a.value;
      } else {
        assert Unfold(IN_SCANS);
        valid, savedKey, savedValue, direction := false, None, [], Forward;
      }
    }

    method Seek(target: UserKey)
      requires Ok()
      modifies this
      ensures Ok() && (At().Some? ==> At().value < |Live(run, sequence)| && Live(run, sequence)[At().value].0 >= target)
      ensures forall q :: 0 <= q < |Live(run, sequence)| && (At().Some? ==> q < At().value) ==>
          Live(run, sequence)[q].0 < target
    {
      direction, savedValue, savedKey := Forward, [], None;
      pos := SeekIndex(run, target, sequence);
      valid := false;
      ghost var p0 := pos;
      if pos < |run| {
        FindNextUserEntry(false);
      }
      SoughtRight(p0, target);
    }

    method SeekToFirst()
      requires Ok()
      modifies this
      ensures Ok() && At() == if Live(run, sequence) == [] then None else Some(0)
    {
      direction, savedValue, pos, valid := Forward, [], 0, false;
      if pos < |run| {
        FindNextUserEntry(false);
      }
      NoneShown(run, sequence, 0, if valid then at else |run|);
      if valid {
        PairPlace(run, sequence, at);
      }
    }

    method SeekToLast()
      requires Ok()
      modifies this
      ensures Ok() && At() == if Live(run, sequence) == [] then None else Some(|Live(run, sequence)| - 1)
    {
      direction, savedValue := Reverse, [];
      pos := Back(|run|);
      FindPrevUserEntry();
      CountBack(|run|);
    }

    method Next()
      requires Ok() && valid
      modifies this
      ensures Ok() && At() == if old(At()).value + 1 < |Live(run, sequence)| then Some(old(At()).value + 1) else None
    {
      ghost var from := at;
      if direction == Reverse {
        direction := Forward;
        pos := Start(pos);
        assert pos < |run|;   // the cursor is never past the end here
      } else {
        savedKey := Some(run[pos].key);
      }
      ReadyToSkip(run, sequence, pos, from);
      FindNextUserEntry(true);
      ForwardByOne(from);
    }

    method Prev()
      requires Ok() && valid
      modifies this
      ensures Ok() && At() == if old(At()).value > 0 then Some(old(At()).value - 1) else None
    {
      ghost var from := at;
      if direction == Forward {
        savedKey := Some(run[pos].key);
        while true
          invariant pos < |run| && pos <= from && valid && direction == Forward && at == from
          invariant savedKey == Some(run[from].key) && run[pos].key == run[from].key
          decreases pos
        {
          pos := Back(pos);
          if pos == |run| {
            valid, savedKey, savedValue := false, None, [];
            NoneShown(run, sequence, 0, from);
            return;
          }
          if run[pos].key < savedKey.value {
            break;
          }
        }
        direction := Reverse;
      }
      NoneShown(run, sequence, Start(pos), from);
      ghost var end := Start(pos);
      FindPrevUserEntry();
      CountBack(end);
    }

    lemma SoughtRight(p0: nat, target: UserKey)
      requires Ok() && p0 == SeekIndex(run, target, sequence) && IsNext(p0, false, None)
      ensures At().Some? ==> At().value < |Live(run, sequence)| && Live(run, sequence)[At().value].0 >= target
      ensures forall q :: 0 <= q < |Live(run, sequence)| && (At().Some? ==> q < At().value) ==>
          Live(run, sequence)[q].0 < target
    {
      var end := if valid then at else |run|;
      if valid {
        PairPlace(run, sequence, at);
        assert p0 < at ==> Before(run[p0], run[at]);
      }
      PairsGrow(run, sequence, end, |run|);
      var before := Pairs(run, sequence, end);
      forall q | 0 <= q < |before| ensures before[q].0 < target {
        assert before[q] in before;
        var i :| 0 <= i < end && Shown(run, sequence, i) && PairOf(run[i]) == before[q];
        assert i < p0;
      }
    }

    lemma CountBack(end: nat)
      requires Ok() && IsPrev(end) && end <= |run|
      ensures At() == if Pairs(run, sequence, end) == [] then None else Some(|Pairs(run, sequence, end)| - 1)
    {
      if valid {
        StepOne(run, sequence, at, end);
      } else {
        NoneShown(run, sequence, 0, end);
      }
    }

    lemma ForwardByOne(from: nat)
      requires Ok() && from < |run| && Shown(run, sequence, from)
      requires exists p0 :: 0 <= p0 <= from && IsNext(p0, true, Some(run[from].key))
      ensures At() == if |Pairs(run, sequence, from)| + 1 < |Live(run, sequence)|
          then Some(|Pairs(run, sequence, from)| + 1) else None
    {
      var end := if valid then at else |run|;
      forall k | from < k < end ensures !Shown(run, sequence, k) {
        if Shown(run, sequence, k) {
          ShownOncePerKey(run, sequence, from, k);
        }
      }
      if valid {
        assert at > from by {
          assert at < from ==> Before(run[at], run[from]);
        }
        PairPlace(run, sequence, at);
      }
      StepOne(run, sequence, from, end);
    }
  }

  lemma ReadyToSkip(run: Run, s: SeqNo, pos: nat, from: nat)
    requires Sorted(run) && pos <= from < |run| && Shown(run, s, from)
    requires NoneVisible(run, s, pos, from) && (pos > 0 && pos < from ==> run[pos - 1].key < run[from].key)
    ensures SkipsRight(run, s, pos, true, Some(run[from].key), true, Some(run[from].key))
    ensures SkipIsBehind(run, s, pos, true, Some(run[from].key))
  {
    forall k | pos <= k < |run| && run[k].sn <= s ensures run[from].key <= run[k].key {
      assert from < k ==> Before(run[from], run[k]);
    }
    forall j | 0 <= j < pos ensures j < from ==> Before(run[j], run[from]) {}
  }

  /** Iterating over the memtables and the files of a version at snapshot s lists the multi-version map at s. */
  lemma IterationShowsHistory(st: State, run: Run, s: SeqNo)
    requires Inv(st) && s >= st.floor
    requires Sorted(run) && Entries(run) == MemEntries(st) + (ImmEntries(st) + Tables(st.version))
    ensures forall u, v :: (u, v) in Live(run, s) <==> Read(History(st), u, s) == Some(v)
  {
    assert Unfold(IN_ENGINE);
    HistoryIsCoherent(st);
    CoherentSubset(ImmEntries(st) + Tables(st.version), ImmEntries(st) + st.flushed);
    CoherentSubset(Entries(run), History(st));
    AgreeUnderOverlay(ImmEntries(st), Tables(st.version), st.flushed, st.floor);
    AgreeUnderOverlay(MemEntries(st), ImmEntries(st) + Tables(st.version), ImmEntries(st) + st.flushed, st.floor);
    LiveIsTheMap(run, s);
    forall u ensures Read(Entries(run), u, s) == Read(History(st), u, s) {}
  }
}
