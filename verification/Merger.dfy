/** One cursor over several sorted lists (table/merger.cc). */
module Merger {
  import opened Wrappers

  /** A key, as a place in the comparator's order, with its value. */
  datatype Item = Item(key: real, value: seq<int>)

  ghost predicate Ascending(s: seq<Item>) {
    forall i, j :: 0 <= i < j < |s| ==> s[i].key < s[j].key
  }

  /** Each child is sorted, no key is in two children. */
  ghost predicate ListsOk(lists: seq<seq<Item>>) {
    && (forall j :: 0 <= j < |lists| ==> Ascending(lists[j]))
    && forall i, j, k, l ::
        0 <= i < |lists| && 0 <= j < |lists| && i != j && 0 <= k < |lists[i]| && 0 <= l < |lists[j]| ==>
         lists[i][k].key != lists[j][l].key
  }

  ghost predicate Listed(lists: seq<seq<Item>>, x: Item) {
    exists j :: 0 <= j < |lists| && x in lists[j]
  }

  /** merged is the sorted list of all items. */
  ghost predicate IsMerge(merged: seq<Item>, lists: seq<seq<Item>>) {
    Ascending(merged) && forall x :: x in merged <==> Listed(lists, x)
  }

  /** x comes before merged[m]. */
  predicate Before(merged: seq<Item>, m: nat, x: Item)
    requires m <= |merged|
  {
    m == |merged| || x.key < merged[m].key
  }

  /** Where a child stands, going forward: at its first item that does not come before merged[m]. */
  ghost predicate CutAt(list: seq<Item>, p: nat, merged: seq<Item>, m: nat)
    requires m <= |merged|
  {
    p <= |list| && forall k :: 0 <= k < |list| ==> (k < p <==> Before(merged, m, list[k]))
  }

  /** Going backwards: at its last item that comes before merged[m], or nowhere. */
  ghost predicate CutBack(list: seq<Item>, p: nat, merged: seq<Item>, m: nat)
    requires m <= |merged|
  {
    p <= |list| && forall k :: 0 <= k < |list| ==> (p < |list| && k <= p <==> Before(merged, m, list[k]))
  }

  /** A child that is not Valid() stands at |list|. */
  function Back(p: nat, list: seq<Item>): nat {
    if p > 0 then p - 1 else |list|
  }

  /** The first item with a key at or after the target. */
  function SeekIn(list: seq<Item>, target: real): (p: nat)
    ensures p <= |list| && (forall k :: 0 <= k < p ==> list[k].key < target) && (p < |list| ==> list[p].key >= target)
  {
    if list == [] || list[0].key >= target then 0 else 1 + SeekIn(list[1..], target)
  }

  ghost predicate AllCut(lists: seq<seq<Item>>, pos: seq<nat>, merged: seq<Item>, m: nat)
    requires |pos| == |lists| && m <= |merged|
  {
    forall j {:trigger CutAt(lists[j], pos[j], merged, m)} :: 0 <= j < |lists| ==> CutAt(lists[j], pos[j], merged, m)
  }

  ghost predicate AllCutBack(lists: seq<seq<Item>>, pos: seq<nat>, merged: seq<Item>, m: nat)
    requires |pos| == |lists| && m <= |merged|
  {
    forall j {:trigger CutBack(lists[j], pos[j], merged, m)} :: 0 <= j < |lists| ==>
        CutBack(lists[j], pos[j], merged, m)
  }

  /** c is a valid child with the smallest key, or there is none. */
  ghost predicate IsSmallest(lists: seq<seq<Item>>, pos: seq<nat>, n: nat, c: Option<nat>)
    requires |pos| == |lists| && n <= |lists|
  {
    match c
    case None => forall j :: 0 <= j < n ==> pos[j] >= |lists[j]|
    case Some(s) => s < n && pos[s] < |lists[s]| && forall j :: 0 <= j < n && pos[j] < |lists[j]| ==>
        lists[s][pos[s]].key <= lists[j][pos[j]].key
  }

  ghost predicate IsLargest(lists: seq<seq<Item>>, pos: seq<nat>, n: nat, c: Option<nat>)
    requires |pos| == |lists| && n <= |lists|
  {
    match c
    case None => forall j :: n <= j < |lists| ==> pos[j] >= |lists[j]|
    case Some(s) => n <= s < |lists| && pos[s] < |lists[s]| && forall j :: n <= j < |lists| && pos[j] < |lists[j]| ==>
        lists[s][pos[s]].key >= lists[j][pos[j]].key
  }

  lemma SmallestIsNext(lists: seq<seq<Item>>, pos: seq<nat>, merged: seq<Item>, m: nat, c: Option<nat>)
    requires ListsOk(lists) && IsMerge(merged, lists) && |pos| == |lists| && m <= |merged|
    requires AllCut(lists, pos, merged, m) && IsSmallest(lists, pos, |lists|, c)
    ensures c.None? <==> m == |merged|
    ensures c.Some? ==> lists[c.value][pos[c.value]] == merged[m]
  {
    if m < |merged| {
      assert merged[m] in merged && Listed(lists, merged[m]);
      var j :| 0 <= j < |lists| && merged[m] in lists[j];
      var k :| 0 <= k < |lists[j]| && lists[j][k] == merged[m];
      assert CutAt(lists[j], pos[j], merged, m);
      assert pos[j] <= k;
      SameItem(lists, pos, merged, m, c.value, j, k);
    } else {
      forall j | 0 <= j < |lists| ensures pos[j] == |lists[j]| {
        assert CutAt(lists[j], pos[j], merged, m);
      }
    }
  }

  lemma SameItem(lists: seq<seq<Item>>, pos: seq<nat>, merged: seq<Item>, m: nat, s: nat, j: nat, k: nat)
    requires ListsOk(lists) && IsMerge(merged, lists) && |pos| == |lists| && m < |merged|
    requires AllCut(lists, pos, merged, m) && IsSmallest(lists, pos, |lists|, Some(s))
    requires j < |lists| && pos[j] <= k < |lists[j]| && lists[j][k] == merged[m]
    ensures lists[s][pos[s]] == merged[m]
  {
    var x := lists[s][pos[s]];
    assert CutAt(lists[s], pos[s], merged, m);
    assert x.key >= merged[m].key;
    assert Ascending(lists[j]) && x.key <= lists[j][pos[j]].key <= lists[j][k].key;
    assert Listed(lists, x) && x in merged;
    var i :| 0 <= i < |merged| && merged[i] == x;
  }

  lemma LargestIsPrev(lists: seq<seq<Item>>, pos: seq<nat>, merged: seq<Item>, m: nat, c: Option<nat>)
    requires ListsOk(lists) && IsMerge(merged, lists) && |pos| == |lists| && m <= |merged|
    requires AllCutBack(lists, pos, merged, m) && IsLargest(lists, pos, 0, c)
    ensures c.None? <==> m == 0
    ensures c.Some? ==> lists[c.value][pos[c.value]] == merged[m - 1]
  {
    if m > 0 {
      assert merged[m - 1] in merged && Listed(lists, merged[m - 1]);
      var j :| 0 <= j < |lists| && merged[m - 1] in lists[j];
      var k :| 0 <= k < |lists[j]| && lists[j][k] == merged[m - 1];
      assert CutBack(lists[j], pos[j], merged, m);
      assert Before(merged, m, lists[j][k]);
      SameItemBack(lists, pos, merged, m, c.value, j, k);
    } else {
      forall j | 0 <= j < |lists| ensures pos[j] == |lists[j]| {
        if pos[j] < |lists[j]| {
          FirstIsLeast(lists, merged, j, pos[j]);
        }
        assert CutBack(lists[j], pos[j], merged, m);
      }
    }
  }

  lemma FirstIsLeast(lists: seq<seq<Item>>, merged: seq<Item>, j: nat, k: nat)
    requires IsMerge(merged, lists) && j < |lists| && k < |lists[j]|
    ensures !Before(merged, 0, lists[j][k])
  {
    assert Listed(lists, lists[j][k]);
    var i :| 0 <= i < |merged| && merged[i] == lists[j][k];
  }

  lemma SameItemBack(lists: seq<seq<Item>>, pos: seq<nat>, merged: seq<Item>, m: nat, s: nat, j: nat, k: nat)
    requires ListsOk(lists) && IsMerge(merged, lists) && |pos| == |lists| && 0 < m <= |merged|
    requires AllCutBack(lists, pos, merged, m) && IsLargest(lists, pos, 0, Some(s))
    requires j < |lists| && k <= pos[j] < |lists[j]| && lists[j][k] == merged[m - 1]
    ensures lists[s][pos[s]] == merged[m - 1]
  {
    var x := lists[s][pos[s]];
    assert CutBack(lists[s], pos[s], merged, m);
    assert Before(merged, m, x);
    assert Ascending(lists[j]) && x.key >= lists[j][pos[j]].key >= lists[j][k].key;
    assert Listed(lists, x) && x in merged;
    var i :| 0 <= i < |merged| && merged[i] == x;
  }

  // ----- what moving and switching do to where the children stand -----

  lemma CurrentPasses(lists: seq<seq<Item>>, pos: seq<nat>, merged: seq<Item>, at: nat, c: nat)
    requires ListsOk(lists) && IsMerge(merged, lists) && |pos| == |lists| && at < |merged|
        && AllCut(lists, pos, merged, at)
    requires c < |lists| && pos[c] < |lists[c]| && lists[c][pos[c]] == merged[at]
    ensures AllCut(lists, pos[c := pos[c] + 1], merged, at + 1)
  {
    var pos' := pos[c := pos[c] + 1];
    forall j | 0 <= j < |lists| ensures CutAt(lists[j], pos'[j], merged, at + 1) {
      assert CutAt(lists[j], pos[j], merged, at);
      NextBound(lists, merged, at, c, pos[c], j);
    }
  }

  /** The items before merged[at + 1] are those before merged[at] and that item itself. */
  lemma NextBound(lists: seq<seq<Item>>, merged: seq<Item>, at: nat, c: nat, k: nat, j: nat)
    requires ListsOk(lists) && IsMerge(merged, lists) && at < |merged| && j < |lists|
    requires c < |lists| && k < |lists[c]| && lists[c][k] == merged[at]
    ensures forall l :: 0 <= l < |lists[j]| ==>
        (Before(merged, at + 1, lists[j][l]) <==> Before(merged, at, lists[j][l]) || (j == c && l == k))
  {
    forall l | 0 <= l < |lists[j]| ensures Before(merged, at + 1, lists[j][l]) <==>
        Before(merged, at, lists[j][l]) || (j == c && l == k) {
      var x := lists[j][l];
      assert Listed(lists, x) && x in merged && Ascending(lists[c]);
      var i :| 0 <= i < |merged| && merged[i] == x;
    }
  }

  lemma CurrentBacks(lists: seq<seq<Item>>, pos: seq<nat>, merged: seq<Item>, at: nat, c: nat)
    requires ListsOk(lists) && IsMerge(merged, lists) && |pos| == |lists| && at < |merged|
        && AllCutBack(lists, pos, merged, at + 1)
    requires c < |lists| && pos[c] < |lists[c]| && lists[c][pos[c]] == merged[at]
    ensures AllCutBack(lists, pos[c := Back(pos[c], lists[c])], merged, at)
  {
    var pos' := pos[c := Back(pos[c], lists[c])];
    forall j | 0 <= j < |lists| ensures CutBack(lists[j], pos'[j], merged, at) {
      assert CutBack(lists[j], pos[j], merged, at + 1);
      NextBound(lists, merged, at, c, pos[c], j);
    }
  }

  lemma SeekCuts(list: seq<Item>, merged: seq<Item>, at: nat)
    requires Ascending(list) && at < |merged|
    ensures CutAt(list, SeekIn(list, merged[at].key), merged, at)
  {
  }

  /** Step back from where a child without that key is cut, or go to its end. */
  lemma BackFromCut(lists: seq<seq<Item>>, merged: seq<Item>, at: nat, c: nat, k: nat, j: nat, p: nat)
    requires ListsOk(lists) && IsMerge(merged, lists) && at < |merged| && j < |lists| && j != c
    requires c < |lists| && k < |lists[c]| && lists[c][k] == merged[at] && CutAt(lists[j], p, merged, at)
    ensures CutBack(lists[j], if p < |lists[j]| then Back(p, lists[j]) else Back(|lists[j]|, lists[j]), merged, at + 1)
  {
    NextBound(lists, merged, at, c, k, j);
  }

  datatype Direction = Forward | Reverse

  class MergingIterator {
    const lists: seq<seq<Item>>
    var pos: seq<nat>
    var current: Option<nat>
    var direction: Direction
    ghost const merged: seq<Item>
    ghost var at: nat

    ghost predicate Shape()
      reads this
    {
      ListsOk(lists) && IsMerge(merged, lists) && |pos| == |lists| && forall j :: 0 <= j < |lists| ==>
          pos[j] <= |lists[j]|
    }

    ghost predicate Valid()
      reads this
    {
      && Shape()
      && (current.Some? ==>
            && at < |merged| && current.value < |lists| && pos[current.value] < |lists[current.value]|
            && lists[current.value][pos[current.value]] == merged[at]
            && (direction == Forward ==> AllCut(lists, pos, merged, at))
            && (direction == Reverse ==> AllCutBack(lists, pos, merged, at + 1)))
    }

    /** The cursor's place in the sorted list of all items. */
    ghost function At(): Option<nat>
      reads this
    {
      if current.Some? then Some(at) else None
    }

    constructor (lists: seq<seq<Item>>, ghost merged: seq<Item>)
      requires ListsOk(lists) && IsMerge(merged, lists)
      ensures Valid() && At() == None && this.lists == lists && this.merged == merged
    {
      this.lists, this.merged, at := lists, merged, 0;
      pos := seq(|lists|, j requires 0 <= j < |lists| => |lists[j]|);
      current, direction := None, Forward;
    }

    method Key() returns (k: real)
      requires Valid() && current.Some?
      ensures k == merged[at].key
    {
      k := lists[current.value][pos[current.value]].key;
    }

    method FindSmallest(ghost m: nat)
      requires Shape() && m <= |merged| && AllCut(lists, pos, merged, m) && direction == Forward
      modifies `current, `at
      ensures Valid() && At() == if m < |merged| then Some(m) else None
    {
      var smallest: Option<nat> := None;
      for i := 0 to |lists|
        invariant IsSmallest(lists, pos, i, smallest)
      {
        if pos[i] < |lists[i]| {
          if smallest.None? || lists[i][pos[i]].key < lists[smallest.value][pos[smallest.value]].key {
            smallest := Some(i);
          }
        }
      }
      current := smallest;
      at := m;
      SmallestIsNext(lists, pos, merged, m, smallest);
    }

    method FindLargest(ghost m: nat)
      requires Shape() && m <= |merged| && AllCutBack(lists, pos, merged, m) && direction == Reverse
      modifies `current, `at
      ensures Valid() && At() == if m > 0 then Some(m - 1) else None
    {
      var largest: Option<nat> := None;
      for i := |lists| downto 0
        invariant IsLargest(lists, pos, i, largest)
      {
        if pos[i] < |lists[i]| {
          if largest.None? || lists[i][pos[i]].key > lists[largest.value][pos[largest.value]].key {
            largest := Some(i);
          }
        }
      }
      current := largest;
      at := if m > 0 then m - 1 else 0;
      LargestIsPrev(lists, pos, merged, m, largest);
    }

    method SeekToFirst()
      requires Valid()
      modifies this
      ensures Valid() && At() == if merged == [] then None else Some(0)
    {
      for j := 0 to |lists|
        invariant |pos| == |lists| && forall l :: 0 <= l < j ==> pos[l] == 0
      {
        pos := pos[j := 0];
      }
      forall j | 0 <= j < |lists| ensures CutAt(lists[j], pos[j], merged, 0) {
        forall k | 0 <= k < |lists[j]| ensures !Before(merged, 0, lists[j][k]) {
          FirstIsLeast(lists, merged, j, k);
        }
      }
      direction := Forward;
      FindSmallest(0);
    }

    method SeekToLast()
      requires Valid()
      modifies this
      ensures Valid() && At() == if merged == [] then None else Some(|merged| - 1)
    {
      for j := 0 to |lists|
        invariant |pos| == |lists| && forall l :: 0 <= l < j ==> pos[l] == Back(|lists[l]|, lists[l])
      {
        pos := pos[j := Back(|lists[j]|, lists[j])];
      }
      direction := Reverse;
      FindLargest(|merged|);
    }

    /** The first item of the merge at or after the target. */
    method Seek(target: real)
      requires Valid()
      modifies this
      ensures Valid() && (At().Some? ==> merged[at].key >= target)
      ensures forall i :: 0 <= i < |merged| && (At().Some? ==> i < at) ==> merged[i].key < target
    {
      ghost var m := SeekIn(merged, target);
      for j := 0 to |lists|
        invariant |pos| == |lists| && forall l :: 0 <= l < j ==> pos[l] == SeekIn(lists[l], target)
      {
        pos := pos[j := SeekIn(lists[j], target)];
      }
      forall j | 0 <= j < |lists| ensures CutAt(lists[j], pos[j], merged, m) {
        SoughtIsCut(lists, merged, j, target, m);
      }
      direction := Forward;
      FindSmallest(m);
    }

    /** Put every other child just after the current item. */
    method TurnForward()
      requires Valid() && current.Some? && direction == Reverse
      modifies `pos, `direction
      ensures Valid() && direction == Forward
    {
      var c := current.value;
      var key := lists[c][pos[c]].key;
      ghost var pos0 := pos;
      for j := 0 to |lists|
        invariant Shape() && pos[c] == pos0[c] && forall l :: 0 <= l < j && l != c ==>
            CutAt(lists[l], pos[l], merged, at)
      {
        if j != c {
          var p := SeekIn(lists[j], key);
          SeekCuts(lists[j], merged, at);
          pos := pos[j := if p < |lists[j]| && lists[j][p].key == key then p + 1 else p];
        }
      }
      assert CutBack(lists[c], pos0[c], merged, at + 1);
      SelfIsCut(lists, merged, at, c, pos[c]);
      direction := Forward;
    }

    /** Put every other child just before the current item. */
    method TurnBack()
      requires Valid() && current.Some? && direction == Forward
      modifies `pos, `direction
      ensures Valid() && direction == Reverse
    {
      var c := current.value;
      var key := lists[c][pos[c]].key;
      ghost var pos0 := pos;
      for j := 0 to |lists|
        invariant Shape() && pos[c] == pos0[c] && forall l :: 0 <= l < j && l != c ==>
            CutBack(lists[l], pos[l], merged, at + 1)
      {
        if j != c {
          var p := SeekIn(lists[j], key);
          SeekCuts(lists[j], merged, at);
          BackFromCut(lists, merged, at, c, pos[c], j, p);
          pos := pos[j := if p < |lists[j]| then Back(p, lists[j]) else Back(|lists[j]|, lists[j])];
        }
      }
      SelfIsCut(lists, merged, at, c, pos[c]);
      direction := Reverse;
    }

    method Next()
      requires Valid() && current.Some?
      modifies this
      ensures Valid() && At() == if old(at) + 1 < |merged| then Some(old(at) + 1) else None
    {
      if direction != Forward {
        TurnForward();
      }
      var c := current.value;
      CurrentPasses(lists, pos, merged, at, c);
      pos := pos[c := pos[c] + 1];
      FindSmallest(at + 1);
    }

    method Prev()
      requires Valid() && current.Some?
      modifies this
      ensures Valid() && At() == if old(at) > 0 then Some(old(at) - 1) else None
    {
      if direction != Reverse {
        TurnBack();
      }
      var c := current.value;
      CurrentBacks(lists, pos, merged, at, c);
      pos := pos[c := Back(pos[c], lists[c])];
      FindLargest(at);
    }
  }

  lemma SoughtIsCut(lists: seq<seq<Item>>, merged: seq<Item>, j: nat, target: real, m: nat)
    requires ListsOk(lists) && IsMerge(merged, lists) && j < |lists| && m == SeekIn(merged, target)
    ensures CutAt(lists[j], SeekIn(lists[j], target), merged, m)
  {
    var p := SeekIn(lists[j], target);
    forall k | 0 <= k < |lists[j]| ensures k < p <==> Before(merged, m, lists[j][k]) {
      var x := lists[j][k];
      assert Listed(lists, x) && x in merged && Ascending(lists[j]);
      var i :| 0 <= i < |merged| && merged[i] == x;
      assert k < p <==> x.key < target;
      assert i < m <==> x.key < target;
    }
  }

  /** Where the current child itself stands is right for both directions. */
  lemma SelfIsCut(lists: seq<seq<Item>>, merged: seq<Item>, at: nat, c: nat, p: nat)
    requires ListsOk(lists) && IsMerge(merged, lists) && at < |merged| && c < |lists| && p < |lists[c]|
        && lists[c][p] == merged[at]
    ensures CutAt(lists[c], p, merged, at) && CutBack(lists[c], p, merged, at + 1)
  {
    assert Ascending(lists[c]);
    NextBound(lists, merged, at, c, p, c);
  }
}
