/** One cursor over a sequence of blocks, some of them empty (table/two_level_iterator.cc). */
module TwoLevel {
  import opened Wrappers
  import opened Merger

  /** An index entry: a key not before any key of its block and before all keys of the next, and the block's handle. */
  datatype IndexEntry = IndexEntry(key: real, handle: nat)

  /** The block of an index entry. */
  function BlockOf(index: seq<IndexEntry>, open: nat -> seq<Item>, b: nat): seq<Item>
    requires b < |index|
  {
    open(index[b].handle)
  }

  /** Items in the first b blocks. */
  ghost function Offset(index: seq<IndexEntry>, open: nat -> seq<Item>, b: nat): nat
    requires b <= |index|
  {
    if b == 0 then 0 else Offset(index, open, b - 1) + |BlockOf(index, open, b - 1)|
  }

  /** all is the concatenation of the blocks. */
  ghost predicate IsConcatenation(index: seq<IndexEntry>, open: nat -> seq<Item>, all: seq<Item>) {
    && |all| == Offset(index, open, |index|)
    && forall b, k {:trigger BlockOf(index, open, b)[k]} :: 0 <= b < |index| && 0 <= k < |BlockOf(index, open, b)| ==>
         Offset(index, open, b) + k < |all| && all[Offset(index, open, b) + k] == BlockOf(index, open, b)[k]
  }

  /** Index keys separate the blocks. */
  ghost predicate Separates(index: seq<IndexEntry>, open: nat -> seq<Item>) {
    && (forall a, b :: 0 <= a < b < |index| ==> index[a].key < index[b].key)
    && (forall b, k {:trigger BlockOf(index, open, b)[k]} :: 0 <= b < |index| && 0 <= k < |BlockOf(index, open, b)| ==>
          BlockOf(index, open, b)[k].key <= index[b].key
              && (b > 0 ==> BlockOf(index, open, b)[k].key > index[b - 1].key))
  }

  lemma {:induction false} OffsetsGrow(index: seq<IndexEntry>, open: nat -> seq<Item>, a: nat, b: nat)
    requires a <= b <= |index|
    ensures Offset(index, open, a) <= Offset(index, open, b)
    ensures a < b ==> Offset(index, open, a) + |BlockOf(index, open, a)| <= Offset(index, open, b)
    decreases b
  {
    if a < b {
      OffsetsGrow(index, open, a, b - 1);
    }
  }

  /** The block that item i of the concatenation lies in. */
  lemma {:induction false} BlockOfItem(index: seq<IndexEntry>, open: nat -> seq<Item>, b: nat, i: nat) returns (a: nat)
    requires b <= |index| && i < Offset(index, open, b)
    ensures a < b && Offset(index, open, a) <= i < Offset(index, open, a) + |BlockOf(index, open, a)|
    decreases b
  {
    if i >= Offset(index, open, b - 1) {
      a := b - 1;
    } else {
      a := BlockOfItem(index, open, b - 1, i);
    }
  }

  class TwoLevelIterator {
    const index: seq<IndexEntry>
    const open: nat -> seq<Item>
    var indexPos: nat                 // |index| when the index cursor is not valid
    var data: Option<seq<Item>>       // the open block, if any
    var dataPos: nat                  // its length when the data cursor is not valid
    var dataHandle: nat
    ghost const all: seq<Item>

    predicate IsValid()
      reads this
    {
      data.Some? && dataPos < |data.value|
    }

    ghost predicate Ok()
      reads this
    {
      && IsConcatenation(index, open, all) && Ascending(all) && Separates(index, open) && indexPos <= |index|
      && (data.Some? ==> dataPos <= |data.value| && data.value == open(dataHandle))
      && (IsValid() ==> indexPos < |index| && data.value == BlockOf(index, open, indexPos))
    }

    /** The cursor's place in the concatenation. */
    ghost function At(): Option<nat>
      requires Ok()
      reads this
    {
      if IsValid() then Some(Offset(index, open, indexPos) + dataPos) else None
    }

    constructor (index: seq<IndexEntry>, open: nat -> seq<Item>, ghost all: seq<Item>)
      requires IsConcatenation(index, open, all) && Ascending(all) && Separates(index, open)
      ensures Ok() && At() == None && this.index == index && this.open == open && this.all == all
    {
      this.index, this.open, this.all := index, open, all;
      indexPos, data, dataPos, dataHandle := |index|, None, 0, 0;
    }

    method Current() returns (x: Item)
      requires Ok() && IsValid()
      ensures At().value < |all| && x == all[At().value]
    {
      x := data.value[dataPos];
      assert x == BlockOf(index, open, indexPos)[dataPos];
    }

    /** Open the block the index cursor is at; keep the cursor if it is open already. */
    method InitDataBlock()
      requires indexPos <= |index| && (data.Some? ==> dataPos <= |data.value| && data.value == open(dataHandle))
      modifies `data, `dataPos, `dataHandle
      ensures data.Some? <==> indexPos < |index|
      ensures data.Some? ==> dataPos <= |data.value| && data.value == BlockOf(index, open, indexPos) == open(dataHandle)
    {
      if indexPos >= |index| {
        data := None;
      } else {
        var handle := index[indexPos].handle;
        if data.Some? && handle == dataHandle {
        } else {
          data, dataHandle := Some(open(handle)), handle;
          dataPos := |data.value|;
        }
      }
    }

    /** Nothing more in this block: on to the first item of a later one. */
    method SkipEmptyDataBlocksForward()
      requires IsConcatenation(index, open, all) && Ascending(all) && Separates(index, open) && indexPos <= |index|
      requires data.Some? <==> indexPos < |index|
      requires data.Some? ==>
          dataPos <= |data.value| && data.value == BlockOf(index, open, indexPos) == open(dataHandle)
      modifies this
      ensures Ok()
          && At() == (var i := old(if data.Some? then Offset(index, open, indexPos) + dataPos else |all|); if i < |all|
          then Some(i) else None)
    {
      ghost var i := if data.Some? then Offset(index, open, indexPos) + dataPos else |all|;
      while data.None? || dataPos >= |data.value|
        invariant indexPos <= |index| && (data.Some? <==> indexPos < |index|)
        invariant data.Some? ==>
            dataPos <= |data.value| && data.value == BlockOf(index, open, indexPos) == open(dataHandle)
        invariant i == if data.Some? then Offset(index, open, indexPos) + dataPos else |all|
        decreases |index| - indexPos, data.Some?
      {
        if indexPos >= |index| {
          data := None;
          return;
        }
        indexPos := indexPos + 1;
        InitDataBlock();
        if data.Some? {
          dataPos := 0;
        }
      }
      OffsetsGrow(index, open, indexPos + 1, |index|);
    }

    method SeekToFirst()
      requires Ok()
      modifies this
      ensures Ok() && At() == if all == [] then None else Some(0)
    {
      indexPos := 0;
      InitDataBlock();
      if data.Some? {
        dataPos := 0;
      }
      SkipEmptyDataBlocksForward();
    }

    method Next()
      requires Ok() && IsValid()
      modifies this
      ensures Ok() && At() == if old(At()).value + 1 < |all| then Some(old(At()).value + 1) else None
    {
      dataPos := dataPos + 1;
      SkipEmptyDataBlocksForward();
    }

    /** The first item at or after the target: the index leads to the only block it can be in, or the end of it. */
    method Seek(target: real)
      requires Ok()
      modifies this
      ensures Ok() && (At().Some? ==> At().value < |all|)
          && IsFirstFrom(all, target, if At().Some? then At().value else |all|)
    {
      indexPos := SeekIndex(index, target);
      InitDataBlock();
      if data.Some? {
        dataPos := SeekIn(data.value, target);
      }
      SoughtInIndex(index, open, all, target, indexPos, if data.Some? then dataPos else 0);
      SkipEmptyDataBlocksForward();
    }

    // ----- the other way -----

    method SkipEmptyDataBlocksBackward()
      requires IsConcatenation(index, open, all) && Ascending(all) && Separates(index, open) && indexPos <= |index|
      requires data.Some? <==> indexPos < |index|
      requires data.Some? ==>
          dataPos <= |data.value| && data.value == BlockOf(index, open, indexPos) == open(dataHandle)
      modifies this
      // without an item in this block, the next one back is the last item of the blocks before
      ensures Ok() && At() == (var end := old(EndBefore()); if end > 0 then Some(end - 1) else None)
    {
      ghost var end := EndBefore();
      while data.None? || dataPos >= |data.value|
        invariant indexPos <= |index| && (data.Some? <==> indexPos < |index|)
        invariant data.Some? ==>
            dataPos <= |data.value| && data.value == BlockOf(index, open, indexPos) == open(dataHandle)
        invariant end == EndBefore()
        decreases if indexPos < |index| then indexPos + 1 else 0, data.Some?
      {
        if indexPos >= |index| {
          data := None;
          return;
        }
        indexPos := if indexPos > 0 then indexPos - 1 else |index|;
        InitDataBlock();
        if data.Some? {
          dataPos := Back(|data.value|, data.value);
        }
      }
    }

    /** Items up to and including the current one, or those of the blocks before when there is none here. */
    ghost function EndBefore(): nat
      requires indexPos <= |index|
      reads this
    {
      if data.None? || indexPos == |index| then 0
      else if dataPos < |data.value| then Offset(index, open, indexPos) + dataPos + 1 else Offset(index, open, indexPos)
    }

    method SeekToLast()
      requires Ok()
      modifies this
      ensures Ok() && At() == if all == [] then None else Some(|all| - 1)
    {
      indexPos := if |index| > 0 then |index| - 1 else 0;
      InitDataBlock();
      if data.Some? {
        dataPos := Back(|data.value|, data.value);
      }
      SkipEmptyDataBlocksBackward();
    }

    method Prev()
      requires Ok() && IsValid()
      modifies this
      ensures Ok() && At() == if old(At()).value > 0 then Some(old(At()).value - 1) else None
    {
      dataPos := Back(dataPos, data.value);
      SkipEmptyDataBlocksBackward();
    }
  }

  function SeekIndex(index: seq<IndexEntry>, target: real): (b: nat)
    ensures b <= |index| && (forall a :: 0 <= a < b ==> index[a].key < target)
        && (b < |index| ==> index[b].key >= target)
  {
    if index == [] || index[0].key >= target then 0 else 1 + SeekIndex(index[1..], target)
  }

  /** Item i is the first at or after the target; it is |all| if there is none. */
  ghost predicate IsFirstFrom(all: seq<Item>, target: real, i: nat) {
    i <= |all| && (forall j :: 0 <= j < i ==> all[j].key < target) && (i < |all| ==> all[i].key >= target)
  }

  lemma SoughtInIndex(index: seq<IndexEntry>, open: nat -> seq<Item>, all: seq<Item>, target: real, b: nat, p: nat)
    requires IsConcatenation(index, open, all) && Ascending(all) && Separates(index, open)
        && b == SeekIndex(index, target)
    requires p == if b < |index| then SeekIn(BlockOf(index, open, b), target) else 0
    ensures var i := if b < |index| then Offset(index, open, b) + p else |all|;
      IsFirstFrom(all, target, if i < |all| then i else |all|)
  {
    forall i | 0 <= i < |all| && (b < |index| ==> i < Offset(index, open, b) + p) ensures all[i].key < target {
      var a := BlockOfItem(index, open, |index|, i);
      assert all[i] == BlockOf(index, open, a)[i - Offset(index, open, a)];
      if b < a {
        OffsetsGrow(index, open, b, a);
      }
    }
    if b < |index| && Offset(index, open, b) + p < |all| {
      var i := Offset(index, open, b) + p;
      var a := BlockOfItem(index, open, |index|, i);
      assert all[i] == BlockOf(index, open, a)[i - Offset(index, open, a)];
      if a < b {
        OffsetsGrow(index, open, a, b);
      }
    }
  }
}
