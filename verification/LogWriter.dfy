/** Appending records to a log (db/log_writer.cc). */
module LogWriter {
  import opened Wrappers
  import opened Crc32c
  import opened Coding
  import opened LogFormat

  /** The bytes of a header and its payload. */
  lemma FragmentBytes(h: seq<Octet>, low: Octet, high: Octet, kind: Octet, payload: seq<Octet>, bytes: seq<Octet>)
    requires IsSeal(h, kind, payload) && kind in {FULL, FIRST, MIDDLE, LAST} && LengthOf(low, high) == |payload|
    requires bytes == h + [low, high, kind] + payload
    ensures IsFragment(bytes, kind, payload)
  {
    assert bytes[..4] == h && bytes[HEADER_SIZE..] == payload;
  }

  function KindOf(begin: bool, end: bool): Octet {
    if begin && end then FULL else if begin then FIRST else if end then LAST else MIDDLE
  }

  lemma KindFits(begin: bool, end: bool, open: Option<seq<Octet>>, records: seq<seq<Octet>>, f: Fragment,
      data: seq<Octet>)
    requires f.kind == KindOf(begin, end) && open.None? == begin
    requires data == (if begin then [] else open.value) + f.payload
    ensures Assemble(Assembly(open, records), f) == if end then Assembly(None, records + [data])
        else Assembly(Some(data), records)
  {
    assert begin ==> data == f.payload;
  }

  class LogWriter {
    const tables: Tables
    var dest: seq<Octet>
    var blockOffset: nat
    ghost var fragments: seq<Fragment>
    ghost var records: seq<seq<Octet>>
    ghost var ends: seq<nat>

    ghost predicate Ready()
      reads this
    {
      AreTables(tables) && blockOffset <= BLOCK_SIZE && blockOffset <= |dest|
          && (|dest| - blockOffset) % BLOCK_SIZE == 0
    }

    ghost predicate Valid()
      reads this
    {
      Ready() && IsLog(dest, fragments, None, records, ends)
    }

    constructor (tables: Tables)
      requires AreTables(tables)
      ensures Valid() && records == [] && ends == [] && dest == []
    {
      this.tables := tables;
      dest, blockOffset, fragments, records, ends := [], 0, [], [], [];
      new;
      EmptyLog();
    }

    method EmitPhysicalRecord(t: Octet, payload: seq<Octet>, address: nat)
      requires Ready() && t in {FULL, FIRST, MIDDLE, LAST}
      requires |payload| <= 0xffff && blockOffset + HEADER_SIZE + |payload| <= BLOCK_SIZE
      modifies `dest, `blockOffset
      ensures Ready() && blockOffset == old(blockOffset) + HEADER_SIZE + |payload|
      ensures exists bytes :: dest == old(dest) + bytes && IsFragment(bytes, t, payload)
    {
      var n := |payload|;
      var h := Seal(tables, t, payload, address);
      var bytes := h + [n % 256, n / 256, t] + payload;
      FragmentBytes(h, n % 256, n / 256, t, payload, bytes);
      dest := dest + bytes;
      blockOffset := blockOffset + HEADER_SIZE + n;
    }

    /** Go to a new block if no header fits into this one. */
    method FillTrailer() returns (ghost pad: seq<Octet>)
      requires Ready()
      modifies `dest, `blockOffset
      ensures Ready() && dest == old(dest) + pad && |dest| == NextPos(|old(dest)|)
      ensures blockOffset == |dest| % BLOCK_SIZE && blockOffset + HEADER_SIZE <= BLOCK_SIZE
      ensures old(blockOffset) == BLOCK_SIZE ==> blockOffset == 0
    {
      pad := [];
      var leftover := BLOCK_SIZE - blockOffset;
      if leftover < HEADER_SIZE {
        if leftover > 0 {
          pad := [0, 0, 0, 0, 0, 0][..leftover];
          dest := dest + [0, 0, 0, 0, 0, 0][..leftover];
        }
        blockOffset := 0;
      }
    }

    /** Afterwards the file is the log of one record more. */
    method AddRecord(data: seq<Octet>, address: nat)
      requires Valid()
      modifies this
      ensures Valid() && records == old(records) + [data] && ends == old(ends) + [|dest|] && old(dest) <= dest
    {
      var ptr, begin := 0, true;
      while true
        invariant Ready() && 0 <= ptr <= |data| && old(dest) <= dest && (begin ==> ptr == 0)
            && (!begin ==> ptr < |data| && blockOffset == BLOCK_SIZE)
        invariant IsLog(dest, fragments, if begin then None else Some(data[..ptr]), records, ends)
        invariant records == old(records) && ends == old(ends)
        decreases |data| - ptr, begin
      {
        ptr := AddFragment(data, ptr, begin, address);
        begin := false;
        if ptr == |data| {
          assert data[..ptr] == data;
          break;
        }
      }
    }

    /** One fragment of the record, as long as the block allows. */
    method AddFragment(data: seq<Octet>, ptr: nat, begin: bool, address: nat) returns (ptr': nat)
      requires Ready() && ptr <= |data| && (begin ==> ptr == 0)
          && (!begin ==> ptr < |data| && blockOffset == BLOCK_SIZE)
      requires IsLog(dest, fragments, if begin then None else Some(data[..ptr]), records, ends)
      modifies this
      ensures Ready() && ptr <= ptr' <= |data| && (!begin ==> ptr < ptr') && old(dest) <= dest
      ensures ptr' < |data| ==> blockOffset == BLOCK_SIZE
      ensures ptr' < |data| ==>
          IsLog(dest, fragments, Some(data[..ptr']), records, ends) && records == old(records) && ends == old(ends)
      ensures ptr' == |data| ==>
          IsLog(dest, fragments, None, records, ends) && records == old(records) + [data[..ptr']]
          && ends == old(ends) + [|dest|]
    {
      var left := |data| - ptr;
      ghost var file, open := dest, if begin then None else Some(data[..ptr]);
      ghost var pad := FillTrailer();
      var avail := BLOCK_SIZE - blockOffset - HEADER_SIZE;
      var fragmentLength := if left < avail then left else avail;
      var end := left == fragmentLength;
      var kind := KindOf(begin, end);
      ptr' := ptr + fragmentLength;
      var payload := data[ptr..ptr'];
      ghost var pos := |dest|;
      EmitPhysicalRecord(kind, payload, address + ptr);
      assert data[..ptr'] == (if begin then [] else data[..ptr]) + payload;
      KindFits(begin, end, open, records, Fragment(pos, kind, payload), data[..ptr']);
      AppendFragment(file, open, pad, Fragment(pos, kind, payload));
    }

    ghost method AppendFragment(file: seq<Octet>, open: Option<seq<Octet>>, pad: seq<Octet>, f: Fragment)
      requires IsLog(file, fragments, open, records, ends)
      requires exists bytes :: dest == file + pad + bytes && Follows(file, pad, bytes, f)
      requires Assemble(Assembly(open, records), f).Assembly?
      modifies `fragments, `records, `ends
      ensures var a := Assemble(Assembly(open, old(records)), f);
        && records == a.records && IsLog(dest, fragments, a.open, records, ends)
        && ends == if |a.records| > |old(records)| then old(ends) + [End(f)] else old(ends)
    {
      var bytes :| dest == file + pad + bytes && Follows(file, pad, bytes, f);
      var a := Assemble(Assembly(open, records), f);
      var ends' := if |a.records| > |records| then ends + [End(f)] else ends;
      LogGrows(file, fragments, open, records, ends, pad, bytes, f, a, ends');
      fragments, records, ends := fragments + [f], a.records, ends';
    }
  }
}
