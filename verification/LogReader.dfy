/** Reading a log back, whole, torn or damaged (db/log_reader.cc). */
module LogReader {
  import opened Wrappers
  import opened Crc32c
  import opened Coding
  import opened LogFormat

  const EOF: nat := 5
  const BAD: nat := 6

  /** Where a reader is: bytes taken from the file, those of them not used up, whether the last read came short,
      and how many corruptions it has reported. */
  datatype State = State(filePos: nat, buffer: seq<Octet>, eof: bool, corruptions: nat)

  function Min(a: nat, b: nat): nat {
    if a < b then a else b
  }

  /** SequentialFile::Read of one block. */
  function Refill(file: seq<Octet>, s: State): State
    requires s.filePos <= |file|
  {
    var end := Min(s.filePos + BLOCK_SIZE, |file|);
    State(end, file[s.filePos..end], end - s.filePos < BLOCK_SIZE, s.corruptions)
  }

  function Left(file: seq<Octet>, s: State): int {
    |file| - s.filePos + |s.buffer|
  }

  /** What ReadPhysicalRecord makes of the next bytes. */
  ghost function Parse(s: State): (r: (State, nat, seq<Octet>))
    requires |s.buffer| >= HEADER_SIZE
    ensures |r.0.buffer| < |s.buffer| && r.0.filePos == s.filePos && r.0.eof == s.eof
  {
    var t, length := s.buffer[6], LengthOf(s.buffer[4], s.buffer[5]);
    if HEADER_SIZE + length > |s.buffer| then
      if !s.eof then (s.(buffer := [], corruptions := s.corruptions + 1), BAD, []) else (s.(buffer := []), EOF, [])
    else if t == ZERO && length == 0 then (s.(buffer := []), BAD, [])
    else if !IsSeal(s.buffer[..4], t, s.buffer[HEADER_SIZE..HEADER_SIZE + length]) then
      (s.(buffer := [], corruptions := s.corruptions + 1), BAD, [])
    else (s.(buffer := s.buffer[HEADER_SIZE + length..]), t, s.buffer[HEADER_SIZE..HEADER_SIZE + length])
  }

  /** The next physical record: its type, or EOF or BAD, and its payload. */
  ghost function Physical(file: seq<Octet>, s: State): (r: (State, nat, seq<Octet>))
    requires s.filePos <= |file|
    ensures r.0.filePos <= |file| && Left(file, r.0) <= Left(file, s)
        && (r.1 != EOF ==> Left(file, r.0) < Left(file, s))
    decreases if s.eof then 0 else |file| - s.filePos + 1
  {
    if |s.buffer| >= HEADER_SIZE then Parse(s)
    else if s.eof then (s.(buffer := []), EOF, [])
    else Physical(file, Refill(file, s))
  }

  /** What ReadRecord makes of one physical record; scratch is the start of a fragmented record, if in one. */
  datatype Outcome = Go(scratch: Option<seq<Octet>>, corruptions: nat) | Stop(record: Option<seq<Octet>>,
      corruptions: nat)

  /** A record that starts while another is unfinished is reported, unless what was there is empty. */
  function Unfinished(scratch: Option<seq<Octet>>): nat {
    if scratch.Some? && scratch.value != [] then 1 else 0
  }

  function Take(scratch: Option<seq<Octet>>, t: nat, payload: seq<Octet>, corruptions: nat): Outcome {
    if t == FULL then Stop(Some(payload), corruptions + Unfinished(scratch))
    else if t == FIRST then Go(Some(payload), corruptions + Unfinished(scratch))
    else if t == MIDDLE then
      if scratch.None? then Go(None, corruptions + 1) else Go(Some(scratch.value + payload), corruptions)
    else if t == LAST then
      if scratch.None? then Go(None, corruptions + 1) else Stop(Some(scratch.value + payload), corruptions)
    else if t == EOF then Stop(None, corruptions)
    else if t == BAD then Go(None, corruptions + if scratch.Some? then 1 else 0)
    else Go(None, corruptions + 1)
  }

  /** The next record of the file, or none at its end. */
  ghost function Logical(file: seq<Octet>, s: State, scratch: Option<seq<Octet>>): (r: (State, Option<seq<Octet>>))
    requires s.filePos <= |file|
    ensures r.0.filePos <= |file| && Left(file, r.0) <= Left(file, s) && (r.1.Some? ==> Left(file, r.0) < Left(file, s))
    decreases Left(file, s)
  {
    var p := Physical(file, s);
    var o := Take(scratch, p.1, p.2, p.0.corruptions);
    var s' := p.0.(corruptions := o.corruptions);
    if o.Go? then Logical(file, s', o.scratch) else (s', o.record)
  }

  lemma LogicalStep(file: seq<Octet>, s: State, scratch: Option<seq<Octet>>)
    requires s.filePos <= |file|
    ensures var (s1, t, payload) := Physical(file, s);
      var o := Take(scratch, t, payload, s1.corruptions);
      Left(file, s1) <= Left(file, s) && s1.filePos <= |file| && (t != EOF ==> Left(file, s1) < Left(file, s))
      && Logical(file, s, scratch) == if o.Go? then Logical(file, s1.(corruptions := o.corruptions), o.scratch)
         else (s1.(corruptions := o.corruptions), o.record)
  {
  }

  /** All records, as replay reads them. */
  ghost function All(file: seq<Octet>, s: State): (r: (State, seq<seq<Octet>>))
    requires s.filePos <= |file|
    decreases Left(file, s)
  {
    var (s', record) := Logical(file, s, None);
    if record.None? then (s', []) else var (s'', rest) := All(file, s'); (s'', [record.value] + rest)
  }

  // ---------------------------------------------------------------------------------------------
  // What is read from a file, whatever is in it
  // ---------------------------------------------------------------------------------------------

  /** The buffer is the part of the file just before filePos. */
  ghost predicate InFile(file: seq<Octet>, filePos: nat, buffer: seq<Octet>) {
    |buffer| <= filePos <= |file| && forall k {:trigger Unfold(k)} :: k == IN_BEFORE && Unfold(k) ==>
      buffer == file[filePos - |buffer|..filePos]
  }

  /** Everything before this place has been used up. */
  function Place(s: State): int {
    s.filePos - |s.buffer|
  }

  /** f is a fragment of the file with the right checksum, and lies between two places. */
  ghost predicate SealedIn(file: seq<Octet>, f: Fragment, from: int, to: int) {
    from <= f.pos && End(f) <= to && End(f) <= |file| && IsFragment(file[f.pos..End(f)], f.kind, f.payload)
  }

  /** fs follow each other in the file between two places, and each has the right checksum. */
  ghost predicate AllSealed(file: seq<Octet>, fs: seq<Fragment>, from: int, to: int) {
    && (forall i :: 0 <= i < |fs| ==> SealedIn(file, fs[i], from, to))
    && forall i, j :: 0 <= i < j < |fs| ==> End(fs[i]) <= fs[j].pos
  }

  /** x is what some fragments with right checksums, one after the other in the file, amount to: all of a record, or
      the start of one. */
  ghost predicate FromSealed(file: seq<Octet>, x: seq<Octet>, whole: bool, from: int, to: int) {
    forall k {:trigger Unfold(k)} :: k == IN_LOG_FILE && Unfold(k) ==>
      exists fs :: AllSealed(file, fs, from, to) && Assembled(fs) == Amount(x, whole)
  }

  function Amount(x: seq<Octet>, whole: bool): Assembly {
    if whole then Assembly(None, [x]) else Assembly(Some(x), [])
  }

  lemma MadeOf(file: seq<Octet>, fs: seq<Fragment>, x: seq<Octet>, whole: bool, from: int, to: int)
    requires AllSealed(file, fs, from, to) && Assembled(fs) == Amount(x, whole)
    ensures FromSealed(file, x, whole, from, to)
  {
  }

  lemma StartInFile(file: seq<Octet>, filePos: nat, buffer: seq<Octet>, n: nat)
    requires InFile(file, filePos, buffer) && n <= |buffer|
    ensures file[filePos - |buffer|..filePos - |buffer| + n] == buffer[..n]
  {
    assert Unfold(IN_BEFORE);
  }

  lemma RestInFile(file: seq<Octet>, filePos: nat, buffer: seq<Octet>, n: nat)
    requires InFile(file, filePos, buffer) && n <= |buffer|
    ensures InFile(file, filePos, buffer[n..])
  {
    assert Unfold(IN_BEFORE);
  }

  lemma NothingInBuffer(file: seq<Octet>, filePos: nat)
    requires filePos <= |file|
    ensures InFile(file, filePos, [])
  {
  }

  lemma RefillInFile(file: seq<Octet>, s: State)
    requires s.filePos <= |file|
    ensures InFile(file, s.filePos, []) && InFile(file, Refill(file, s).filePos, Refill(file, s).buffer)
  {
  }

  lemma FragmentInBuffer(buffer: seq<Octet>, t: Octet, length: nat)
    requires HEADER_SIZE + length <= |buffer| && t == buffer[6] && length == LengthOf(buffer[4], buffer[5])
    requires t in {FULL, FIRST, MIDDLE, LAST} && IsSeal(buffer[..4], t, buffer[HEADER_SIZE..HEADER_SIZE + length])
    ensures IsFragment(buffer[..HEADER_SIZE + length], t, buffer[HEADER_SIZE..HEADER_SIZE + length])
  {
    var bytes := buffer[..HEADER_SIZE + length];
    assert bytes[..4] == buffer[..4] && bytes[HEADER_SIZE..] == buffer[HEADER_SIZE..HEADER_SIZE + length];
  }

  lemma SealedBy(file: seq<Octet>, pos: nat, bytes: seq<Octet>, t: Octet, payload: seq<Octet>)
    requires pos + |bytes| <= |file| && file[pos..pos + |bytes|] == bytes && IsFragment(bytes, t, payload)
    ensures SealedIn(file, Fragment(pos, t, payload), pos, pos + |bytes|)
  {
  }

  lemma SealedInBuffer(file: seq<Octet>, filePos: nat, buffer: seq<Octet>, t: Octet, length: nat)
    requires InFile(file, filePos, buffer) && HEADER_SIZE + length <= |buffer|
    requires t == buffer[6] && length == LengthOf(buffer[4], buffer[5]) && t in {FULL, FIRST, MIDDLE, LAST}
    requires IsSeal(buffer[..4], t, buffer[HEADER_SIZE..HEADER_SIZE + length])
    ensures SealedIn(file, Fragment(filePos - |buffer|, t, buffer[HEADER_SIZE..HEADER_SIZE + length]),
        filePos - |buffer|, filePos - |buffer[HEADER_SIZE + length..]|)
  {
    var n := HEADER_SIZE + length;
    FragmentInBuffer(buffer, t, length);
    StartInFile(file, filePos, buffer, n);
    SealedBy(file, filePos - |buffer|, buffer[..n], t, buffer[HEADER_SIZE..n]);
  }

  lemma ParseIsSealed(file: seq<Octet>, s: State)
    requires InFile(file, s.filePos, s.buffer) && |s.buffer| >= HEADER_SIZE
    ensures var (s', t, payload) := Parse(s);
      && InFile(file, s'.filePos, s'.buffer) && Place(s) <= Place(s')
      && (t in {FULL, FIRST, MIDDLE, LAST} ==> SealedIn(file, Fragment(Place(s), t, payload), Place(s), Place(s')))
  {
    var t, length := s.buffer[6], LengthOf(s.buffer[4], s.buffer[5]);
    NothingInBuffer(file, s.filePos);
    if HEADER_SIZE + length <= |s.buffer| {
      var payload := s.buffer[HEADER_SIZE..HEADER_SIZE + length];
      RestInFile(file, s.filePos, s.buffer, HEADER_SIZE + length);
      if t in {FULL, FIRST, MIDDLE, LAST} && IsSeal(s.buffer[..4], t, payload) {
        SealedInBuffer(file, s.filePos, s.buffer, t, length);
        assert Parse(s) == (s.(buffer := s.buffer[HEADER_SIZE + length..]), t as nat, payload);
      }
    }
  }

  lemma {:induction false} PhysicalIsSealed(file: seq<Octet>, s: State)
    requires InFile(file, s.filePos, s.buffer)
    ensures var (s', t, payload) := Physical(file, s);
      && InFile(file, s'.filePos, s'.buffer) && Place(s) <= Place(s')
      && (t in {FULL, FIRST, MIDDLE, LAST} ==>
          exists f :: SealedIn(file, f, Place(s), Place(s')) && f.kind == t && f.payload == payload)
    decreases if s.eof then 0 else |file| - s.filePos + 1
  {
    if |s.buffer| >= HEADER_SIZE {
      ParseIsSealed(file, s);
    } else if !s.eof {
      RefillInFile(file, s);
      PhysicalIsSealed(file, Refill(file, s));
    }
  }

  lemma SealedNext(file: seq<Octet>, fs: seq<Fragment>, f: Fragment, from: int, middle: int, to: int)
    requires AllSealed(file, fs, from, middle) && SealedIn(file, f, middle, to) && from <= middle <= to
    ensures AllSealed(file, fs + [f], from, to) && Assembled(fs + [f]) == Assemble(Assembled(fs), f)
  {
    AssembledAppend(fs, f);
  }

  /** A whole record, or the start of one. */
  lemma StartsSealed(file: seq<Octet>, f: Fragment, from: int, to: int)
    requires SealedIn(file, f, from, to)
    ensures f.kind == FULL ==> FromSealed(file, f.payload, true, from, to)
    ensures f.kind == FIRST ==> FromSealed(file, f.payload, false, from, to)
  {
    AssembledOnly(f);
    assert AllSealed(file, [f], from, to);
    if f.kind == FULL {
      MadeOf(file, [f], f.payload, true, from, to);
    } else if f.kind == FIRST {
      MadeOf(file, [f], f.payload, false, from, to);
    }
  }

  lemma AssembledOnly(f: Fragment)
    ensures f.kind == FULL ==> Assembled([f]) == Amount(f.payload, true)
    ensures f.kind == FIRST ==> Assembled([f]) == Amount(f.payload, false)
  {
    AssembledAppend([], f);
    assert [] + [f] == [f] && [] + [f.payload] == [f.payload];
  }

  /** More of a record, or its end. */
  lemma GoesOnSealed(file: seq<Octet>, x: seq<Octet>, f: Fragment, from: int, middle: int, to: int)
    requires FromSealed(file, x, false, from, middle) && SealedIn(file, f, middle, to) && from <= middle <= to
    ensures f.kind == MIDDLE ==> FromSealed(file, x + f.payload, false, from, to)
    ensures f.kind == LAST ==> FromSealed(file, x + f.payload, true, from, to)
  {
    assert Unfold(IN_LOG_FILE);
    var fs :| AllSealed(file, fs, from, middle) && Assembled(fs) == Amount(x, false);
    SealedNext(file, fs, f, from, middle, to);
    if f.kind == LAST {
      assert [] + [x + f.payload] == [x + f.payload];
      MadeOf(file, fs + [f], x + f.payload, true, from, to);
    } else if f.kind == MIDDLE {
      MadeOf(file, fs + [f], x + f.payload, false, from, to);
    }
  }

  /** What is made of fragments of a part is made of fragments of a larger part. */
  lemma SealedEarlier(file: seq<Octet>, x: seq<Octet>, whole: bool, from: int, middle: int, from': int, to: int)
    requires FromSealed(file, x, whole, from, middle) && middle <= to && from' <= from
    ensures FromSealed(file, x, whole, from', to)
  {
    assert Unfold(IN_LOG_FILE);
    var fs :| AllSealed(file, fs, from, middle) && Assembled(fs) == Amount(x, whole);
    MadeOf(file, fs, x, whole, from', to);
  }

  /** What the reader has: nothing, or something made of fragments with right checksums. */
  ghost predicate SealedSoFar(file: seq<Octet>, x: Option<seq<Octet>>, whole: bool, from: int, to: int) {
    x.Some? ==> FromSealed(file, x.value, whole, from, to)
  }

  ghost predicate SealedOutcome(file: seq<Octet>, o: Outcome, from: int, to: int) {
    match o
    case Go(x, _) => SealedSoFar(file, x, false, from, to)
    case Stop(x, _) => SealedSoFar(file, x, true, from, to)
  }

  /** One step of the reassembly stays with fragments that have the right checksum. */
  lemma TakeIsSealed(file: seq<Octet>, scratch: Option<seq<Octet>>, f: Fragment, corruptions: nat, from: int,
      middle: int, to: int)
    requires from <= middle <= to && SealedSoFar(file, scratch, false, from, middle)
    requires SealedIn(file, f, middle, to) && f.kind in {FULL, FIRST, MIDDLE, LAST}
    ensures SealedOutcome(file, Take(scratch, f.kind, f.payload, corruptions), from, to)
  {
    if f.kind == FULL || f.kind == FIRST {
      StartsSealed(file, f, middle, to);
      SealedEarlier(file, f.payload, f.kind == FULL, middle, to, from, to);
    } else if scratch.Some? {
      GoesOnSealed(file, scratch.value, f, from, middle, to);
    }
  }

  lemma StepIsSealed(file: seq<Octet>, s: State, scratch: Option<seq<Octet>>, from: int, p: (State, nat, seq<Octet>))
    requires InFile(file, s.filePos, s.buffer) && from <= Place(s) && p == Physical(file, s)
    requires SealedSoFar(file, scratch, false, from, Place(s))
    ensures InFile(file, p.0.filePos, p.0.buffer) && Place(s) <= Place(p.0)
    ensures SealedOutcome(file, Take(scratch, p.1, p.2, p.0.corruptions), from, Place(p.0))
  {
    PhysicalIsSealed(file, s);
    if p.1 in {FULL, FIRST, MIDDLE, LAST} {
      var f :| SealedIn(file, f, Place(s), Place(p.0)) && f.kind == p.1 && f.payload == p.2;
      TakeIsSealed(file, scratch, f, p.0.corruptions, from, Place(s), Place(p.0));
    }
  }

  /** Whatever is in the file: a record that is read is made of fragments with the right checksums, which follow each
      other in the part of the file that has been read for it. */
  lemma {:induction false} LogicalIsSealed(file: seq<Octet>, s: State, scratch: Option<seq<Octet>>, from: int)
    requires InFile(file, s.filePos, s.buffer) && from <= Place(s)
    requires SealedSoFar(file, scratch, false, from, Place(s))
    ensures SealedRead(file, s, from, Logical(file, s, scratch))
    decreases Left(file, s)
  {
    assert Unfold(IN_LOG_FILE);
    var p := Physical(file, s);
    var o := Take(scratch, p.1, p.2, p.0.corruptions);
    StepIsSealed(file, s, scratch, from, p);
    if o.Go? {
      LogicalIsSealed(file, p.0.(corruptions := o.corruptions), o.scratch, from);
    }
  }

  /** The reader has gone on in the file, and a record it read is made of fragments with the right checksums. */
  ghost predicate SealedRead(file: seq<Octet>, s: State, from: int, r: (State, Option<seq<Octet>>)) {
    forall k {:trigger Unfold(k)} :: k == IN_LOG_FILE && Unfold(k) ==>
    && InFile(file, r.0.filePos, r.0.buffer) && Place(s) <= Place(r.0)
    && SealedSoFar(file, r.1, true, from, Place(r.0))
  }

  lemma AllStep(file: seq<Octet>, s: State)
    requires s.filePos <= |file|
    ensures var (s1, record) := Logical(file, s, None);
      && s1.filePos <= |file| && (record.Some? ==> Left(file, s1) < Left(file, s))
      && All(file, s) == if record.None? then (s1, []) else (All(file, s1).0, [record.value] + All(file, s1).1)
  {
  }

  class LogReader {
    const tables: Tables
    const file: seq<Octet>
    var filePos: nat
    var buffer: seq<Octet>
    var eof: bool
    var corruptions: nat

    ghost function Abs(): State
      reads this
    {
      State(filePos, buffer, eof, corruptions)
    }

    ghost predicate Valid()
      reads this
    {
      AreTables(tables) && InFile(file, filePos, buffer)
    }

    constructor (tables: Tables, file: seq<Octet>)
      requires AreTables(tables)
      ensures Valid() && Abs() == State(0, [], false, 0) && this.file == file
    {
      this.tables, this.file := tables, file;
      filePos, buffer, eof, corruptions := 0, [], false, 0;
    }

    method ReadPhysicalRecord(address: nat) returns (t: nat, payload: seq<Octet>)
      requires Valid()
      modifies this
      ensures Valid() && (Abs(), t, payload) == Physical(file, old(Abs()))
    {
      while |buffer| < HEADER_SIZE
        invariant Valid() && Physical(file, Abs()) == old(Physical(file, Abs()))
        decreases if eof then 0 else |file| - filePos + 1
      {
        RefillInFile(file, Abs());
        if !eof {
          var end := Min(filePos + BLOCK_SIZE, |file|);
          filePos, buffer, eof := end, file[filePos..end], end - filePos < BLOCK_SIZE;
        } else {
          buffer := [];
          return EOF, [];
        }
      }
      t, payload := ParseHeader(address);
    }

    method ParseHeader(address: nat) returns (t: nat, payload: seq<Octet>)
      requires Valid() && |buffer| >= HEADER_SIZE
      modifies this
      ensures Valid() && (Abs(), t, payload) == Parse(old(Abs()))
    {
      NothingInBuffer(file, filePos);
      var length := LengthOf(buffer[4], buffer[5]);
      t, payload := buffer[6], [];
      if HEADER_SIZE + length > |buffer| {
        buffer := [];
        if eof {
          return EOF, [];
        }
        corruptions := corruptions + 1;
        return BAD, [];
      }
      if t == ZERO && length == 0 {
        buffer := [];
        return BAD, [];
      }
      payload := buffer[HEADER_SIZE..HEADER_SIZE + length];
      var ok := Check(tables, buffer[..4], buffer[6], payload, address);
      if !ok {
        buffer, corruptions := [], corruptions + 1;
        return BAD, [];
      }
      RestInFile(file, filePos, buffer, HEADER_SIZE + length);
      buffer := buffer[HEADER_SIZE + length..];
    }

    method ReadRecord(address: nat) returns (record: Option<seq<Octet>>)
      requires Valid()
      modifies this
      ensures Valid() && (Abs(), record) == Logical(file, old(Abs()), None)
      ensures SealedRead(file, old(Abs()), Place(old(Abs())), (Abs(), record))
    {
      LogicalIsSealed(file, Abs(), None, Place(Abs()));
      ghost var whole := Logical(file, Abs(), None);
      var inFragmentedRecord, scratch := false, [];
      while true
        invariant Valid()
        invariant Logical(file, Abs(), if inFragmentedRecord then Some(scratch) else None) == whole
        decreases Left(file, Abs())
      {
        ghost var scratch0 := if inFragmentedRecord then Some(scratch) else None;
        LogicalStep(file, Abs(), scratch0);
        var t, fragment := ReadPhysicalRecord(address);
        ghost var o := Take(scratch0, t, fragment, corruptions);
        assert whole == if o.Go? then Logical(file, Abs().(corruptions := o.corruptions), o.scratch)
            else (Abs().(corruptions := o.corruptions), o.record);
        if t == FULL {
          if inFragmentedRecord && scratch != [] {
            corruptions := corruptions + 1;
          }
          return Some(fragment);
        } else if t == FIRST {
          if inFragmentedRecord && scratch != [] {
            corruptions := corruptions + 1;
          }
          scratch, inFragmentedRecord := fragment, true;
        } else if t == MIDDLE {
          if !inFragmentedRecord {
            corruptions := corruptions + 1;
          } else {
            scratch := scratch + fragment;
          }
        } else if t == LAST {
          if !inFragmentedRecord {
            corruptions := corruptions + 1;
          } else {
            return Some(scratch + fragment);
          }
        } else if t == EOF {
          return None;
        } else {
          if t != BAD || inFragmentedRecord {
            corruptions := corruptions + 1;
          }
          inFragmentedRecord, scratch := false, [];
        }
      }
    }

    /** The replay loop: read until there is no further record. */
    method ReadAll(address: nat) returns (records: seq<seq<Octet>>)
      requires Valid()
      modifies this
      ensures Valid() && (Abs(), records) == All(file, old(Abs()))
    {
      records := [];
      ghost var whole := All(file, Abs());
      while true
        invariant Valid() && whole.0 == All(file, Abs()).0 && whole.1 == records + All(file, Abs()).1
        decreases Left(file, Abs())
      {
        ghost var rest := All(file, Abs()).1;
        AllStep(file, Abs());
        var record := ReadRecord(address);
        if record.None? {
          assert records + rest == records;
          return;
        }
        assert rest == [record.value] + All(file, Abs()).1;
        records := records + [record.value];
      }
    }
  }
}
