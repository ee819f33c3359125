/** The two numbers in the header of a write batch (db/write_batch.cc). */
module BatchHeader {
  import opened Wrappers
  import opened Coding
  import opened Varints

  /** c is the fixed-width code of n, modulo 2^32. */
  ghost predicate IsCount(c: Bytes, n: nat) {
    |c| == 4 && forall k {:trigger Unfold(k)} :: k == IN_HEADER && Unfold(k) ==>
        Unfixed(c[0], c[1], c[2], c[3]) == n % 0x1_0000_0000
  }

  ghost predicate IsSequence(c: Bytes, sequence: nat) {
    && |c| == 8
    && forall k {:trigger Unfold(k)} :: k == IN_HEADER && Unfold(k) ==>
        Unfixed(c[0], c[1], c[2], c[3]) + Unfixed(c[4], c[5], c[6], c[7]) * 0x1_0000_0000 == sequence
  }

  method EncodeCount(n: nat) returns (c: Bytes)
    ensures IsCount(c, n)
  {
    c := Fixed(n % 0x1_0000_0000);
    WordBack(n % 0x1_0000_0000, c);
  }

  method DecodeCount(c: Bytes, ghost n: nat) returns (r: nat)
    requires |c| == 4
    ensures IsCount(c, r) && r < LIMIT32
    ensures IsCount(c, n) ==> r == n % 0x1_0000_0000
  {
    r := Unfixed(c[0], c[1], c[2], c[3]);
    assert Unfold(IN_HEADER);
    var top: nat := c[3];
  }

  method EncodeSequence(n: nat) returns (c: Bytes)
    requires n < LIMIT64
    ensures IsSequence(c, n)
  {
    c := Fixed64(n);
    DoubleBack(n, c);
  }

  method DecodeSequence(c: Bytes, ghost n: nat) returns (r: nat)
    requires |c| == 8
    ensures IsSequence(c, n) ==> r == n
  {
    r := Unfixed(c[0], c[1], c[2], c[3]) + Unfixed(c[4], c[5], c[6], c[7]) * 0x1_0000_0000;
    assert Unfold(IN_HEADER);
  }

  lemma SequenceIs(c: Bytes, n: nat)
    requires n < LIMIT64 && c == Fixed64(n)
    ensures IsSequence(c, n)
  {
    DoubleBack(n, c);
  }

  lemma CountIs(c: Bytes, n: nat)
    requires n < LIMIT32 && c == Fixed(n)
    ensures IsCount(c, n)
  {
    WordBack(n, c);
  }

  lemma ZeroFixed(b: Bytes)
    requires |b| == 4 && forall i :: 0 <= i < 4 ==> b[i] == 0
    ensures b == Fixed(0)
  {
  }

  lemma ZeroFields(a: Bytes, b: Bytes)
    requires |a| == 8 && (forall i :: 0 <= i < 8 ==> a[i] == 0) && |b| == 4 && forall i :: 0 <= i < 4 ==> b[i] == 0
    ensures IsSequence(a, 0) && IsCount(b, 0)
  {
    ZeroFixed(b);
    CountIs(b, 0);
    assert a == b + b;
    assert Fixed64(0) == Fixed(0) + Fixed(0);
    SequenceIs(a, 0);
  }

  lemma AddWraps(a: nat, b: nat)
    ensures (a % 0x1_0000_0000 + b % 0x1_0000_0000) % 0x1_0000_0000 == (a + b) % 0x1_0000_0000
  {
  }

  lemma CountsAdd(a: nat, b: nat, n: nat, n': nat, c: Bytes)
    requires n == a % 0x1_0000_0000 && n' % 0x1_0000_0000 == b % 0x1_0000_0000 && IsCount(c, n + n')
    ensures IsCount(c, a + b)
  {
    AddWraps(a, b);
    AddWraps(n, n');
  }
}

/** A write batch as the bytes that go into the log (db/write_batch.cc, db/write_batch_internal.h). */
module WriteBatches {
  import opened Wrappers
  import opened Coding
  import opened Varints
  import opened BatchHeader

  datatype Op = Put(key: Bytes, value: Bytes) | Delete(key: Bytes)

  datatype Status = Ok | Corruption(message: string)

  /** MemTable::Add: an entry with its sequence number. */
  datatype Add = Add(sequence: nat, op: Op)

  const HEADER: nat := 12
  const TYPE_DELETION: Octet := 0
  const TYPE_VALUE: Octet := 1

  function OpBytes(op: Op): (r: Bytes)
    ensures |r| >= 1
  {
    match op
    case Put(key, value) => [TYPE_VALUE] + (Prefixed(key) + Prefixed(value))
    case Delete(key) => [TYPE_DELETION] + Prefixed(key)
  }

  /** The record of every operation, in order. */
  function Records(ops: seq<Op>): Bytes {
    Joined(OpBytes, ops, 0)
  }

  /** What rep_ looks like: sequence number and count, then a record for each operation. */
  ghost predicate IsBatch(rep: Bytes, sequence: nat, ops: seq<Op>) {
    |rep| >= HEADER && IsSequence(rep[..8], sequence) && IsCount(rep[8..12], |ops|) && rep[12..] == Records(ops)
  }

  predicate OpOk(op: Op) {
    |op.key| < LIMIT32 && (op.Put? ==> |op.value| < LIMIT32)
  }

  /** Operations numbered from first on. */
  function Numbered(first: nat, ops: seq<Op>): seq<Add> {
    seq(|ops|, i requires 0 <= i < |ops| => Add(first + i, ops[i]))
  }

  /** A record for op comes at p, and q is the place after it. */
  ghost predicate OpAt(rep: Bytes, p: nat, op: Op, q: nat) {
    p < |rep| && match op
      case Put(key, value) => rep[p] == TYPE_VALUE
        && exists m: nat :: SliceAt(rep, p + 1, key, m) && SliceAt(rep, m, value, q)
      case Delete(key) => rep[p] == TYPE_DELETION && SliceAt(rep, p + 1, key, q)
  }

  /** Records for calls follow the header, record i from ends[i] on. */
  ghost predicate OpsAt(rep: Bytes, calls: seq<Op>, ends: seq<nat>) {
    && |ends| == |calls| + 1 && ends[0] == HEADER
    && forall i :: 0 <= i < |calls| ==> OpAt(rep, ends[i], calls[i], ends[i + 1])
  }

  /** p is the end, or no record comes there. */
  ghost predicate NoMoreAt(rep: Bytes, p: nat) {
    p <= |rep| && (p < |rep| ==> forall op, q :: !OpAt(rep, p, op, q))
  }

  lemma HeaderReplaced(rep: Bytes, a: Bytes, b: Bytes, c: Bytes, d: Bytes)
    requires rep == a + b + c + d && |a| == 8 && |b| == 4
    ensures rep[..8] == a && rep[8..12] == b && rep[12..] == c + d
  {
  }

  lemma NothingYet(c: Bytes)
    requires |c| == HEADER && forall i :: 0 <= i < |c| ==> c[i] == 0
    ensures IsBatch(c, 0, [])
  {
    ZeroFields(c[..8], c[8..12]);
  }

  class WriteBatch {
    var rep: Bytes

    /** The batch holds these operations. */
    ghost predicate Holds(sequence: nat, ops: seq<Op>)
      reads this
    {
      IsBatch(rep, sequence, ops)
    }

    constructor ()
      ensures Holds(0, [])
    {
      var header := seq(HEADER, i => 0);
      rep := header;
      NothingYet(header);
    }

    method Clear()
      modifies this
      ensures Holds(0, [])
    {
      rep := seq(HEADER, i => 0);
      NothingYet(rep);
    }

    /** WriteBatchInternal::Count */
    method Count(ghost ops: seq<Op>) returns (n: nat)
      requires |rep| >= HEADER
      ensures n < LIMIT32 && IsCount(rep[8..12], n)
      ensures IsCount(rep[8..12], |ops|) ==> n == |ops| % 0x1_0000_0000
    {
      n := DecodeCount(rep[8..12], |ops|);
    }

    method SetCount(n: nat)
      requires |rep| >= HEADER
      modifies this
      ensures |rep| == old(|rep|) && rep[..8] == old(rep[..8]) && IsCount(rep[8..12], n) && rep[12..] == old(rep[12..])
    {
      var c := EncodeCount(n);
      HeaderReplaced(rep[..8] + c + rep[12..], rep[..8], c, rep[12..], []);
      rep := rep[..8] + c + rep[12..];
    }

    /** WriteBatchInternal::Sequence */
    method Sequence(ghost sequence: nat) returns (s: nat)
      requires |rep| >= HEADER
      ensures IsSequence(rep[..8], sequence) ==> s == sequence
    {
      s := DecodeSequence(rep[..8], sequence);
    }

    method SetSequence(sequence: nat, ghost before: nat, ghost ops: seq<Op>)
      requires Holds(before, ops) && sequence < LIMIT64
      modifies this
      ensures Holds(sequence, ops)
    {
      var c := EncodeSequence(sequence);
      HeaderReplaced(c + rep[8..], c, rep[8..12], rep[12..], []);
      rep := c + rep[8..];
    }

    method Put(key: Bytes, value: Bytes, ghost sequence: nat, ghost ops: seq<Op>)
      requires Holds(sequence, ops)
      modifies this
      ensures Holds(sequence, ops + [Op.Put(key, value)])
    {
      var n := Count(ops);
      SetCount(n + 1);
      RecordOfOne(Op.Put(key, value));
      ghost var was := rep;
      rep := rep + [TYPE_VALUE];
      rep := rep + Prefixed(key);
      rep := rep + Prefixed(value);
      Appended(old(rep), was, rep, sequence, ops, [Op.Put(key, value)], n, 1);
    }

    method Delete(key: Bytes, ghost sequence: nat, ghost ops: seq<Op>)
      requires Holds(sequence, ops)
      modifies this
      ensures Holds(sequence, ops + [Op.Delete(key)])
    {
      var n := Count(ops);
      SetCount(n + 1);
      RecordOfOne(Op.Delete(key));
      ghost var was := rep;
      rep := rep + [TYPE_DELETION];
      rep := rep + Prefixed(key);
      Appended(old(rep), was, rep, sequence, ops, [Op.Delete(key)], n, 1);
    }

    /** WriteBatchInternal::Append: the operations of src follow those of this batch. */
    method Append(src: WriteBatch, ghost sequence: nat, ghost ops: seq<Op>, ghost sequence': nat, ghost ops': seq<Op>)
      requires Holds(sequence, ops) && src.Holds(sequence', ops') && src != this
      modifies this
      ensures Holds(sequence, ops + ops')
    {
      var n := Count(ops);
      var n' := src.Count(ops');
      SetCount(n + n');
      ghost var was := rep;
      rep := rep + src.rep[HEADER..];
      Appended(old(rep), was, rep, sequence, ops, ops', n, n');
    }

    /** The calls that Iterate makes, in order, and what it reports.  Whatever the bytes are, the calls are for the
        records that come one after the other from the header on, up to the first place where there is none; and the
        report is success exactly if that place is the end and the header has the right count. */
    method Iterate(ghost sequence: nat, ghost ops: seq<Op>)
        returns (status: Status, calls: seq<Op>, ghost ends: seq<nat>)
      ensures Holds(sequence, ops) && |ops| < LIMIT32 && (forall i :: 0 <= i < |ops| ==> OpOk(ops[i])) ==>
          status == Ok && calls == ops
      ensures |rep| < HEADER ==> status != Ok && calls == []
      ensures |rep| >= HEADER ==> OpsAt(rep, calls, ends) && NoMoreAt(rep, ends[|calls|])
      ensures |rep| >= HEADER ==>
          (status == Ok <==> ends[|calls|] == |rep| && |calls| < LIMIT32 && IsCount(rep[8..12], |calls|))
    {
      calls, ends := [], [HEADER];
      if |rep| < HEADER {
        return Corruption("malformed WriteBatch (too small)"), calls, ends;
      }
      var p := HEADER;
      while p < |rep|
        invariant HEADER <= p <= |rep| && OpsAt(rep, calls, ends) && ends[|calls|] == p
        decreases |rep| - p
      {
        var op, q, message := ReadOp(rep, p);
        if q == None {
          if Holds(sequence, ops) && forall i :: 0 <= i < |ops| ==> OpOk(ops[i]) {
            RecordsBack(rep, ops, calls, ends, 0);
          }
          return Corruption(message), calls, ends;
        }
        calls, p, ends := calls + [op], q.value, ends + [q.value];
      }
      if Holds(sequence, ops) && forall i :: 0 <= i < |ops| ==> OpOk(ops[i]) {
        RecordsBack(rep, ops, calls, ends, 0);
      }
      var n := Count(calls);
      if |calls| != n {
        return Corruption("WriteBatch has wrong count"), calls, ends;
      }
      return Ok, calls, ends;
    }

    /** WriteBatchInternal::InsertInto: consecutive sequence numbers from that of the batch on. */
    method InsertInto(mem: seq<Add>, ghost sequence: nat, ghost ops: seq<Op>) returns (status: Status, mem': seq<Add>)
      requires |rep| >= HEADER
      ensures Holds(sequence, ops) && |ops| < LIMIT32 && (forall i :: 0 <= i < |ops| ==> OpOk(ops[i])) ==>
        status == Ok && mem' == mem + Numbered(sequence, ops)
    {
      var s := Sequence(sequence);
      var calls;
      ghost var ends;
      status, calls, ends := Iterate(sequence, ops);
      mem' := AddAll(mem, s, calls);
    }
  }

  /** MemTableInserter: each call adds an entry and counts the sequence number up. */
  method AddAll(mem: seq<Add>, first: nat, calls: seq<Op>) returns (mem': seq<Add>)
    ensures mem' == mem + Numbered(first, calls)
  {
    mem' := mem;
    var next := first;
    for i := 0 to |calls|
      invariant next == first + i && mem' == mem + Numbered(first, calls)[..i]
    {
      mem' := mem' + [Add(next, calls[i])];
      next := next + 1;
    }
  }

  /** One record: its operation and the place after it, or what is wrong with it. */
  method ReadOp(rep: Bytes, p: nat) returns (op: Op, q: Option<nat>, message: string)
    requires p < |rep|
    ensures q.Some? ==> p < q.value <= |rep| && OpAt(rep, p, op, q.value)
    ensures q.None? ==> forall x, e :: !OpAt(rep, p, x, e)
  {
    var tag := rep[p];
    message, q := "", None;
    op := Op.Delete([]);
    if tag == TYPE_VALUE {
      var key, at := GetPrefixed(rep, p + 1);
      if at.Some? {
        var value;
        value, q := GetPrefixed(rep, at.value);
        op := Op.Put(key, value);
      }
      message := "bad WriteBatch Put";
    } else if tag == TYPE_DELETION {
      var key;
      key, q := GetPrefixed(rep, p + 1);
      op := Op.Delete(key);
      message := "bad WriteBatch Delete";
    } else {
      message := "unknown WriteBatch tag";
    }
  }

  /** The record of op is the only one at its place. */
  lemma OpOfCode(rep: Bytes, p: nat, op: Op)
    requires OpOk(op) && At(rep, p, OpBytes(op))
    ensures OpAt(rep, p, op, p + |OpBytes(op)|)
    ensures forall x, e :: OpAt(rep, p, x, e) ==> x == op && e == p + |OpBytes(op)|
  {
    OpParts(rep, p, op);
    SliceOfCode(rep, p + 1, op.key);
    if op.Put? {
      SliceOfCode(rep, p + 1 + |Prefixed(op.key)|, op.value);
    }
  }

  /** The records of a well-formed batch are all there is to read. */
  lemma {:induction false} RecordsBack(rep: Bytes, ops: seq<Op>, calls: seq<Op>, ends: seq<nat>, i: nat)
    requires forall k :: 0 <= k < |ops| ==> OpOk(ops[k])
    requires OpsAt(rep, calls, ends) && NoMoreAt(rep, ends[|calls|])
    requires i <= |calls| && i <= |ops| && calls[..i] == ops[..i] && ends[i] <= |rep|
    requires rep[ends[i]..] == Joined(OpBytes, ops, i)
    ensures calls == ops && ends[|calls|] == |rep|
    decreases |ops| - i
  {
    if ends[i] < |rep| {
      StepOver(OpBytes, rep, ends[i], ops, i);
      OpOfCode(rep, ends[i], ops[i]);
      assert i < |calls| && OpAt(rep, ends[i], calls[i], ends[i + 1]);
      RecordsBack(rep, ops, calls, ends, i + 1);
    } else {
      Exhausted(OpBytes, ops, i);
      assert i < |calls| ==> OpAt(rep, ends[i], calls[i], ends[i + 1]);
      assert calls[..|ops|] == ops;
    }
  }

  lemma OpParts(rep: Bytes, p: nat, op: Op)
    requires At(rep, p, OpBytes(op))
    ensures rep[p] == (if op.Put? then TYPE_VALUE else TYPE_DELETION) && At(rep, p + 1, Prefixed(op.key))
    ensures op.Put? ==> At(rep, p + 1 + |Prefixed(op.key)|, Prefixed(op.value))
  {
    match op
    case Put(key, value) =>
      AtSplits(rep, p, [TYPE_VALUE], Prefixed(key) + Prefixed(value));
      AtSplits(rep, p + 1, Prefixed(key), Prefixed(value));
      assert rep[p] == rep[p..p + 1][0];
    case Delete(key) =>
      AtSplits(rep, p, [TYPE_DELETION], Prefixed(key));
      assert rep[p] == rep[p..p + 1][0];
  }

  lemma RecordOfOne(op: Op)
    ensures Records([op]) == OpBytes(op)
  {
    assert Joined(OpBytes, [op], 1) == [];
  }

  /** Records are added and counted: first the count is replaced, then bytes are put at the end. */
  lemma Appended(was: Bytes, counted: Bytes, rep: Bytes, sequence: nat, ops: seq<Op>, ops': seq<Op>, n: nat, n': nat)
    requires IsBatch(was, sequence, ops) && n == |ops| % 0x1_0000_0000 && n' % 0x1_0000_0000 == |ops'| % 0x1_0000_0000
    requires |counted| >= HEADER && counted[..8] == was[..8] && counted[12..] == was[12..]
        && IsCount(counted[8..12], n + n')
    requires rep == counted + Records(ops')
    ensures IsBatch(rep, sequence, ops + ops')
  {
    CountsAdd(|ops|, |ops'|, n, n', counted[8..12]);
    assert rep[..8] == counted[..8] && rep[8..12] == counted[8..12] && rep[12..] == counted[12..] + Records(ops');
    JoinedBoth(OpBytes, ops, ops', 0);
  }
}
