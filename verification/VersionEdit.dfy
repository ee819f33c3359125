/** A version edit as the bytes of a MANIFEST record (db/version_edit.h, db/version_edit.cc). */
module VersionEdits {
  import opened Wrappers
  import opened Varints

  /** FileMetaData; internal keys are their encodings. */
  datatype FileMeta = FileMeta(number: nat, size: nat, smallest: Bytes, largest: Bytes)

  /** One tagged item of the encoding. */
  datatype Item =
    | Comparator(name: Bytes)
    | LogNumber(n: nat)
    | PrevLogNumber(n: nat)
    | NextFileNumber(n: nat)
    | LastSequence(n: nat)
    | CompactPointer(level: nat, key: Bytes)
    | DeletedFile(level: nat, n: nat)
    | NewFile(level: nat, file: FileMeta)

  const NUM_LEVELS: nat := 7

  function Tag(item: Item): (r: nat)
    ensures 1 <= r <= 9
  {
    match item
    case Comparator(_) => 1
    case LogNumber(_) => 2
    case NextFileNumber(_) => 3
    case LastSequence(_) => 4
    case CompactPointer(_, _) => 5
    case DeletedFile(_, _) => 6
    case NewFile(_, _) => 7
    case PrevLogNumber(_) => 9
  }

  /** What follows the tag. */
  function Content(item: Item): Bytes {
    match item
    case Comparator(name) => Prefixed(name)
    case LogNumber(n) => Varint(n)
    case PrevLogNumber(n) => Varint(n)
    case NextFileNumber(n) => Varint(n)
    case LastSequence(n) => Varint(n)
    case CompactPointer(level, key) => Varint(level) + Prefixed(key)
    case DeletedFile(level, n) => Varint(level) + Varint(n)
    case NewFile(level, f) => Varint(level) + FileBytes(f)
  }

  predicate FileWidthOk(f: FileMeta) {
    f.number < LIMIT64 && f.size < LIMIT64 && |f.smallest| < LIMIT32 && |f.largest| < LIMIT32
  }

  function FileBytes(f: FileMeta): Bytes {
    Varint(f.number) + (Varint(f.size) + (Prefixed(f.smallest) + Prefixed(f.largest)))
  }

  function ItemBytes(item: Item): (r: Bytes)
    ensures |r| >= 1
  {
    Varint(Tag(item)) + Content(item)
  }

  /** The numbers have the widths of their C++ types. */
  predicate WidthOk(item: Item) {
    match item
    case Comparator(name) => |name| < LIMIT32
    case CompactPointer(level, key) => level < LIMIT32 && |key| < LIMIT32
    case DeletedFile(level, n) => level < LIMIT32 && n < LIMIT64
    case NewFile(level, f) =>
      level < LIMIT32 && FileWidthOk(f)
    case _ => item.n < LIMIT64
  }

  predicate LevelOk(item: Item) {
    item.CompactPointer? || item.DeletedFile? || item.NewFile? ==> item.level < NUM_LEVELS
  }

  // ----- the fields of an edit -----

  datatype Fields = Fields(
    comparator: Option<Bytes>,
    logNumber: Option<nat>,
    prevLogNumber: Option<nat>,
    nextFileNumber: Option<nat>,
    lastSequence: Option<nat>,
    compactPointers: seq<(nat, Bytes)>,
    deletedFiles: seq<(nat, nat)>,      // std::set: in increasing order
    newFiles: seq<(nat, FileMeta)>)

  const NO_FIELDS: Fields := Fields(None, None, None, None, None, [], [], [])

  predicate PairBefore(a: (nat, nat), b: (nat, nat)) {
    a.0 < b.0 || (a.0 == b.0 && a.1 < b.1)
  }

  ghost predicate InPairOrder(s: seq<(nat, nat)>) {
    forall i, j :: 0 <= i < j < |s| ==> PairBefore(s[i], s[j])
  }

  /** std::set insertion. */
  function InsertPair(s: seq<(nat, nat)>, x: (nat, nat)): seq<(nat, nat)> {
    if s == [] then [x]
    else if PairBefore(x, s[0]) then [x] + s
    else if x == s[0] then s
    else [s[0]] + InsertPair(s[1..], x)
  }

  lemma {:induction false} InsertPairKeepsOrder(s: seq<(nat, nat)>, x: (nat, nat))
    requires InPairOrder(s)
    ensures InPairOrder(InsertPair(s, x)) && forall y :: y in InsertPair(s, x) <==> y in s || y == x
  {
    if s != [] && !PairBefore(x, s[0]) && x != s[0] {
      InsertPairKeepsOrder(s[1..], x);
      assert s == [s[0]] + s[1..];
      var t := InsertPair(s[1..], x);
      forall j | 0 <= j < |t| ensures PairBefore(s[0], t[j]) {
        assert t[j] in t;
      }
    }
  }

  lemma {:induction false} InsertPairLast(s: seq<(nat, nat)>, x: (nat, nat))
    requires forall i :: 0 <= i < |s| ==> PairBefore(s[i], x)
    ensures InsertPair(s, x) == s + [x]
  {
    if s != [] {
      InsertPairLast(s[1..], x);
    }
  }

  /** What reading an item does. */
  function Set(f: Fields, item: Item): Fields {
    match item
    case Comparator(name) => f.(comparator := Some(name))
    case LogNumber(n) => f.(logNumber := Some(n))
    case PrevLogNumber(n) => f.(prevLogNumber := Some(n))
    case NextFileNumber(n) => f.(nextFileNumber := Some(n))
    case LastSequence(n) => f.(lastSequence := Some(n))
    case CompactPointer(level, key) => f.(compactPointers := f.compactPointers + [(level, key)])
    case DeletedFile(level, n) => f.(deletedFiles := InsertPair(f.deletedFiles, (level, n)))
    case NewFile(level, file) => f.(newFiles := f.newFiles + [(level, file)])
  }

  function SetAll(f: Fields, items: seq<Item>): Fields {
    if items == [] then f else Set(SetAll(f, items[..|items| - 1]), items[|items| - 1])
  }

  /** The items that EncodeTo writes, in its order. */
  function Items(f: Fields): seq<Item> {
    Scalars(f) + Pointers(f.compactPointers) + Deletions(f.deletedFiles) + Additions(f.newFiles)
  }

  function OneOf(item: Option<Item>): seq<Item> {
    if item.Some? then [item.value] else []
  }

  function ComparatorItem(name: Option<Bytes>): Option<Item> {
    if name.Some? then Some(Comparator(name.value)) else None
  }

  function LogItem(n: Option<nat>): Option<Item> {
    if n.Some? then Some(LogNumber(n.value)) else None
  }

  function PrevLogItem(n: Option<nat>): Option<Item> {
    if n.Some? then Some(PrevLogNumber(n.value)) else None
  }

  function NextFileItem(n: Option<nat>): Option<Item> {
    if n.Some? then Some(NextFileNumber(n.value)) else None
  }

  function LastSequenceItem(n: Option<nat>): Option<Item> {
    if n.Some? then Some(LastSequence(n.value)) else None
  }

  function Scalars(f: Fields): seq<Item> {
    OneOf(ComparatorItem(f.comparator)) + OneOf(LogItem(f.logNumber)) + OneOf(PrevLogItem(f.prevLogNumber))
    + OneOf(NextFileItem(f.nextFileNumber)) + OneOf(LastSequenceItem(f.lastSequence))
  }

  function Pointers(s: seq<(nat, Bytes)>): seq<Item> {
    seq(|s|, i requires 0 <= i < |s| => CompactPointer(s[i].0, s[i].1))
  }

  function Deletions(s: seq<(nat, nat)>): seq<Item> {
    seq(|s|, i requires 0 <= i < |s| => DeletedFile(s[i].0, s[i].1))
  }

  function Additions(s: seq<(nat, FileMeta)>): seq<Item> {
    seq(|s|, i requires 0 <= i < |s| => NewFile(s[i].0, s[i].1))
  }

  // ----- setting the items of an edit gives the edit -----

  lemma {:induction false} SetBoth(f: Fields, a: seq<Item>, b: seq<Item>)
    ensures SetAll(f, a + b) == SetAll(SetAll(f, a), b)
    decreases |b|
  {
    if b == [] {
      assert a + b == a;
    } else {
      SetBoth(f, a, b[..|b| - 1]);
      assert (a + b)[..|a + b| - 1] == a + b[..|b| - 1];
    }
  }

  lemma SetNoneOrOne(f: Fields, items: seq<Item>)
    ensures items == [] ==> SetAll(f, items) == f
    ensures |items| == 1 ==> SetAll(f, items) == Set(f, items[0])
  {
    if |items| == 1 {
      assert SetAll(f, items[..0]) == f;
    }
  }

  lemma SetNext(f: Fields, items: seq<Item>, item: Item)
    ensures SetAll(f, items + [item]) == Set(SetAll(f, items), item)
  {
    assert (items + [item])[..|items|] == items;
  }

  /** Five numbers and names at most, each into a field of its own. */
  lemma SetFive(f: Fields, a: seq<Item>, b: seq<Item>, c: seq<Item>, d: seq<Item>, e: seq<Item>)
    ensures SetAll(f, a + b + c + d + e) == SetAll(SetAll(SetAll(SetAll(SetAll(f, a), b), c), d), e)
  {
    SetBoth(f, a + b + c + d, e);
    SetBoth(f, a + b + c, d);
    SetBoth(f, a + b, c);
    SetBoth(f, a, b);
  }

  lemma ScalarsBack(g: Fields, f: Fields)
    requires g.comparator == None && g.logNumber == g.prevLogNumber == g.nextFileNumber == g.lastSequence == None
    ensures SetAll(g, Scalars(f)) == g.(comparator := f.comparator, logNumber := f.logNumber,
        prevLogNumber := f.prevLogNumber,
                                        nextFileNumber := f.nextFileNumber, lastSequence := f.lastSequence)
  {
    var a, b, c := OneOf(ComparatorItem(f.comparator)), OneOf(LogItem(f.logNumber)),
        OneOf(PrevLogItem(f.prevLogNumber));
    var d, e := OneOf(NextFileItem(f.nextFileNumber)), OneOf(LastSequenceItem(f.lastSequence));
    SetFive(g, a, b, c, d, e);
    SetNoneOrOne(g, a);
    var g1 := g.(comparator := f.comparator);
    SetNoneOrOne(g1, b);
    var g2 := g1.(logNumber := f.logNumber);
    SetNoneOrOne(g2, c);
    var g3 := g2.(prevLogNumber := f.prevLogNumber);
    SetNoneOrOne(g3, d);
    SetNoneOrOne(g3.(nextFileNumber := f.nextFileNumber), e);
  }

  lemma {:induction false} PointersBack(g: Fields, s: seq<(nat, Bytes)>)
    ensures SetAll(g, Pointers(s)) == g.(compactPointers := g.compactPointers + s)
    decreases |s|
  {
    if s != [] {
      var t := s[..|s| - 1];
      PointersBack(g, t);
      assert Pointers(s) == Pointers(t) + [CompactPointer(s[|s| - 1].0, s[|s| - 1].1)];
      SetNext(g, Pointers(t), CompactPointer(s[|s| - 1].0, s[|s| - 1].1));
      assert g.compactPointers + t + [s[|s| - 1]] == g.compactPointers + s;
    } else {
      assert g.compactPointers + s == g.compactPointers;
    }
  }

  lemma {:induction false} AdditionsBack(g: Fields, s: seq<(nat, FileMeta)>)
    ensures SetAll(g, Additions(s)) == g.(newFiles := g.newFiles + s)
    decreases |s|
  {
    if s != [] {
      var t := s[..|s| - 1];
      AdditionsBack(g, t);
      assert Additions(s) == Additions(t) + [NewFile(s[|s| - 1].0, s[|s| - 1].1)];
      SetNext(g, Additions(t), NewFile(s[|s| - 1].0, s[|s| - 1].1));
      assert g.newFiles + t + [s[|s| - 1]] == g.newFiles + s;
    } else {
      assert g.newFiles + s == g.newFiles;
    }
  }

  lemma {:induction false} DeletionsBack(g: Fields, s: seq<(nat, nat)>)
    requires InPairOrder(s) && g.deletedFiles == []
    ensures SetAll(g, Deletions(s)) == g.(deletedFiles := s)
    decreases |s|
  {
    if s != [] {
      var t, x := s[..|s| - 1], s[|s| - 1];
      DeletionsBack(g, t);
      assert Deletions(s) == Deletions(t) + [DeletedFile(x.0, x.1)];
      SetNext(g, Deletions(t), DeletedFile(x.0, x.1));
      InsertPairLast(t, x);
      assert t + [x] == s;
    }
  }

  /** Setting all items of f, from an edit that has kept some compaction pointers and nothing else. */
  lemma ItemsBack(f: Fields, kept: seq<(nat, Bytes)>)
    requires InPairOrder(f.deletedFiles)
    ensures SetAll(NO_FIELDS.(compactPointers := kept), Items(f)) == f.(compactPointers := kept + f.compactPointers)
  {
    var g := NO_FIELDS.(compactPointers := kept);
    var a, b, c, d := Scalars(f), Pointers(f.compactPointers), Deletions(f.deletedFiles), Additions(f.newFiles);
    SetBoth(g, a + b + c, d);
    SetBoth(g, a + b, c);
    SetBoth(g, a, b);
    ScalarsBack(g, f);
    var g1 := SetAll(g, a);
    PointersBack(g1, f.compactPointers);
    var g2 := SetAll(g1, b);
    DeletionsBack(g2, f.deletedFiles);
    var g3 := SetAll(g2, c);
    AdditionsBack(g3, f.newFiles);
    assert [] + f.newFiles == f.newFiles;
  }

  // ----- bytes -----

  lemma JoinedOne(item: Item)
    ensures Joined(ItemBytes, [item], 0) == ItemBytes(item)
  {
    assert Joined(ItemBytes, [item], 1) == [];
  }

  method PutContent(dst: Bytes, item: Item) returns (dst': Bytes)
    ensures dst' == dst + Content(item)
  {
    match item {
      case Comparator(name) =>
        dst' := dst + Prefixed(name);
      case CompactPointer(level, key) =>
        dst' := dst + Varint(level);
        dst' := dst' + Prefixed(key);
      case DeletedFile(level, n) =>
        dst' := dst + Varint(level);
        dst' := dst' + Varint(n);
      case NewFile(level, f) =>
        dst' := PutFile(dst + Varint(level), f);
        assert dst' == dst + (Varint(level) + FileBytes(f));
      case _ =>
        dst' := dst + Varint(item.n);
    }
  }

  method PutFile(dst: Bytes, f: FileMeta) returns (dst': Bytes)
    ensures dst' == dst + FileBytes(f)
  {
    dst' := dst + Varint(f.number);
    dst' := dst' + Varint(f.size);
    dst' := dst' + Prefixed(f.smallest);
    dst' := dst' + Prefixed(f.largest);
    InOrder(dst, Varint(f.number), Varint(f.size), Prefixed(f.smallest), Prefixed(f.largest));
  }

  lemma InOrder(dst: Bytes, a: Bytes, b: Bytes, c: Bytes, d: Bytes)
    ensures dst + a + b + c + d == dst + (a + (b + (c + d)))
  {
  }

  lemma Regroup(before: Bytes, joined: Bytes, tag: Bytes, content: Bytes)
    ensures before + joined + tag + content == before + (joined + (tag + content))
  {
  }

  lemma JoinedPush(done: seq<Item>, item: Item)
    ensures Joined(ItemBytes, done + [item], 0) == Joined(ItemBytes, done, 0) + (Varint(Tag(item)) + Content(item))
  {
    JoinedBoth(ItemBytes, done, [item], 0);
    JoinedOne(item);
  }

  /** The items have been appended to what was there before. */
  ghost predicate Written(dst: Bytes, before: Bytes, done: seq<Item>) {
    forall n {:trigger Unfold(n)} :: n == IN_WRITTEN && Unfold(n) ==> dst == before + Joined(ItemBytes, done, 0)
  }

  lemma WrittenItem(dst: Bytes, item: Item, before: Bytes, done: seq<Item>)
    requires Written(dst, before, done)
    ensures Written(dst + Varint(Tag(item)) + Content(item), before, done + [item])
  {
    assert Unfold(IN_WRITTEN);
    JoinedPush(done, item);
    Regroup(before, Joined(ItemBytes, done, 0), Varint(Tag(item)), Content(item));
  }

  lemma WrittenIs(dst: Bytes, before: Bytes, done: seq<Item>)
    ensures Written(dst, before, done) <==> dst == before + Joined(ItemBytes, done, 0)
  {
    assert Unfold(IN_WRITTEN);
  }

  /** Tag and content, as written. */
  method PutItem(dst: Bytes, item: Item, ghost before: Bytes, ghost done: seq<Item>) returns (dst': Bytes)
    requires Written(dst, before, done)
    ensures Written(dst', before, done + [item])
  {
    WrittenItem(dst, item, before, done);
    dst' := PutContent(dst + Varint(Tag(item)), item);
  }

  method PutOption(dst: Bytes, item: Option<Item>, ghost before: Bytes, ghost done: seq<Item>) returns (dst': Bytes)
    requires Written(dst, before, done)
    ensures Written(dst', before, done + OneOf(item))
  {
    if item.None? {
      assert done + [] == done;
      return dst;
    }
    dst' := PutItem(dst, item.value, before, done);
  }

  method PutAll(dst: Bytes, items: seq<Item>, ghost before: Bytes, ghost done: seq<Item>) returns (dst': Bytes)
    requires Written(dst, before, done)
    ensures Written(dst', before, done + items)
  {
    dst' := dst;
    assert done + items[..0] == done;
    for i := 0 to |items|
      invariant Written(dst', before, done + items[..i])
    {
      dst' := PutItem(dst', items[i], before, done + items[..i]);
      assert done + items[..i] + [items[i]] == done + items[..i + 1];
    }
    assert items[..|items|] == items;
  }

  datatype Status = Ok | Corruption(message: string)

  // ----- what comes at a place, whatever the bytes -----

  ghost predicate LevelAt(data: Bytes, p: nat, level: nat, q: nat) {
    Number32(data, p, |data|) == Some(Numeral(level, q)) && level < NUM_LEVELS
  }

  ghost predicate FileAt(data: Bytes, p: nat, f: FileMeta, q: nat) {
    exists m: nat :: VarintAt(data, p, f.number, m) && SizeAt(data, m, f.size, f.smallest, f.largest, q)
  }

  /** The size, and what follows it. */
  ghost predicate SizeAt(data: Bytes, p: nat, size: nat, smallest: Bytes, largest: Bytes, q: nat) {
    exists m: nat :: VarintAt(data, p, size, m) && KeysAt(data, m, smallest, largest, q)
  }

  ghost predicate KeysAt(data: Bytes, p: nat, smallest: Bytes, largest: Bytes, q: nat) {
    exists m: nat :: SliceAt(data, p, smallest, m) && SliceAt(data, m, largest, q)
  }

  /** The content of an item. */
  ghost predicate ContentAt(data: Bytes, p: nat, item: Item, q: nat) {
    match item
    case Comparator(name) => SliceAt(data, p, name, q)
    case CompactPointer(level, key) => exists m: nat :: LevelAt(data, p, level, m) && SliceAt(data, m, key, q)
    case DeletedFile(level, n) => exists m: nat :: LevelAt(data, p, level, m) && VarintAt(data, m, n, q)
    case NewFile(level, f) => exists m: nat :: LevelAt(data, p, level, m) && FileAt(data, m, f, q)
    case _ => VarintAt(data, p, item.n, q)
  }

  /** A tag, and the content of an item with that tag; q is the place after it. */
  ghost predicate ItemAt(data: Bytes, p: nat, item: Item, q: nat) {
    var tag := Number32(data, p, |data|);
    tag.Some? && tag.value.value == Tag(item) && ContentAt(data, tag.value.next, item, q)
  }

  /** Items one after the other, item i from ends[i] on. */
  ghost predicate ItemsAt(data: Bytes, items: seq<Item>, ends: seq<nat>) {
    && |ends| == |items| + 1 && ends[0] == 0
    && forall n {:trigger Unfold(n)} :: n == IN_READING && Unfold(n) ==>
      forall i :: 0 <= i < |items| ==> ItemAt(data, ends[i], items[i], ends[i + 1])
  }

  ghost predicate NoItemAt(data: Bytes, p: nat) {
    forall n {:trigger Unfold(n)} :: n == IN_READING && Unfold(n) ==> forall x, e :: !ItemAt(data, p, x, e)
  }

  lemma ItemsGrow(data: Bytes, items: seq<Item>, ends: seq<nat>, item: Item, q: nat)
    requires ItemsAt(data, items, ends) && ItemAt(data, ends[|items|], item, q)
    ensures ItemsAt(data, items + [item], ends + [q])
  {
    assert Unfold(IN_READING);
  }

  /** GetLevel */
  method GetLevel(data: Bytes, p: nat) returns (level: nat, q: Option<nat>)
    requires p <= |data|
    ensures q.Some? ==> p < q.value <= |data| && LevelAt(data, p, level, q.value)
    ensures q.None? ==> forall x, e :: !LevelAt(data, p, x, e)
  {
    level, q := GetVarint32(data, p, |data|);
    if q.Some? && level >= NUM_LEVELS {
      q := None;
    }
  }

  /** One item after its tag: the item and the place after it, or what is wrong with it. */
  method GetContent(data: Bytes, p: nat, tag: nat) returns (item: Item, q: Option<nat>, message: string)
    requires p <= |data|
    ensures q.Some? ==> p < q.value <= |data| && tag == Tag(item) && ContentAt(data, p, item, q.value)
    ensures q.None? ==> forall x, e :: tag == Tag(x) ==> !ContentAt(data, p, x, e)
  {
    item, message := Comparator([]), "unknown tag";
    q := None;
    if tag == 1 {
      var name;
      name, q := GetPrefixed(data, p);
      item, message := Comparator(name), "comparator name";
    } else if tag == 2 || tag == 3 || tag == 4 || tag == 9 {
      var n;
      n, q := GetVarint64(data, p);
      item, message := NumberItem(tag, n);
    } else if tag == 5 {
      item, q := GetPointer(data, p);
      message := "compaction pointer";
    } else if tag == 6 {
      item, q := GetDeletion(data, p);
      message := "deleted file";
    } else if tag == 7 {
      item, q := GetAddition(data, p);
      message := "new-file entry";
    }
  }

  method NumberItem(tag: nat, n: nat) returns (item: Item, message: string)
    requires tag == 2 || tag == 3 || tag == 4 || tag == 9
    ensures !item.Comparator? && !item.CompactPointer? && !item.DeletedFile? && !item.NewFile? && Tag(item) == tag
        && item.n == n
  {
    if tag == 2 {
      return LogNumber(n), "log number";
    } else if tag == 3 {
      return NextFileNumber(n), "next file number";
    } else if tag == 4 {
      return LastSequence(n), "last sequence number";
    }
    return PrevLogNumber(n), "previous log number";
  }

  method GetPointer(data: Bytes, p: nat) returns (item: Item, q: Option<nat>)
    requires p <= |data|
    ensures q.Some? ==> p < q.value <= |data| && item.CompactPointer? && ContentAt(data, p, item, q.value)
    ensures q.None? ==> forall x: Item, e :: x.CompactPointer? ==> !ContentAt(data, p, x, e)
  {
    var level, key;
    item := CompactPointer(0, []);
    level, q := GetLevel(data, p);
    if q.Some? {
      key, q := GetPrefixed(data, q.value);
      item := CompactPointer(level, key);
    }
  }

  method GetDeletion(data: Bytes, p: nat) returns (item: Item, q: Option<nat>)
    requires p <= |data|
    ensures q.Some? ==> p < q.value <= |data| && item.DeletedFile? && ContentAt(data, p, item, q.value)
    ensures q.None? ==> forall x: Item, e :: x.DeletedFile? ==> !ContentAt(data, p, x, e)
  {
    var level, n;
    item := DeletedFile(0, 0);
    level, q := GetLevel(data, p);
    if q.Some? {
      n, q := GetVarint64(data, q.value);
      item := DeletedFile(level, n);
    }
  }

  method GetAddition(data: Bytes, p: nat) returns (item: Item, q: Option<nat>)
    requires p <= |data|
    ensures q.Some? ==> p < q.value <= |data| && item.NewFile? && ContentAt(data, p, item, q.value)
    ensures q.None? ==> forall x: Item, e :: x.NewFile? ==> !ContentAt(data, p, x, e)
  {
    var level, f;
    item := NewFile(0, FileMeta(0, 0, [], []));
    level, q := GetLevel(data, p);
    if q.Some? {
      f, q := GetFile(data, q.value);
      item := NewFile(level, f);
    }
  }

  method GetFile(data: Bytes, p: nat) returns (f: FileMeta, q: Option<nat>)
    requires p <= |data|
    ensures q.Some? ==> p < q.value <= |data| && FileAt(data, p, f, q.value)
    ensures q.None? ==> forall x, e :: !FileAt(data, p, x, e)
  {
    var number;
    f := FileMeta(0, 0, [], []);
    number, q := GetVarint64(data, p);
    if q.None? {
      return;
    }
    var p1 := q.value;
    OneNumberAt(data, p, Some(Numeral(number, p1)));
    var size, smallest, largest;
    size, smallest, largest, q := GetSize(data, p1);
    f := FileMeta(number, size, smallest, largest);
  }

  method GetSize(data: Bytes, p: nat) returns (size: nat, smallest: Bytes, largest: Bytes, q: Option<nat>)
    requires p <= |data|
    ensures q.Some? ==> p < q.value <= |data| && SizeAt(data, p, size, smallest, largest, q.value)
    ensures q.None? ==> forall n, x, y, e :: !SizeAt(data, p, n, x, y, e)
  {
    smallest, largest := [], [];
    size, q := GetVarint64(data, p);
    if q.Some? {
      var m := q.value;
      OneNumberAt(data, p, Some(Numeral(size, m)));
      smallest, largest, q := GetKeys(data, m);
    }
  }

  method GetKeys(data: Bytes, p: nat) returns (smallest: Bytes, largest: Bytes, q: Option<nat>)
    requires p <= |data|
    ensures q.Some? ==> p < q.value <= |data| && KeysAt(data, p, smallest, largest, q.value)
    ensures q.None? ==> forall x, y, e :: !KeysAt(data, p, x, y, e)
  {
    largest := [];
    smallest, q := GetPrefixed(data, p);
    if q.Some? {
      largest, q := GetPrefixed(data, q.value);
    }
  }

  lemma FileParts(data: Bytes, p: nat, f: FileMeta)
    ensures At(data, p, FileBytes(f)) ==>
      var p1 := p + |Varint(f.number)|;
      var p2 := p1 + |Varint(f.size)|;
      var p3 := p2 + |Prefixed(f.smallest)|;
      && At(data, p, Varint(f.number)) && At(data, p1, Varint(f.size)) && At(data, p2, Prefixed(f.smallest))
          && At(data, p3, Prefixed(f.largest))
      && p3 + |Prefixed(f.largest)| == p + |FileBytes(f)|
  {
    FourParts(data, p, Varint(f.number), Varint(f.size), Prefixed(f.smallest), Prefixed(f.largest));
  }

  lemma FourParts(data: Bytes, p: nat, a: Bytes, b: Bytes, c: Bytes, d: Bytes)
    ensures At(data, p, a + (b + (c + d))) ==>
      At(data, p, a) && At(data, p + |a|, b) && At(data, p + |a| + |b|, c) && At(data, p + |a| + |b| + |c|, d)
  {
    AtSplits(data, p, a, b + (c + d));
    AtSplits(data, p + |a|, b, c + d);
    AtSplits(data, p + |a| + |b|, c, d);
  }

  ghost predicate WidthsOk(items: seq<Item>) {
    forall x :: x in items ==> WidthOk(x)
  }

  lemma LevelOfCode(data: Bytes, p: nat, level: nat)
    requires level < LIMIT32 && At(data, p, Varint(level))
    ensures forall x, e :: LevelAt(data, p, x, e) <==> x == level < NUM_LEVELS && e == p + |Varint(level)|
  {
    NumberOfCode(data, p, |data|, level);
  }

  lemma KeysOfCode(data: Bytes, p: nat, a: Bytes, b: Bytes)
    requires |a| < LIMIT32 && |b| < LIMIT32 && At(data, p, Prefixed(a)) && At(data, p + |Prefixed(a)|, Prefixed(b))
    ensures forall x, y, e :: KeysAt(data, p, x, y, e) <==> x == a && y == b && e == p + |Prefixed(a)| + |Prefixed(b)|
  {
    SliceOfCode(data, p, a);
    SliceOfCode(data, p + |Prefixed(a)|, b);
  }

  lemma SizeOfCode(data: Bytes, p: nat, f: FileMeta)
    requires FileWidthOk(f) && At(data, p, Varint(f.size)) && At(data, p + |Varint(f.size)|, Prefixed(f.smallest))
    requires At(data, p + |Varint(f.size)| + |Prefixed(f.smallest)|, Prefixed(f.largest))
    ensures forall n, x, y, e :: SizeAt(data, p, n, x, y, e) <==>
      && n == f.size && x == f.smallest && y == f.largest
      && e == p + |Varint(f.size)| + |Prefixed(f.smallest)| + |Prefixed(f.largest)|
  {
    VarintOfCode(data, p, f.size);
    KeysOfCode(data, p + |Varint(f.size)|, f.smallest, f.largest);
  }

  lemma FileOfCode(data: Bytes, p: nat, f: FileMeta)
    requires FileWidthOk(f) && At(data, p, FileBytes(f))
    ensures forall x, e :: FileAt(data, p, x, e) <==> x == f && e == p + |FileBytes(f)|
  {
    FileParts(data, p, f);
    VarintOfCode(data, p, f.number);
    SizeOfCode(data, p + |Varint(f.number)|, f);
  }

  lemma PointerOfCode(data: Bytes, p: nat, item: Item)
    requires item.CompactPointer? && WidthOk(item) && At(data, p, Content(item))
    ensures forall x: Item, e :: x.CompactPointer? ==>
      (ContentAt(data, p, x, e) <==> LevelOk(item) && x == item && e == p + |Content(item)|)
  {
    AtSplits(data, p, Varint(item.level), Prefixed(item.key));
    LevelOfCode(data, p, item.level);
    SliceOfCode(data, p + |Varint(item.level)|, item.key);
  }

  lemma DeletionOfCode(data: Bytes, p: nat, item: Item)
    requires item.DeletedFile? && WidthOk(item) && At(data, p, Content(item))
    ensures forall x: Item, e :: x.DeletedFile? ==>
      (ContentAt(data, p, x, e) <==> LevelOk(item) && x == item && e == p + |Content(item)|)
  {
    AtSplits(data, p, Varint(item.level), Varint(item.n));
    LevelOfCode(data, p, item.level);
    VarintOfCode(data, p + |Varint(item.level)|, item.n);
  }

  lemma AdditionOfCode(data: Bytes, p: nat, item: Item)
    requires item.NewFile? && WidthOk(item) && At(data, p, Content(item))
    ensures forall x: Item, e :: x.NewFile? ==>
      (ContentAt(data, p, x, e) <==> LevelOk(item) && x == item && e == p + |Content(item)|)
  {
    AtSplits(data, p, Varint(item.level), FileBytes(item.file));
    LevelOfCode(data, p, item.level);
    FileOfCode(data, p + |Varint(item.level)|, item.file);
    assert |Content(item)| == |Varint(item.level)| + |FileBytes(item.file)|;
    if LevelOk(item) {
      assert LevelAt(data, p, item.level, p + |Varint(item.level)|);
    }
  }

  /** Where an item was encoded, it comes if its level exists, and nothing else does. */
  lemma ContentOfCode(data: Bytes, p: nat, item: Item)
    requires WidthOk(item) && At(data, p, Content(item))
    ensures LevelOk(item) ==> ContentAt(data, p, item, p + |Content(item)|)
    ensures forall x, e :: Tag(x) == Tag(item) && ContentAt(data, p, x, e) ==>
        LevelOk(item) && x == item && e == p + |Content(item)|
  {
    match item
    case Comparator(name) => SliceOfCode(data, p, name);
    case CompactPointer(_, _) => PointerOfCode(data, p, item);
    case DeletedFile(_, _) => DeletionOfCode(data, p, item);
    case NewFile(_, _) => AdditionOfCode(data, p, item);
    case _ => VarintOfCode(data, p, item.n);
  }

  lemma ItemOfCode(data: Bytes, p: nat, item: Item)
    requires WidthOk(item) && At(data, p, ItemBytes(item))
    ensures LevelOk(item) ==> ItemAt(data, p, item, p + |ItemBytes(item)|)
    ensures forall x, e :: ItemAt(data, p, x, e) ==> LevelOk(item) && x == item && e == p + |ItemBytes(item)|
  {
    AtSplits(data, p, Varint(Tag(item)), Content(item));
    NumberOfCode(data, p, |data|, Tag(item));
    ContentOfCode(data, p + |Varint(Tag(item))|, item);
  }

  /** What was read from a place on: the item encoded there, if its level exists, and else nothing. */
  lemma NextOfCode(src: Bytes, items: seq<Item>, ends: seq<nat>, i: nat, item: Item)
    requires ItemsAt(src, items, ends) && (ends[|items|] < |src| ==> NoItemAt(src, ends[|items|]))
    requires i <= |items| && ends[i] < |src| && WidthOk(item) && At(src, ends[i], ItemBytes(item))
    ensures LevelOk(item) ==> i < |items| && items[i] == item && ends[i + 1] == ends[i] + |ItemBytes(item)|
    ensures !LevelOk(item) ==> i == |items|
  {
    assert Unfold(IN_READING);
    ItemOfCode(src, ends[i], item);
    assert i < |items| ==> ItemAt(src, ends[i], items[i], ends[i + 1]);
  }

  lemma NothingAtEnd(src: Bytes, items: seq<Item>, ends: seq<nat>, i: nat)
    requires ItemsAt(src, items, ends) && i <= |items| && ends[i] == |src|
    ensures i == |items|
  {
    assert Unfold(IN_READING);
    assert i < |items| ==> ItemAt(src, ends[i], items[i], ends[i + 1]);
  }

  /** Of the items encoded, the first i have been found. */
  ghost predicate FoundSoFar(src: Bytes, items0: seq<Item>, items: seq<Item>, ends: seq<nat>, i: nat) {
    && |ends| == |items| + 1 && i <= |items0| && i <= |items| && ends[i] <= |src| && LevelsOk(items0, i)
    && items[..i] == items0[..i] && src[ends[i]..] == Joined(ItemBytes, items0, i)
  }

  lemma AllFound(src: Bytes, items0: seq<Item>, items: seq<Item>, ends: seq<nat>, i: nat)
    requires FoundSoFar(src, items0, items, ends, i) && ItemsAt(src, items, ends) && ends[i] == |src|
    ensures i == |items0| && items == items0
  {
    assert src[ends[i]..] == [];
    Exhausted(ItemBytes, items0, i);
    NothingAtEnd(src, items, ends, i);
    assert items[..i] == items && items0[..i] == items0;
  }

  lemma OneMoreFound(src: Bytes, items0: seq<Item>, items: seq<Item>, ends: seq<nat>, i: nat)
    requires FoundSoFar(src, items0, items, ends, i) && ItemsAt(src, items, ends) && WidthsOk(items0)
    requires ends[i] < |src| && (ends[|items|] < |src| ==> NoItemAt(src, ends[|items|]))
    ensures i < |items0|
    ensures LevelOk(items0[i]) ==> i < |items| && FoundSoFar(src, items0, items, ends, i + 1)
    ensures !LevelOk(items0[i]) ==> i == |items|
  {
    StepOver(ItemBytes, src, ends[i], items0, i);
    var item := items0[i];
    assert item in items0;
    NextOfCode(src, items, ends, i, item);
    if LevelOk(item) {
      LevelsNext(items0, i);
      SamePrefixGrows(items, items0, i);
    }
  }

  lemma SamePrefixGrows(a: seq<Item>, b: seq<Item>, i: nat)
    requires i < |a| && i < |b| && a[..i] == b[..i] && a[i] == b[i]
    ensures a[..i + 1] == b[..i + 1]
  {
    assert a[..i + 1] == a[..i] + [a[i]] && b[..i + 1] == b[..i] + [b[i]];
  }

  /** Of an encoding, the items before the first whose level does not exist are there to read. */
  lemma {:induction false} ItemsOfCode(src: Bytes, items0: seq<Item>, items: seq<Item>, ends: seq<nat>, i: nat)
    requires FoundSoFar(src, items0, items, ends, i) && ItemsAt(src, items, ends) && WidthsOk(items0)
    requires ends[|items|] < |src| ==> NoItemAt(src, ends[|items|])
    ensures ends[|items|] == |src| <==> LevelsOk(items0, |items0|)
    ensures ends[|items|] == |src| ==> items == items0
    decreases |items0| - i
  {
    if ends[i] == |src| {
      AllFound(src, items0, items, ends, i);
    } else {
      OneMoreFound(src, items0, items, ends, i);
      if LevelOk(items0[i]) {
        ItemsOfCode(src, items0, items, ends, i + 1);
      } else {
        LevelsStop(items0, i);
      }
    }
  }

  /** The levels of the first k items exist. */
  ghost predicate LevelsOk(items: seq<Item>, k: nat) {
    && k <= |items|
    && forall n {:trigger Unfold(n)} :: n == IN_LEVELS && Unfold(n) ==> forall i :: 0 <= i < k ==> LevelOk(items[i])
  }

  lemma LevelsNext(items: seq<Item>, k: nat)
    requires LevelsOk(items, k) && k < |items| && LevelOk(items[k])
    ensures LevelsOk(items, k + 1)
  {
    assert Unfold(IN_LEVELS);
  }

  lemma LevelsStop(items: seq<Item>, k: nat)
    requires k < |items| && !LevelOk(items[k])
    ensures !LevelsOk(items, |items|)
  {
    assert Unfold(IN_LEVELS);
  }

  lemma LevelsAll(items: seq<Item>)
    ensures LevelsOk(items, |items|) <==> forall x :: x in items ==> LevelOk(x)
  {
    assert Unfold(IN_LEVELS);
  }

  /** One round of the decoding loop: the end, an item and the place after it, or what is wrong. */
  method GetItem(src: Bytes, p: nat) returns (end: bool, item: Item, q: Option<nat>, message: string)
    requires p <= |src|
    ensures q.Some? ==> !end && p < q.value <= |src| && ItemAt(src, p, item, q.value)
    ensures q.None? ==> NoItemAt(src, p)
    ensures p == |src| ==> end
  {
    var tag;
    item, message := Comparator([]), "";
    tag, q := GetVarint32(src, p, |src|);
    end := q.None?;
    if !end {
      item, q, message := GetContent(src, q.value, tag);
    }
  }

  // ----- the edit -----

  class VersionEdit {
    var comparator: Option<Bytes>
    var logNumber: Option<nat>
    var prevLogNumber: Option<nat>
    var nextFileNumber: Option<nat>
    var lastSequence: Option<nat>
    var compactPointers: seq<(nat, Bytes)>
    var deletedFiles: seq<(nat, nat)>
    var newFiles: seq<(nat, FileMeta)>

    ghost function Value(): Fields
      reads this
    {
      Fields(comparator, logNumber, prevLogNumber, nextFileNumber, lastSequence, compactPointers, deletedFiles,
          newFiles)
    }

    constructor ()
      ensures Value() == NO_FIELDS
    {
      comparator, logNumber, prevLogNumber, nextFileNumber, lastSequence := None, None, None, None, None;
      compactPointers, deletedFiles, newFiles := [], [], [];
    }

    /** Forgets everything but the compaction pointers. */
    method Clear()
      modifies this
      ensures Value() == NO_FIELDS.(compactPointers := old(compactPointers))
    {
      comparator, logNumber, prevLogNumber, nextFileNumber, lastSequence := None, None, None, None, None;
      deletedFiles, newFiles := [], [];
    }

    /** The setters of the interface, and what decoding an item does. */
    method Apply(item: Item)
      modifies this
      ensures Value() == Set(old(Value()), item)
    {
      match item {
        case Comparator(name) => comparator := Some(name);
        case LogNumber(n) => logNumber := Some(n);
        case PrevLogNumber(n) => prevLogNumber := Some(n);
        case NextFileNumber(n) => nextFileNumber := Some(n);
        case LastSequence(n) => lastSequence := Some(n);
        case CompactPointer(level, key) => compactPointers := compactPointers + [(level, key)];
        case DeletedFile(level, n) => deletedFiles := InsertPair(deletedFiles, (level, n));
        case NewFile(level, file) => newFiles := newFiles + [(level, file)];
      }
    }

    method EncodeTo(dst: Bytes) returns (dst': Bytes)
      ensures dst' == dst + Joined(ItemBytes, Items(Value()), 0)
    {
      assert dst + Joined(ItemBytes, [], 0) == dst;
      WrittenIs(dst, dst, []);
      dst' := PutOption(dst, ComparatorItem(comparator), dst, []);
      ghost var done: seq<Item> := [] + OneOf(ComparatorItem(comparator));
      dst' := PutOption(dst', LogItem(logNumber), dst, done);
      done := done + OneOf(LogItem(logNumber));
      dst' := PutOption(dst', PrevLogItem(prevLogNumber), dst, done);
      done := done + OneOf(PrevLogItem(prevLogNumber));
      dst' := PutOption(dst', NextFileItem(nextFileNumber), dst, done);
      done := done + OneOf(NextFileItem(nextFileNumber));
      dst' := PutOption(dst', LastSequenceItem(lastSequence), dst, done);
      done := done + OneOf(LastSequenceItem(lastSequence));
      assert done == Scalars(Value());
      dst' := PutAll(dst', Pointers(compactPointers), dst, done);
      dst' := PutAll(dst', Deletions(deletedFiles), dst, done + Pointers(compactPointers));
      dst' := PutAll(dst', Additions(newFiles), dst, done + Pointers(compactPointers) + Deletions(deletedFiles));
      WrittenIs(dst', dst, Items(Value()));
    }

    /** Whatever the bytes are: the edit holds the items that come one after the other, up to the first place where
        there is none, and the report is success exactly if that place is the end.  The encoding of f decodes exactly
        if its levels exist, and then to f, behind the compaction pointers that were there before. */
    method DecodeFrom(src: Bytes, ghost f: Fields)
        returns (status: Status, ghost items: seq<Item>, ghost ends: seq<nat>)
      modifies this
      ensures ItemsAt(src, items, ends) && ends[|items|] <= |src|
      ensures Value() == SetAll(NO_FIELDS.(compactPointers := old(compactPointers)), items)
      ensures status == Ok <==> ends[|items|] == |src|
      ensures status != Ok ==> NoItemAt(src, ends[|items|])
      ensures src == Joined(ItemBytes, Items(f), 0) && InPairOrder(f.deletedFiles) && WidthsOk(Items(f)) ==>
        && (status == Ok <==> forall x :: x in Items(f) ==> LevelOk(x))
        && (status == Ok ==> Value() == f.(compactPointers := old(compactPointers) + f.compactPointers))
    {
      if InPairOrder(f.deletedFiles) { ItemsBack(f, compactPointers); }
      Clear();
      status, items, ends := GetItems(src);
      if src == Joined(ItemBytes, Items(f), 0) && WidthsOk(Items(f)) {
        assert src[0..] == src;
        ItemsOfCode(src, Items(f), items, ends, 0);
        LevelsAll(Items(f));
      }
    }

    /** The decoding loop. */
    method GetItems(src: Bytes) returns (status: Status, ghost items: seq<Item>, ghost ends: seq<nat>)
      modifies this
      ensures ItemsAt(src, items, ends) && ends[|items|] <= |src| && Value() == SetAll(old(Value()), items)
      ensures status == Ok <==> ends[|items|] == |src|
      ensures status != Ok ==> NoItemAt(src, ends[|items|])
    {
      var p := 0;
      items, ends := [], [0];
      while true
        invariant p <= |src| && ItemsAt(src, items, ends) && ends[|items|] == p
        invariant Value() == SetAll(old(Value()), items)
        decreases |src| - p
      {
        var end, item, q, message := GetItem(src, p);
        if end {
          return if p < |src| then Corruption("invalid tag") else Ok, items, ends;
        }
        if q.None? {
          return Corruption(message), items, ends;
        }
        Apply(item);
        ItemsGrow(src, items, ends, item, q.value);
        assert (items + [item])[..|items|] == items;
        p, items, ends := q.value, items + [item], ends + [q.value];
      }
    }
  }
}
