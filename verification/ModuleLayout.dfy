/** Where the tables of a module are in its binary form. */
module ModuleLayout {
  import opened FileFormat
  import opened Slices
  import opened Uleb128
  import opened SignatureTokens
  import opened BinaryItems
  import opened BinaryTables
  import opened RowLoader
  import opened TableChecks

  const KIND_COUNT := 14

  /** The order in which the tables are written. */
  function Nth(i: nat): TableKind
    requires i < KIND_COUNT
  {
    match i
    case 0 => ModuleHandles
    case 1 => StructHandles
    case 2 => FunctionHandles
    case 3 => FunctionInst
    case 4 => Signatures
    case 5 => Identifiers
    case 6 => AddressIdentifiers
    case 7 => ConstantPool
    case 8 => StructDefs
    case 9 => StructDefInst
    case 10 => FunctionDefs
    case 11 => FieldHandles
    case 12 => FieldInst
    case _ => FriendDecls
  }

  ghost function Place(kind: TableKind): (i: nat)
    ensures i < KIND_COUNT && Nth(i) == kind
  {
    match kind
    case ModuleHandles => 0
    case StructHandles => 1
    case FunctionHandles => 2
    case FunctionInst => 3
    case Signatures => 4
    case Identifiers => 5
    case AddressIdentifiers => 6
    case ConstantPool => 7
    case StructDefs => 8
    case StructDefInst => 9
    case FunctionDefs => 10
    case FieldHandles => 11
    case FieldInst => 12
    case FriendDecls => 13
  }

  lemma PlaceOf(i: nat)
    requires i < KIND_COUNT
    ensures Place(Nth(i)) == i
  {
  }

  /** The bytes of the tables, in that order. */
  type Parts = parts: seq<seq<Byte>> | |parts| == KIND_COUNT witness seq(KIND_COUNT, _ => [])

  /** The bytes of the tables from the given one on. */
  ghost function ContentsFrom(parts: Parts, i: nat): seq<Byte>
    requires i <= KIND_COUNT
    decreases |parts| - i
  {
    if i == KIND_COUNT then [] else parts[i] + ContentsFrom(parts, i + 1)
  }

  ghost function Contents(parts: Parts): seq<Byte> {
    ContentsFrom(parts, 0)
  }

  /** The offset of a table. */
  ghost function Start(parts: Parts, i: nat): nat
    requires i <= KIND_COUNT
  {
    if i == 0 then 0 else Start(parts, i - 1) + |parts[i - 1]|
  }

  /** The header of a table, if it is not empty. */
  ghost function HeaderOf(parts: Parts, i: nat): seq<Table>
    requires i < KIND_COUNT
  {
    if parts[i] == [] then [] else [Table(Nth(i), Start(parts, i), |parts[i]|)]
  }

  ghost function LayoutFrom(parts: Parts, i: nat): seq<Table>
    requires i <= KIND_COUNT
    decreases |parts| - i
  {
    if i == KIND_COUNT then [] else HeaderOf(parts, i) + LayoutFrom(parts, i + 1)
  }

  ghost function Layout(parts: Parts): seq<Table> {
    LayoutFrom(parts, 0)
  }

  // ---------------------------------------------------------------------------------------------
  // The layout is sound
  // ---------------------------------------------------------------------------------------------

  lemma ContentsNext(parts: Parts, i: nat, contents: seq<Byte>)
    requires i < KIND_COUNT && Left(contents, Start(parts, i), ContentsFrom(parts, i))
    ensures Left(contents, Start(parts, i + 1), ContentsFrom(parts, i + 1))
  {
    Next(contents, Start(parts, i), parts[i], ContentsFrom(parts, i + 1));
  }

  lemma {:induction false} ContentsAt(parts: Parts, i: nat, contents: seq<Byte>)
    requires i <= KIND_COUNT && contents == Contents(parts)
    ensures Left(contents, Start(parts, i), ContentsFrom(parts, i))
  {
    if i > 0 {
      ContentsAt(parts, i - 1, contents);
      ContentsNext(parts, i - 1, contents);
    }
  }

  lemma HeaderCovers(parts: Parts, i: nat, x: nat)
    requires i < KIND_COUNT
    ensures Count(HeaderOf(parts, i), Holding(x)) == if Start(parts, i) <= x < Start(parts, i + 1) then 1 else 0
  {
    if parts[i] != [] {
      CountOne(HeaderOf(parts, i)[0], Holding(x));
    }
  }

  /** The headers cover the contents without gap or overlap. */
  lemma {:induction false} LayoutTiles(parts: Parts, i: nat)
    requires i <= KIND_COUNT
    ensures Tiles(LayoutFrom(parts, i), Start(parts, i), Start(parts, i) + |ContentsFrom(parts, i)|)
    decreases KIND_COUNT - i
  {
    if i < KIND_COUNT {
      LayoutTiles(parts, i + 1);
      var end := Start(parts, i) + |ContentsFrom(parts, i)|;
      assert Start(parts, i + 1) + |ContentsFrom(parts, i + 1)| == end;
      forall x: nat
        ensures Count(LayoutFrom(parts, i), Holding(x)) == if Start(parts, i) <= x < end then 1 else 0
      {
        CountConcat(HeaderOf(parts, i), LayoutFrom(parts, i + 1), Holding(x));
        HeaderCovers(parts, i, x);
      }
    }
  }

  lemma HeaderKind(parts: Parts, i: nat, kind: TableKind)
    requires i < KIND_COUNT
    ensures Count(HeaderOf(parts, i), OfKind(kind)) == if i == Place(kind) && parts[i] != [] then 1 else 0
  {
    if parts[i] != [] {
      CountOne(HeaderOf(parts, i)[0], OfKind(kind));
    }
    PlaceOf(i);
  }

  /** There is a header for every kind of table that is not empty, and just one. */
  lemma {:induction false} LayoutKinds(parts: Parts, i: nat, kind: TableKind)
    requires i <= KIND_COUNT
    ensures Count(LayoutFrom(parts, i), OfKind(kind)) == if i <= Place(kind) && parts[Place(kind)] != [] then 1 else 0
    decreases KIND_COUNT - i
  {
    if i < KIND_COUNT {
      LayoutKinds(parts, i + 1, kind);
      CountConcat(HeaderOf(parts, i), LayoutFrom(parts, i + 1), OfKind(kind));
      HeaderKind(parts, i, kind);
    }
  }

  lemma {:induction false} LayoutMember(parts: Parts, i: nat, t: Table) returns (j: nat)
    requires i <= KIND_COUNT && t in LayoutFrom(parts, i)
    ensures i <= j < KIND_COUNT && t == Table(Nth(j), Start(parts, j), |parts[j]|)
    decreases KIND_COUNT - i
  {
    if t in HeaderOf(parts, i) {
      j := i;
    } else {
      j := LayoutMember(parts, i + 1, t);
    }
  }

  lemma PartFound(parts: Parts, i: nat)
    requires i < KIND_COUNT
    ensures Start(parts, i) + |parts[i]| <= |Contents(parts)|
    ensures Contents(parts)[Start(parts, i)..Start(parts, i) + |parts[i]|] == parts[i]
  {
    ContentsAt(parts, i, Contents(parts));
    Next(Contents(parts), Start(parts, i), parts[i], ContentsFrom(parts, i + 1));
    Slice(Contents(parts), Start(parts, i), parts[i]);
  }

  /** A header says where the bytes of its table are. */
  lemma LayoutFinds(parts: Parts, t: Table)
    requires t in Layout(parts)
    ensures t.offset + t.count <= |Contents(parts)|
    ensures Contents(parts)[t.offset..t.offset + t.count] == parts[Place(t.kind)]
  {
    var j := LayoutMember(parts, 0, t);
    PlaceOf(j);
    PartFound(parts, j);
  }

  lemma {:induction false} LayoutIsShort(parts: Parts, i: nat)
    requires i <= KIND_COUNT
    ensures |LayoutFrom(parts, i)| <= KIND_COUNT - i
    decreases KIND_COUNT - i
  {
    if i < KIND_COUNT {
      LayoutIsShort(parts, i + 1);
    }
  }

  /** The headers pass the check of the loader. */
  lemma LayoutIsOk(parts: Parts, binaryLength: nat)
    requires |Contents(parts)| <= U32_MAX && |Contents(parts)| <= binaryLength
    ensures TablesOk(Layout(parts), binaryLength, |Contents(parts)|)
  {
    LayoutTiles(parts, 0);
    forall kind ensures Count(Layout(parts), OfKind(kind)) <= 1 {
      LayoutKinds(parts, 0, kind);
    }
  }

  // ---------------------------------------------------------------------------------------------
  // The whole binary
  // ---------------------------------------------------------------------------------------------

  const MAGIC: seq<Byte> := [0xA1, 0x1C, 0xEB, 0x0B]

  function HeaderItems(t: Table, rest: Items): Items {
    Word(KindCode(t.kind), 1, Num(t.offset, U32_MAX, Num(t.count, U32_MAX, rest)))
  }

  function HeadersItems(ts: seq<Table>, rest: Items): Items {
    if ts == [] then rest else HeaderItems(ts[0], HeadersItems(ts[1..], rest))
  }

  /** The last part: the contents of the tables, and the index of the module itself. Anything may follow. */
  ghost function ClosingItems(parts: Parts, self: nat, trailer: seq<Byte>): Items {
    Blob(Contents(parts), Num(self, TABLE_INDEX_MAX, Blob(trailer, End)))
  }

  ghost function IndexItems(parts: Parts, rest: Items): Items {
    Num(|Layout(parts)|, TABLE_COUNT_MAX, HeadersItems(Layout(parts), rest))
  }

  ghost function LayoutItems(parts: Parts, self: nat, trailer: seq<Byte>): Items {
    Blob(MAGIC, Word(VERSION_MAX, 4, IndexItems(parts, ClosingItems(parts, self, trailer))))
  }

  lemma HeaderFits(t: Table, rest: Items)
    requires t.offset <= U32_MAX && t.count <= U32_MAX
    ensures Fits(HeaderItems(t, rest)) <==> Fits(rest)
    ensures Regular(HeaderItems(t, rest)) <==> Regular(rest)
  {
    var count := Num(t.count, U32_MAX, rest);
    var offset := Num(t.offset, U32_MAX, count);
    assert (Fits(count) <==> Fits(rest)) && (Regular(count) <==> Regular(rest));
    assert (Fits(offset) <==> Fits(rest)) && (Regular(offset) <==> Regular(rest));
    assert Pow256(1) == 0x100;
  }

  lemma {:induction false} HeadersFit(ts: seq<Table>, rest: Items)
    requires forall t | t in ts :: t.offset <= U32_MAX && t.count <= U32_MAX
    ensures Fits(HeadersItems(ts, rest)) <==> Fits(rest)
    ensures Regular(HeadersItems(ts, rest)) <==> Regular(rest)
    decreases |ts|
  {
    if ts != [] {
      HeadersFit(ts[1..], rest);
      HeaderFits(ts[0], HeadersItems(ts[1..], rest));
    }
  }

  lemma BodyFits(contents: seq<Byte>, self: nat, trailer: seq<Byte>)
    ensures var body := Blob(contents, Num(self, TABLE_INDEX_MAX, Blob(trailer, End)));
            (Fits(body) <==> self <= TABLE_INDEX_MAX) && Regular(body)
  {
    var end := Blob(trailer, End);
    assert Fits(end) && Regular(end);
    var number := Num(self, TABLE_INDEX_MAX, end);
    assert (Fits(number) <==> self <= TABLE_INDEX_MAX) && Regular(number);
  }

  lemma IndexFits(parts: Parts, rest: Items)
    requires |Contents(parts)| <= U32_MAX
    ensures Fits(IndexItems(parts, rest)) <==> Fits(rest)
    ensures Regular(IndexItems(parts, rest)) <==> Regular(rest)
  {
    forall t | t in Layout(parts) ensures t.offset <= U32_MAX && t.count <= U32_MAX {
      LayoutFinds(parts, t);
    }
    HeadersFit(Layout(parts), rest);
    LayoutIsShort(parts, 0);
  }

  lemma VersionFits(rest: Items)
    ensures var items := Blob(MAGIC, Word(VERSION_MAX, 4, rest));
            (Fits(items) <==> Fits(rest)) && (Regular(items) <==> Regular(rest))
  {
    assert Pow256(2) == 0x1_0000;
    var version := Word(VERSION_MAX, 4, rest);
    assert (Fits(version) <==> Fits(rest)) && (Regular(version) <==> Regular(rest));
  }

  /** The layout of contents that are not too long can be written and read. */
  lemma BinaryFits(parts: Parts, self: nat, trailer: seq<Byte>)
    requires |Contents(parts)| <= U32_MAX
    ensures Fits(LayoutItems(parts, self, trailer)) <==> self <= TABLE_INDEX_MAX
    ensures Regular(LayoutItems(parts, self, trailer))
  {
    BodyFits(Contents(parts), self, trailer);
    IndexFits(parts, ClosingItems(parts, self, trailer));
    VersionFits(IndexItems(parts, ClosingItems(parts, self, trailer)));
  }

  /** The one stream is the other with more bytes at the end. */
  ghost predicate Longer(a: Items, b: Items, trailer: seq<Byte>) {
    Bytes(a) == Bytes(b) + trailer
  }

  lemma LongerNum(value: nat, max: U64, a: Items, b: Items, trailer: seq<Byte>)
    requires Longer(a, b, trailer)
    ensures Longer(Num(value, max, a), Num(value, max, b), trailer)
  {
    Associate(Encode(value), Bytes(b), trailer);
  }

  lemma LongerWord(value: nat, size: nat, a: Items, b: Items, trailer: seq<Byte>)
    requires Longer(a, b, trailer)
    ensures Longer(Word(value, size, a), Word(value, size, b), trailer)
  {
    Associate(LittleEndian(value, size), Bytes(b), trailer);
  }

  lemma LongerBlob(bytes: seq<Byte>, a: Items, b: Items, trailer: seq<Byte>)
    requires Longer(a, b, trailer)
    ensures Longer(Blob(bytes, a), Blob(bytes, b), trailer)
  {
    Associate(bytes, Bytes(b), trailer);
  }

  lemma {:induction false} LongerHeaders(ts: seq<Table>, a: Items, b: Items, trailer: seq<Byte>)
    requires Longer(a, b, trailer)
    ensures Longer(HeadersItems(ts, a), HeadersItems(ts, b), trailer)
    decreases |ts|
  {
    if ts != [] {
      LongerHeaders(ts[1..], a, b, trailer);
      var t, x, y := ts[0], HeadersItems(ts[1..], a), HeadersItems(ts[1..], b);
      LongerNum(t.count, U32_MAX, x, y, trailer);
      x, y := Num(t.count, U32_MAX, x), Num(t.count, U32_MAX, y);
      LongerNum(t.offset, U32_MAX, x, y, trailer);
      LongerWord(KindCode(t.kind), 1, Num(t.offset, U32_MAX, x), Num(t.offset, U32_MAX, y), trailer);
    }
  }

  /** What follows the binary form of a module can be seen as its last part. */
  lemma TrailerFollows(parts: Parts, self: nat, trailer: seq<Byte>)
    ensures Longer(LayoutItems(parts, self, trailer), LayoutItems(parts, self, []), trailer)
  {
    var a, b := Blob(trailer, End), Blob([], End);
    assert Longer(a, b, trailer);
    LongerNum(self, TABLE_INDEX_MAX, a, b, trailer);
    LongerBlob(Contents(parts), Num(self, TABLE_INDEX_MAX, a), Num(self, TABLE_INDEX_MAX, b), trailer);
    a, b := ClosingItems(parts, self, trailer), ClosingItems(parts, self, []);
    LongerHeaders(Layout(parts), a, b, trailer);
    LongerNum(
      |Layout(parts)|, TABLE_COUNT_MAX, HeadersItems(Layout(parts), a), HeadersItems(Layout(parts), b), trailer);
    a, b := IndexItems(parts, a), IndexItems(parts, b);
    LongerWord(VERSION_MAX, 4, a, b, trailer);
    LongerBlob(MAGIC, Word(VERSION_MAX, 4, a), Word(VERSION_MAX, 4, b), trailer);
  }

  // ---------------------------------------------------------------------------------------------
  // The parts of a module
  // ---------------------------------------------------------------------------------------------

  ghost function TableItems(m: CompiledModule, kind: TableKind): Items {
    RowsFrom(Rows(m, kind), 0)
  }

  ghost function PartsOf(m: CompiledModule): (parts: Parts)
    ensures forall i: nat | i < KIND_COUNT :: parts[i] == Bytes(TableItems(m, Nth(i)))
  {
    seq(KIND_COUNT, i requires 0 <= i < KIND_COUNT => Bytes(TableItems(m, Nth(i))))
  }

  /** The binary form of a module. */
  ghost function ModuleBytes(m: CompiledModule): seq<Byte> {
    Bytes(LayoutItems(PartsOf(m), m.selfHandle, []))
  }

  /** All numbers and types are within the limits that the writer checks. */
  ghost predicate Serializable(m: CompiledModule) {
    && (forall kind :: Fits(TableItems(m, kind)))
    && |Contents(PartsOf(m))| <= U32_MAX
    && m.selfHandle <= TABLE_INDEX_MAX
  }

  /** What the types of the parts promise, and no instantiation without arguments. */
  ghost predicate RegularModule(m: CompiledModule) {
    forall kind :: Regular(TableItems(m, kind)) && TableRows(Rows(m, kind), kind)
  }

  /** What the types of the parts promise. */
  ghost predicate SizedModule(m: CompiledModule) {
    forall kind :: Sized(TableItems(m, kind)) && TableRows(Rows(m, kind), kind)
  }

  ghost predicate FilledTable(m: CompiledModule, kind: TableKind) {
    forall i | 0 <= i < |Rows(m, kind)| :: FilledRow(Rows(m, kind)[i])
  }

  /** Every instantiation in the module has arguments. */
  ghost predicate FilledModule(m: CompiledModule) {
    forall kind :: FilledTable(m, kind)
  }

  predicate SameTable(a: CompiledModule, b: CompiledModule, kind: TableKind) {
    match kind
    case ModuleHandles => a.moduleHandles == b.moduleHandles
    case StructHandles => a.structHandles == b.structHandles
    case FunctionHandles => a.functionHandles == b.functionHandles
    case FunctionInst => a.functionInstantiations == b.functionInstantiations
    case Signatures => a.signatures == b.signatures
    case ConstantPool => a.constantPool == b.constantPool
    case Identifiers => a.identifiers == b.identifiers
    case AddressIdentifiers => a.addressIdentifiers == b.addressIdentifiers
    case StructDefs => a.structDefs == b.structDefs
    case StructDefInst => a.structInstantiations == b.structInstantiations
    case FunctionDefs => a.functionDefs == b.functionDefs
    case FieldHandles => a.fieldHandles == b.fieldHandles
    case FieldInst => a.fieldInstantiations == b.fieldInstantiations
    case FriendDecls => a.friendDecls == b.friendDecls
  }

  lemma SameRows(a: CompiledModule, b: CompiledModule, kind: TableKind)
    requires Rows(a, kind) == Rows(b, kind)
    ensures SameTable(a, b, kind)
  {
  }

  lemma SameModule(a: CompiledModule, b: CompiledModule)
    requires a.version == b.version && a.selfHandle == b.selfHandle && forall kind :: SameTable(a, b, kind)
    ensures a == b
  {
    assert SameTable(a, b, ModuleHandles) && SameTable(a, b, StructHandles) && SameTable(a, b, FunctionHandles);
    assert SameTable(a, b, FunctionInst) && SameTable(a, b, Signatures) && SameTable(a, b, ConstantPool);
    assert SameTable(a, b, Identifiers) && SameTable(a, b, AddressIdentifiers) && SameTable(a, b, StructDefs);
    assert SameTable(a, b, StructDefInst) && SameTable(a, b, FunctionDefs) && SameTable(a, b, FieldHandles);
    assert SameTable(a, b, FieldInst) && SameTable(a, b, FriendDecls);
  }
}
