/** Reading modules. */
module ModuleLoader {
  import opened Wrappers
  import opened FileFormat
  import opened Uleb128
  import opened SignatureTokens
  import opened BinaryItems
  import opened BinaryTables
  import opened RowLoader
  import opened TableChecks
  import opened ModuleLayout
  import opened ModuleWriter
  import opened UniqueModules
  import opened FilledModules
  import opened ModuleSpace

  // ---------------------------------------------------------------------------------------------
  // Headers
  // ---------------------------------------------------------------------------------------------

  method ReadTable(binary: seq<Byte>, position: nat, ghost t: Table, ghost rest: Items)
    returns (r: Result<(Table, nat), Error>)
    requires position <= |binary|
    ensures Loaded(binary, position, HeaderItems(t, rest), t, rest, r)
  {
    ghost var count := Num(t.count, U32_MAX, rest);
    var code :- LoadWord(binary, position, 1, KindCode(t.kind), Num(t.offset, U32_MAX, count));
    var offset :- LoadNum(binary, code.1, U32_MAX, t.offset, count);
    var size :- LoadNum(binary, offset.1, U32_MAX, t.count, rest);
    var kind := KindOf(code.0);
    if kind.None? {
      return Err(Malformed);
    }
    r := Ok((Table(kind.value, offset.0, size.0), size.1));
  }

  method ReadTables(binary: seq<Byte>, position: nat, count: nat, ghost ts: seq<Table>, ghost rest: Items)
    returns (r: Result<(seq<Table>, nat), Error>)
    requires position <= |binary|
    ensures r.Ok? ==> position <= r.value.1 <= |binary|
    ensures count == |ts| && Here(binary, position, HeadersItems(ts, rest)) ==>
              r.Ok? && r.value.0 == ts && Here(binary, r.value.1, rest)
  {
    ghost var expected := count == |ts| && Here(binary, position, HeadersItems(ts, rest));
    var next, tables := position, [];
    assert ts[0..] == ts;
    for i := 0 to count
      invariant position <= next <= |binary|
      invariant expected ==> tables == ts[..i] && Here(binary, next, HeadersItems(ts[i..], rest))
    {
      ghost var here := expected && i < |ts|;
      assert here ==> ts[i..][1..] == ts[i + 1..];
      var x :- ReadTable(binary, next, if here then ts[i] else Table(ModuleHandles, 0, 0),
                         if here then HeadersItems(ts[i + 1..], rest) else rest);
      tables, next := tables + [x.0], x.1;
    }
    assert expected ==> ts[..count] == ts && ts[count..] == [];
    r := Ok((tables, next));
  }

  // ---------------------------------------------------------------------------------------------
  // Tables
  // ---------------------------------------------------------------------------------------------

  /** The tables that scripts have, too; they are loaded first. */
  predicate IsCommon(kind: TableKind) {
    match kind
    case StructDefs | StructDefInst | FunctionDefs | FieldHandles | FieldInst | FriendDecls => false
    case _ => true
  }

  lemma WithRowsAt(m: CompiledModule, kind: TableKind, rows: seq<Row>)
    requires forall i | 0 <= i < |rows| :: Belongs(rows[i], kind)
    ensures Rows(WithRows(m, kind, rows), kind) == rows
    ensures WithRows(m, kind, rows).version == m.version && WithRows(m, kind, rows).selfHandle == m.selfHandle
  {
  }

  lemma WithRowsElsewhere(m: CompiledModule, kind: TableKind, rows: seq<Row>, other: TableKind)
    requires (forall i | 0 <= i < |rows| :: Belongs(rows[i], kind)) && other != kind
    ensures Rows(WithRows(m, kind, rows), other) == Rows(m, other)
  {
  }

  /** The tables lie within the contents. */
  ghost predicate Inside(contents: seq<Byte>, tables: seq<Table>) {
    forall t | t in tables :: t.offset + t.count <= |contents|
  }

  /** Every header says where the rows of its table are. */
  ghost predicate Found(m: CompiledModule, contents: seq<Byte>, tables: seq<Table>)
    requires Inside(contents, tables)
  {
    forall t | t in tables :: FoundAt(m, t.kind, contents[t.offset..t.offset + t.count])
  }

  ghost predicate FoundAt(m: CompiledModule, kind: TableKind, bytes: seq<Byte>) {
    TableRows(Rows(m, kind), kind) && Here(bytes, 0, TableItems(m, kind))
  }

  /** The rows of the given tables were taken over from `m`, as far as they are common or not. */
  ghost predicate Taken(
    m: CompiledModule, before: CompiledModule, after: CompiledModule, tables: seq<Table>, common: bool)
  {
    && after.version == before.version && after.selfHandle == before.selfHandle
    && forall kind :: TakenAt(m, before, after, tables, common, kind)
  }

  ghost predicate TakenAt(
    m: CompiledModule, before: CompiledModule, after: CompiledModule, tables: seq<Table>, common: bool, kind: TableKind)
  {
    Rows(after, kind) ==
    if IsCommon(kind) == common && Count(tables, OfKind(kind)) > 0 then Rows(m, kind) else Rows(before, kind)
  }

  lemma SkipTable(
    m: CompiledModule, before: CompiledModule, after: CompiledModule, tables: seq<Table>, common: bool, i: nat)
    requires i < |tables| && Taken(m, before, after, tables[..i], common) && IsCommon(tables[i].kind) != common
    ensures Taken(m, before, after, tables[..i + 1], common)
  {
    var done := tables[..i + 1];
    forall kind ensures TakenAt(m, before, after, done, common, kind) {
      CountNext(tables, i, OfKind(kind));
      assert TakenAt(m, before, after, tables[..i], common, kind);
    }
  }

  lemma TakeTable(
    m: CompiledModule, before: CompiledModule, after: CompiledModule, tables: seq<Table>, common: bool, i: nat)
    requires i < |tables| && Taken(m, before, after, tables[..i], common) && IsCommon(tables[i].kind) == common
    ensures Taken(m, before, WithRows(after, tables[i].kind, Rows(m, tables[i].kind)), tables[..i + 1], common)
  {
    var rows := Rows(m, tables[i].kind);
    var next, done := WithRows(after, tables[i].kind, rows), tables[..i + 1];
    WithRowsAt(after, tables[i].kind, rows);
    forall kind ensures TakenAt(m, before, next, done, common, kind) {
      CountNext(tables, i, OfKind(kind));
      assert TakenAt(m, before, after, tables[..i], common, kind);
      if kind != tables[i].kind {
        WithRowsElsewhere(after, tables[i].kind, rows, kind);
      }
    }
  }

  lemma StaysHeld(m: CompiledModule, tables: seq<Table>, t: Table, rows: seq<Row>)
    requires t in tables && TableRows(rows, t.kind) && Takes(RowsFrom(rows, 0), t.count) && Held(m, tables)
    ensures Held(WithRows(m, t.kind, rows), tables)
  {
    WithRowsAt(m, t.kind, rows);
    RoomHas(tables, t);
    forall kind ensures HeldTable(WithRows(m, t.kind, rows), tables, kind) {
      assert HeldTable(m, tables, kind);
      if kind != t.kind {
        WithRowsElsewhere(m, t.kind, rows, kind);
      }
    }
  }

  ghost predicate SameHeader(a: CompiledModule, b: CompiledModule) {
    a.version == b.version && a.selfHandle == b.selfHandle
  }

  /** Loads a table, if it is one of those that are loaded now. */
  method BuildTable(
    built: CompiledModule, contents: seq<Byte>, tables: seq<Table>, common: bool, i: nat,
    ghost m: CompiledModule, ghost before: CompiledModule)
    returns (r: Result<CompiledModule, Error>)
    requires i < |tables| && Inside(contents, tables)
    ensures Found(m, contents, tables) && Taken(m, before, built, tables[..i], common) ==>
              r.Ok? && Taken(m, before, r.value, tables[..i + 1], common)
    ensures r.Ok? ==> SameHeader(r.value, built) && (Held(built, tables) ==> Held(r.value, tables))
  {
    var t := tables[i];
    assert t in tables;
    ghost var expected := Found(m, contents, tables) && Taken(m, before, built, tables[..i], common);
    if IsCommon(t.kind) != common {
      if expected {
        SkipTable(m, before, built, tables, common, i);
      }
      return Ok(built);
    }
    var rows :- LoadTable(t.kind, contents[t.offset..t.offset + t.count], Rows(m, t.kind));
    WithRowsAt(built, t.kind, rows);
    if Held(built, tables) {
      StaysHeld(built, tables, t, rows);
    }
    if expected {
      TakeTable(m, before, built, tables, common, i);
    }
    r := Ok(WithRows(built, t.kind, rows));
  }

  /** Loads the tables that are common to modules and scripts, or the others. */
  method BuildTables(
    module_: CompiledModule, contents: seq<Byte>, tables: seq<Table>, common: bool, ghost m: CompiledModule)
    returns (r: Result<CompiledModule, Error>)
    requires Inside(contents, tables)
    ensures Found(m, contents, tables) ==> r.Ok? && Taken(m, module_, r.value, tables, common)
    ensures r.Ok? ==> SameHeader(r.value, module_) && (Held(module_, tables) ==> Held(r.value, tables))
  {
    ghost var found, held := Found(m, contents, tables), Held(module_, tables);
    var built := module_;
    for i := 0 to |tables|
      invariant found ==> Taken(m, module_, built, tables[..i], common)
      invariant SameHeader(built, module_) && (held ==> Held(built, tables))
    {
      built :- BuildTable(built, contents, tables, common, i, m, module_);
    }
    assert tables[..|tables|] == tables;
    r := Ok(built);
  }

  function EmptyModule(version: nat, self: nat): CompiledModule {
    CompiledModule(version, self, [], [], [], [], [], [], [], [], [], [], [], [], [], [])
  }

  lemma EmptyIsHeld(version: nat, self: nat, tables: seq<Table>)
    ensures Held(EmptyModule(version, self), tables)
  {
    forall kind ensures HeldTable(EmptyModule(version, self), tables, kind) {
      assert Rows(EmptyModule(version, self), kind) == [];
    }
  }

  /** All tables that are not empty were loaded, and the others are empty. */
  lemma BuiltAgain(m: CompiledModule, version: nat, first: CompiledModule, built: CompiledModule, tables: seq<Table>)
    requires Taken(m, EmptyModule(version, m.selfHandle), first, tables, true) && Taken(m, first, built, tables, false)
    requires forall kind :: Count(tables, OfKind(kind)) == 0 ==> Rows(m, kind) == []
    ensures built == m.(version := version)
  {
    var again := m.(version := version);
    forall kind ensures SameTable(built, again, kind) {
      assert TakenAt(m, EmptyModule(version, m.selfHandle), first, tables, true, kind);
      assert TakenAt(m, first, built, tables, false, kind);
      assert Rows(EmptyModule(version, m.selfHandle), kind) == [];
      SameRows(built, again, kind);
    }
    SameModule(built, again);
  }

  // ---------------------------------------------------------------------------------------------
  // Modules
  // ---------------------------------------------------------------------------------------------

  lemma TablesInside(tables: seq<Table>, n: nat)
    requires Tiles(tables, 0, n)
    ensures forall t | t in Sorted(tables) :: t.offset + t.count <= n
  {
    SortedIsOrdered(tables);
    forall t | t in Sorted(tables) ensures t.offset + t.count <= n {
      EndsWithin(tables, 0, n, t);
    }
  }

  /** A table without bytes has no rows. */
  lemma NoBytesNoRows(m: CompiledModule, kind: TableKind)
    requires TableRows(Rows(m, kind), kind) && Bytes(TableItems(m, kind)) == []
    ensures Rows(m, kind) == []
  {
    var rows := Rows(m, kind);
    if rows != [] {
      RowHasBytes(rows[0], RowsFrom(rows, 1));
    }
  }

  /** The sorted headers lead to all the rows of the module. */
  lemma LayoutFound(m: CompiledModule)
    requires Serializable(m) && RegularModule(m)
    ensures var sorted := Sorted(Layout(PartsOf(m)));
            && Inside(Contents(PartsOf(m)), sorted) && Found(m, Contents(PartsOf(m)), sorted)
            && forall kind :: Count(sorted, OfKind(kind)) == 0 ==> Rows(m, kind) == []
  {
    var parts := PartsOf(m);
    var contents, sorted := Contents(parts), Sorted(Layout(parts));
    SortedIsOrdered(Layout(parts));
    forall t | t in sorted
      ensures t.offset + t.count <= |contents| && FoundAt(m, t.kind, contents[t.offset..t.offset + t.count])
    {
      LayoutFinds(parts, t);
      TableIsHere(m, t.kind);
    }
    forall kind | Count(sorted, OfKind(kind)) == 0 ensures Rows(m, kind) == [] {
      SortedCount(Layout(parts), OfKind(kind));
      LayoutKinds(parts, 0, kind);
      TableIsHere(m, kind);
      NoBytesNoRows(m, kind);
    }
  }

  lemma TableIsHere(m: CompiledModule, kind: TableKind)
    requires Serializable(m) && RegularModule(m)
    ensures FoundAt(m, kind, PartsOf(m)[Place(kind)]) && PartsOf(m)[Place(kind)] == Bytes(TableItems(m, kind))
  {
    var bytes := PartsOf(m)[Place(kind)];
    assert Nth(Place(kind)) == kind && Left(bytes, 0, bytes);
  }

  /** The length of the contents that the check of the headers finds. */
  lemma LengthFound(parts: Parts, binaryLength: nat, n: nat)
    requires |Contents(parts)| <= U32_MAX && |Contents(parts)| <= binaryLength
    ensures TablesOk(Layout(parts), binaryLength, |Contents(parts)|)
    ensures TablesOk(Layout(parts), binaryLength, n) ==> n == |Contents(parts)|
  {
    LayoutIsOk(parts, binaryLength);
    if TablesOk(Layout(parts), binaryLength, n) {
      TilesUnique(Layout(parts), n, |Contents(parts)|);
    }
  }

  /** Reads the magic bytes and the version. Only the latest version is modelled. */
  method ReadVersion(binary: seq<Byte>, ghost rest: Items) returns (r: Result<(nat, nat), Error>)
    ensures Loaded(binary, 0, Blob(MAGIC, Word(VERSION_MAX, 4, rest)), VERSION_MAX, rest, r)
    ensures r.Ok? ==> r.value.0 == VERSION_MAX
  {
    var magic :- LoadBlob(binary, 0, |MAGIC|, MAGIC, Word(VERSION_MAX, 4, rest));
    if magic.0 != MAGIC {
      return Err(Malformed);
    }
    var version :- LoadWord(binary, magic.1, 4, VERSION_MAX, rest);
    if version.0 != VERSION_MAX {
      return Err(Malformed);
    }
    r := Ok((VERSION_MAX, version.1));
  }

  /** Reads the headers of the tables. */
  method ReadIndex(binary: seq<Byte>, position: nat, ghost parts: Parts, ghost rest: Items)
    returns (r: Result<(seq<Table>, nat), Error>)
    requires position <= |binary|
    ensures Loaded(binary, position, IndexItems(parts, rest), Layout(parts), rest, r)
  {
    var count :- LoadNum(binary, position, TABLE_COUNT_MAX, |Layout(parts)|, HeadersItems(Layout(parts), rest));
    r := ReadTables(binary, count.1, count.0, Layout(parts), rest);
  }

  /** The contents come next, as the headers say. */
  ghost predicate ContentsAhead(binary: seq<Byte>, position: nat, tables: seq<Table>, parts: Parts, rest: Items) {
    tables == Layout(parts) && |Contents(parts)| <= U32_MAX && Here(binary, position, Blob(Contents(parts), rest))
  }

  lemma ContentsFitIn(binary: seq<Byte>, position: nat, tables: seq<Table>, parts: Parts, rest: Items)
    requires ContentsAhead(binary, position, tables, parts, rest)
    ensures |Contents(parts)| <= |binary|
  {
    assert Bytes(Blob(Contents(parts), rest)) == Contents(parts) + Bytes(rest);
  }

  /** Checks the headers and reads the contents that they describe. */
  method ReadContents(
    binary: seq<Byte>, position: nat, tables: seq<Table>, ghost parts: Parts, ghost rest: Items)
    returns (r: Result<(seq<Byte>, nat), Error>, sorted: seq<Table>)
    requires position <= |binary|
    ensures sorted == Sorted(tables)
    ensures r.Ok? ==> position <= r.value.1 <= |binary| && Inside(r.value.0, sorted) && Total(sorted) <= U32_MAX
    ensures ContentsAhead(binary, position, tables, parts, rest) ==>
              r.Ok? && r.value.0 == Contents(parts) && Here(binary, r.value.1, rest)
  {
    var n;
    n, sorted := CheckTables(tables, |binary|);
    if ContentsAhead(binary, position, tables, parts, rest) {
      ContentsFitIn(binary, position, tables, parts, rest);
      LengthFound(parts, |binary|, if n.Ok? then n.value else 0);
    }
    if n.Err? {
      return Err(n.error), sorted;
    }
    TablesInside(tables, n.value);
    r := LoadBlob(binary, position, n.value, Contents(parts), rest);
  }

  /** The binary starts with the binary form of the module. */
  ghost predicate Starts(binary: seq<Byte>, m: CompiledModule, trailer: seq<Byte>) {
    Serializable(m) && RegularModule(m) && binary == ModuleBytes(m) + trailer
  }

  /** What is promised of modules that were read, whatever they were read from. */
  ghost predicate WasRead(m: CompiledModule) {
    Serializable(m) && SizedModule(m) && FilledModule(m) && m.version == VERSION_MAX
  }

  /** Reads a module, which may be the given one. */
  method DeserializeExpected(binary: seq<Byte>, ghost m: CompiledModule, ghost trailer: seq<Byte>)
    returns (r: Result<CompiledModule, Error>)
    ensures Starts(binary, m, trailer) ==> r == Ok(m.(version := VERSION_MAX))
    ensures r.Ok? ==> WasRead(r.value)
  {
    ghost var parts := PartsOf(m);
    ghost var closing := ClosingItems(parts, m.selfHandle, trailer);
    ghost var expected := Starts(binary, m, trailer);
    if expected {
      TrailerFollows(parts, m.selfHandle, trailer);
      BinaryFits(parts, m.selfHandle, trailer);
      assert Left(binary, 0, binary);
      LayoutFound(m);
    }
    var version :- ReadVersion(binary, IndexItems(parts, closing));
    var tables :- ReadIndex(binary, version.1, parts, closing);
    var contents, sorted := ReadContents(binary, tables.1, tables.0, parts, closing.rest);
    if contents.Err? {
      return Err(contents.error);
    }
    var self :- LoadNum(binary, contents.value.1, TABLE_INDEX_MAX, m.selfHandle, Blob(trailer, End));
    var empty := EmptyModule(version.0, self.0);
    EmptyIsHeld(version.0, self.0, sorted);
    var first :- BuildTables(empty, contents.value.0, sorted, true, m);
    r := BuildTables(first, contents.value.0, sorted, false, m);
    if r.Ok? {
      HeldIsOk(r.value, sorted);
    }
    if expected {
      BuiltAgain(m, VERSION_MAX, first, r.value, sorted);
    }
  }

  /**
   Reads a module. If the binary starts with the binary form of a module, that module comes back, in the latest version,
   whatever follows. Whatever is read, from this or any other binary, can be written and read again.
   */
  method Deserialize(binary: seq<Byte>) returns (r: Result<CompiledModule, Error>)
    ensures forall m, trailer | Starts(binary, m, trailer) :: r == Ok(m.(version := VERSION_MAX))
    ensures r.Ok? ==> WasRead(r.value)
  {
    ghost var m, trailer := EmptyModule(0, 0), [];
    if x, y :| Starts(binary, x, y) {
      m, trailer := x, y;
    }
    r := DeserializeExpected(binary, m, trailer);
    forall m', trailer' | Starts(binary, m', trailer') ensures r == Ok(m'.(version := VERSION_MAX)) {
      ModuleUnique(m, trailer, m', trailer');
    }
  }

  /**
   Writes a module and reads it again, whatever follows it. The module comes back, in the latest version, exactly if it
   is within the limits of the writer and every instantiation in it has arguments.
   */
  method RoundTrip(m: CompiledModule, trailer: seq<Byte>) returns (r: Result<CompiledModule, Error>)
    requires SizedModule(m)
    ensures r == Ok(m.(version := VERSION_MAX)) <==> Serializable(m) && FilledModule(m)
  {
    AddressesAreOk(m);
    var binary :- Serialize(m, []);
    assert [] + ModuleBytes(m) == ModuleBytes(m);
    RegularModuleIff(m);
    r := Deserialize(binary + trailer);
    if FilledModule(m) {
      assert Starts(binary + trailer, m, trailer);
    } else {
      SameFilled(m, m.(version := VERSION_MAX));
    }
  }

  /** Reads a module, writes it and reads it again: nothing changes any more. */
  method Reread(binary: seq<Byte>) returns (r: Result<CompiledModule, Error>, again: Result<CompiledModule, Error>)
    ensures again == r
  {
    r := Deserialize(binary);
    again := r;
    if r.Ok? {
      again := RoundTrip(r.value, []);
    }
  }

  lemma AddressesAreOk(m: CompiledModule)
    requires SizedModule(m)
    ensures AddressesOk(m)
  {
    assert TableRows(Rows(m, AddressIdentifiers), AddressIdentifiers);
    forall i | 0 <= i < |m.addressIdentifiers| ensures |m.addressIdentifiers[i]| == ADDRESS_LENGTH {
      assert RowOk(Rows(m, AddressIdentifiers)[i]);
    }
  }

  lemma SameFilled(m: CompiledModule, m': CompiledModule)
    requires m' == m.(version := m'.version)
    ensures FilledModule(m) <==> FilledModule(m')
  {
    forall kind ensures FilledTable(m, kind) <==> FilledTable(m', kind) {
      assert Rows(m, kind) == Rows(m', kind);
    }
  }
}
