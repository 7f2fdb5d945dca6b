/** Writing modules. */
module ModuleWriter {
  import opened Wrappers
  import opened FileFormat
  import opened Slices
  import opened Uleb128
  import opened SignatureTokens
  import opened BinaryItems
  import opened BinaryTables
  import opened RowWriter
  import opened TableChecks
  import opened ModuleLayout

  /** Addresses have the length that their type says. */
  predicate AddressesOk(m: CompiledModule) {
    forall i | 0 <= i < |m.addressIdentifiers| :: |m.addressIdentifiers[i]| == ADDRESS_LENGTH
  }

  /** A table takes up space exactly if it has rows. */
  lemma TableHasBytes(m: CompiledModule, kind: TableKind)
    requires AddressesOk(m)
    ensures Bytes(TableItems(m, kind)) == [] <==> Rows(m, kind) == []
  {
    var rows := Rows(m, kind);
    if rows != [] {
      RowHasBytes(rows[0], RowsFrom(rows, 1));
    }
  }

  /** The spans of the first `i` tables are as in the layout. */
  ghost predicate SpansOk(parts: Parts, i: nat, spans: map<TableKind, (nat, nat)>) {
    forall j: nat {:trigger Nth(j)} | j < KIND_COUNT ::
      if j < i && parts[j] != [] then Nth(j) in spans && spans[Nth(j)] == (Start(parts, j), |parts[j]|)
      else Nth(j) !in spans
  }

  /** The first `i` tables were written. */
  ghost predicate Progress(
    parts: Parts, i: nat, written: seq<Byte>, tableCount: nat, spans: map<TableKind, (nat, nat)>)
  {
    && i <= KIND_COUNT
    && |written| == Start(parts, i) && written + ContentsFrom(parts, i) == Contents(parts)
    && tableCount + |LayoutFrom(parts, i)| == |Layout(parts)|
    && SpansOk(parts, i, spans)
  }

  lemma SpansNext(parts: Parts, i: nat, was: map<TableKind, (nat, nat)>, spans: map<TableKind, (nat, nat)>)
    requires i < KIND_COUNT && SpansOk(parts, i, was)
    requires spans == if parts[i] == [] then was else was[Nth(i) := (Start(parts, i), |parts[i]|)]
    ensures SpansOk(parts, i + 1, spans)
  {
    forall j: nat | j < KIND_COUNT && Nth(j) == Nth(i) ensures i == j {
      PlaceOf(i);
      PlaceOf(j);
    }
  }

  lemma ContentsNext(parts: Parts, i: nat, written: seq<Byte>)
    requires i < KIND_COUNT && |written| == Start(parts, i) && written + ContentsFrom(parts, i) == Contents(parts)
    ensures |written + parts[i]| == Start(parts, i + 1)
      && written + parts[i] + ContentsFrom(parts, i + 1) == Contents(parts)
    ensures |written| + |parts[i]| <= |Contents(parts)|
    ensures |LayoutFrom(parts, i)| == |LayoutFrom(parts, i + 1)| + if parts[i] == [] then 0 else 1
  {
    Associate(written, parts[i], ContentsFrom(parts, i + 1));
  }

  lemma NextProgress(
    parts: Parts, i: nat, written: seq<Byte>, tableCount: nat, spans: map<TableKind, (nat, nat)>)
    requires Progress(parts, i, written, tableCount, spans) && i < KIND_COUNT
    ensures |written| + |parts[i]| <= |Contents(parts)|
    ensures var next := if parts[i] == [] then spans else spans[Nth(i) := (|written|, |parts[i]|)];
            Progress(parts, i + 1, written + parts[i], if parts[i] == [] then tableCount else tableCount + 1, next)
  {
    ContentsNext(parts, i, written);
    SpansNext(parts, i, spans, if parts[i] == [] then spans else spans[Nth(i) := (|written|, |parts[i]|)]);
  }

  lemma Finished(parts: Parts, written: seq<Byte>, tableCount: nat, spans: map<TableKind, (nat, nat)>)
    requires Progress(parts, KIND_COUNT, written, tableCount, spans)
    ensures written == Contents(parts) && tableCount == |Layout(parts)|
  {
    assert written + [] == written;
  }

  ghost predicate FitUpTo(m: CompiledModule, i: nat) {
    i <= KIND_COUNT && forall j: nat {:trigger Nth(j)} | j < i :: Fits(TableItems(m, Nth(j)))
  }

  lemma FitNext(m: CompiledModule, i: nat)
    requires FitUpTo(m, i) && i < KIND_COUNT
    ensures FitUpTo(m, i + 1) <==> Fits(TableItems(m, Nth(i)))
  {
  }

  lemma AllFit(m: CompiledModule)
    requires FitUpTo(m, KIND_COUNT)
    ensures forall kind :: Fits(TableItems(m, kind))
  {
    forall kind ensures Fits(TableItems(m, kind)) {
      assert Nth(Place(kind)) == kind;
    }
  }

  /** The span of a table; that of an empty one is empty. */
  function SpanOf(spans: map<TableKind, (nat, nat)>, kind: TableKind): (nat, nat) {
    if kind in spans then spans[kind] else (0, 0)
  }

  function SpanItems(kind: TableKind, span: (nat, nat), rest: Items): Items {
    if span.1 == 0 then rest else HeaderItems(Table(kind, span.0, span.1), rest)
  }

  /** Writes the header of a table, unless it is empty. */
  method SerializeTableIndex(binary: seq<Byte>, kind: TableKind, span: (nat, nat), ghost items: Items,
                             ghost rest: Items)
    returns (r: Result<seq<Byte>, Error>)
    requires items == SpanItems(kind, span, rest)
    ensures Wrote(binary, items, rest, r)
  {
    if span.1 == 0 {
      return Ok(binary);
    }
    ghost var size := Num(span.1, U32_MAX, rest);
    var written := WriteWord(binary, KindCode(kind), 1, Num(span.0, U32_MAX, size));
    written :- WriteNum(written, span.0, U32_MAX, size);
    r := WriteNum(written, span.1, U32_MAX, rest);
  }

  /** Collects where the tables are while they are written. */
  class ModuleSerializer {
    var tableCount: nat
    /** The offset and the size of every table that was written. */
    var spans: map<TableKind, (nat, nat)>

    constructor ()
      ensures tableCount == 0 && spans == map[]
    {
      tableCount, spans := 0, map[];
    }

    /** Writes a table, unless it has no rows. */
    method SerializeTable(binary: seq<Byte>, kind: TableKind, rows: seq<Row>) returns (r: Result<seq<Byte>, Error>)
      modifies this
      ensures r.Ok? <==>
                Fits(RowsFrom(rows, 0)) && (rows == [] || |binary| + |Bytes(RowsFrom(rows, 0))| <= U32_MAX)
      ensures r.Ok? ==> r.value == binary + Bytes(RowsFrom(rows, 0))
      ensures r.Ok? && rows == [] ==> tableCount == old(tableCount) && spans == old(spans)
      ensures r.Ok? && rows != [] ==>
                && tableCount == old(tableCount) + 1
                && spans == old(spans)[kind := (|binary|, |Bytes(RowsFrom(rows, 0))|)]
    {
      if rows == [] {
        assert binary + [] == binary;
        return Ok(binary);
      }
      tableCount := tableCount + 1;
      if |binary| > U32_MAX {
        return Err(Malformed);
      }
      var written :- WriteRows(binary, rows);
      if |written| > U32_MAX {
        return Err(Malformed);
      }
      spans := spans[kind := (|binary|, |written| - |binary|)];
      r := Ok(written);
    }

    /** Writes all the tables. */
    method SerializeTables(m: CompiledModule) returns (r: Result<seq<Byte>, Error>)
      requires tableCount == 0 && spans == map[] && AddressesOk(m)
      modifies this
      ensures r.Ok? ==>
                && (forall kind :: Fits(TableItems(m, kind)))
                && r.value == Contents(PartsOf(m)) && |r.value| <= U32_MAX
                && tableCount == |Layout(PartsOf(m))| && SpansOk(PartsOf(m), KIND_COUNT, spans)
      ensures r.Err? ==> !Serializable(m)
    {
      ghost var parts := PartsOf(m);
      var written: seq<Byte> := [];
      assert written + Contents(parts) == Contents(parts);
      for i := 0 to KIND_COUNT
        invariant Progress(parts, i, written, tableCount, spans) && |written| <= U32_MAX
        invariant FitUpTo(m, i)
      {
        TableHasBytes(m, Nth(i));
        NextProgress(parts, i, written, tableCount, spans);
        FitNext(m, i);
        ghost var before, was := written, spans;
        written :- SerializeTable(written, Nth(i), Rows(m, Nth(i)));
        assert written == before + parts[i];
        assert spans == if parts[i] == [] then was else was[Nth(i) := (|before|, |parts[i]|)];
      }
      Finished(parts, written, tableCount, spans);
      AllFit(m);
      r := Ok(written);
    }

    /** Writes the headers of the tables that are not empty. */
    method SerializeTableIndices(binary: seq<Byte>, ghost parts: Parts, ghost rest: Items)
      returns (r: Result<seq<Byte>, Error>)
      requires tableCount == |Layout(parts)| && SpansOk(parts, KIND_COUNT, spans)
      ensures Wrote(binary, IndexItems(parts, rest), rest, r)
    {
      var written :- WriteNum(binary, tableCount, TABLE_COUNT_MAX, HeadersItems(Layout(parts), rest));
      StagesAre(parts, spans, rest);
      r := SerializeHeaders(written, spans, StagesOf(parts, rest));
    }
  }

  /** What is left to write before each of the tables. */
  ghost predicate Stages(spans: map<TableKind, (nat, nat)>, stages: seq<Items>) {
    && |stages| == KIND_COUNT + 1
    && forall i: nat | i < KIND_COUNT :: stages[i] == SpanItems(Nth(i), SpanOf(spans, Nth(i)), stages[i + 1])
  }

  method SerializeHeaders(binary: seq<Byte>, spans: map<TableKind, (nat, nat)>, ghost stages: seq<Items>)
    returns (r: Result<seq<Byte>, Error>)
    requires Stages(spans, stages)
    ensures Wrote(binary, stages[0], stages[KIND_COUNT], r)
  {
    var written := binary;
    for i := 0 to KIND_COUNT
      invariant Wrote(binary, stages[0], stages[i], Ok(written))
    {
      written :- SerializeTableIndex(written, Nth(i), SpanOf(spans, Nth(i)), stages[i], stages[i + 1]);
    }
    r := Ok(written);
  }

  ghost function StagesOf(parts: Parts, rest: Items): (stages: seq<Items>)
    ensures |stages| == KIND_COUNT + 1
    ensures forall i: nat | i <= KIND_COUNT :: stages[i] == HeadersItems(LayoutFrom(parts, i), rest)
  {
    seq(KIND_COUNT + 1, i requires 0 <= i <= KIND_COUNT => HeadersItems(LayoutFrom(parts, i), rest))
  }

  lemma StagesAre(parts: Parts, spans: map<TableKind, (nat, nat)>, rest: Items)
    requires SpansOk(parts, KIND_COUNT, spans)
    ensures Stages(spans, StagesOf(parts, rest))
  {
    var stages := StagesOf(parts, rest);
    forall i: nat | i < KIND_COUNT ensures stages[i] == SpanItems(Nth(i), SpanOf(spans, Nth(i)), stages[i + 1]) {
      HeadersNext(parts, i, spans, rest);
    }
  }

  lemma HeadersNext(parts: Parts, i: nat, spans: map<TableKind, (nat, nat)>, rest: Items)
    requires i < KIND_COUNT && SpansOk(parts, KIND_COUNT, spans)
    ensures HeadersItems(LayoutFrom(parts, i), rest) ==
            SpanItems(Nth(i), SpanOf(spans, Nth(i)), HeadersItems(LayoutFrom(parts, i + 1), rest))
  {
    if parts[i] == [] {
      assert LayoutFrom(parts, i) == LayoutFrom(parts, i + 1);
    } else {
      assert LayoutFrom(parts, i)[1..] == LayoutFrom(parts, i + 1);
    }
  }

  /** Writes what surrounds the contents: the magic bytes, the version, the headers, and the index of the module. */
  method SerializeBinary(
    buffer: seq<Byte>, serializer: ModuleSerializer, contents: seq<Byte>, self: nat, ghost parts: Parts)
    returns (r: Result<seq<Byte>, Error>)
    requires serializer.tableCount == |Layout(parts)| && SpansOk(parts, KIND_COUNT, serializer.spans)
    requires contents == Contents(parts)
    ensures Wrote(buffer, LayoutItems(parts, self, []), End, r)
  {
    ghost var closing := ClosingItems(parts, self, []);
    ghost var index := IndexItems(parts, closing);
    var written := WriteBlob(buffer, MAGIC, Word(VERSION_MAX, 4, index));
    written := WriteWord(written, VERSION_MAX, 4, index);
    written :- serializer.SerializeTableIndices(written, parts, closing);
    written := WriteBlob(written, contents, closing.rest);
    written :- WriteNum(written, self, TABLE_INDEX_MAX, Blob([], End));
    written := WriteBlob(written, [], End);
    r := Ok(written);
  }

  /**
   Appends the binary form of a module. This succeeds exactly if all numbers, types and sizes are within their limits.
   */
  method Serialize(m: CompiledModule, buffer: seq<Byte>) returns (r: Result<seq<Byte>, Error>)
    requires AddressesOk(m)
    ensures r.Ok? <==> Serializable(m)
    ensures r.Ok? ==> r.value == buffer + ModuleBytes(m)
  {
    var serializer := new ModuleSerializer();
    var temp :- serializer.SerializeTables(m);
    if |temp| > U32_MAX {
      return Err(Malformed);
    }
    BinaryFits(PartsOf(m), m.selfHandle, []);
    r := SerializeBinary(buffer, serializer, temp, m.selfHandle, PartsOf(m));
    assert r.Ok? ==> r.value + [] == r.value;
  }
}
