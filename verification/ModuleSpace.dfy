/** Modules that were read: they take up no more space than they did, and so can be written. */
module ModuleSpace {
  import opened FileFormat
  import opened SignatureTokens
  import opened BinaryItems
  import opened BinaryTables
  import opened RowLoader
  import opened TableChecks
  import opened ModuleLayout
  import opened FilledModules

  /** The bytes in tables of the given kind. */
  ghost function Room(tables: seq<Table>, kind: TableKind): nat {
    if tables == [] then 0 else (if tables[0].kind == kind then tables[0].count else 0) + Room(tables[1..], kind)
  }

  /** The bytes in tables of the first kinds. */
  ghost function RoomUpTo(tables: seq<Table>, i: nat): nat
    requires i <= KIND_COUNT
  {
    if i == 0 then 0 else RoomUpTo(tables, i - 1) + Room(tables, Nth(i - 1))
  }

  lemma {:induction false} RoomHas(tables: seq<Table>, t: Table)
    requires t in tables
    ensures t.count <= Room(tables, t.kind)
    decreases |tables|
  {
    if tables[0] != t {
      RoomHas(tables[1..], t);
    }
  }

  lemma {:induction false} RoomOfFirst(tables: seq<Table>, i: nat)
    requires tables != [] && i <= KIND_COUNT
    ensures RoomUpTo(tables, i) ==
            RoomUpTo(tables[1..], i) + if Place(tables[0].kind) < i then tables[0].count else 0
    decreases i
  {
    if i > 0 {
      RoomOfFirst(tables, i - 1);
      PlaceOf(i - 1);
    }
  }

  lemma {:induction false} RoomIsTotal(tables: seq<Table>)
    ensures RoomUpTo(tables, KIND_COUNT) == Total(tables)
    decreases |tables|
  {
    if tables == [] {
      NoRoom(KIND_COUNT);
    } else {
      RoomOfFirst(tables, KIND_COUNT);
      RoomIsTotal(tables[1..]);
    }
  }

  lemma {:induction false} NoRoom(i: nat)
    requires i <= KIND_COUNT
    ensures RoomUpTo([], i) == 0
  {
    if i > 0 {
      NoRoom(i - 1);
    }
  }

  /** The rows of the table can be written and read again, in no more space than the headers say. */
  ghost predicate HeldTable(m: CompiledModule, tables: seq<Table>, kind: TableKind) {
    && TableRows(Rows(m, kind), kind) && Legal(TableItems(m, kind))
    && |Bytes(TableItems(m, kind))| <= Room(tables, kind)
  }

  ghost predicate Held(m: CompiledModule, tables: seq<Table>) {
    forall kind :: HeldTable(m, tables, kind)
  }

  /** The parts fit into the room for their tables. */
  ghost predicate PartFits(parts: Parts, tables: seq<Table>, i: nat)
    requires i < KIND_COUNT
  {
    |parts[i]| <= Room(tables, Nth(i))
  }

  lemma {:induction false} StartFits(parts: Parts, tables: seq<Table>, i: nat)
    requires i <= KIND_COUNT && forall j: nat | j < i :: PartFits(parts, tables, j)
    ensures Start(parts, i) <= RoomUpTo(tables, i)
    decreases i
  {
    if i > 0 {
      StartFits(parts, tables, i - 1);
      assert PartFits(parts, tables, i - 1);
    }
  }

  lemma ContentsAreHeld(m: CompiledModule, tables: seq<Table>)
    requires Held(m, tables)
    ensures |Contents(PartsOf(m))| <= Total(tables)
  {
    var parts := PartsOf(m);
    forall i: nat | i < KIND_COUNT ensures PartFits(parts, tables, i) {
      assert HeldTable(m, tables, Nth(i));
    }
    ContentsFit(parts, tables);
  }

  lemma ContentsFit(parts: Parts, tables: seq<Table>)
    requires forall i: nat | i < KIND_COUNT :: PartFits(parts, tables, i)
    ensures |Contents(parts)| <= Total(tables)
  {
    StartFits(parts, tables, KIND_COUNT);
    RoomIsTotal(tables);
    ContentsAt(parts, KIND_COUNT, Contents(parts));
  }

  /** Whatever was read can be written and read again. */
  lemma HeldIsOk(m: CompiledModule, tables: seq<Table>)
    requires Held(m, tables) && Total(tables) <= U32_MAX && m.selfHandle <= TABLE_INDEX_MAX
    ensures Serializable(m) && SizedModule(m) && FilledModule(m)
  {
    ContentsAreHeld(m, tables);
    forall kind
      ensures Fits(TableItems(m, kind)) && Sized(TableItems(m, kind)) && TableRows(Rows(m, kind), kind)
      ensures FilledTable(m, kind)
    {
      assert HeldTable(m, tables, kind);
      RowsFilled(Rows(m, kind), 0);
    }
  }
}
