/** The check of table headers: the tables must not repeat a kind, and must cover the contents without overlap. */
module TableChecks {
  import opened Wrappers
  import opened Uleb128
  import opened BinaryTables

  /** The header of a table: where its bytes are among the contents. */
  datatype Table = Table(kind: TableKind, offset: nat, count: nat)

  predicate Covers(t: Table, x: nat) {
    t.offset <= x < t.offset + t.count
  }

  /** The tables that hold a byte. */
  ghost function Holding(x: nat): Table -> bool {
    (t: Table) => Covers(t, x)
  }

  ghost function OfKind(kind: TableKind): Table -> bool {
    (t: Table) => t.kind == kind
  }

  ghost function Count(tables: seq<Table>, p: Table -> bool): nat {
    if tables == [] then 0 else (if p(tables[0]) then 1 else 0) + Count(tables[1..], p)
  }

  /** The tables are not empty, and hold each byte from `lo` to `hi` exactly once, and no other. */
  ghost predicate Tiles(tables: seq<Table>, lo: nat, hi: nat) {
    && lo <= hi
    && (forall t | t in tables :: t.count > 0)
    && forall x: nat :: Count(tables, Holding(x)) == if lo <= x < hi then 1 else 0
  }

  /** No kind of table is there twice. */
  ghost predicate KindsDiffer(tables: seq<Table>) {
    forall kind :: Count(tables, OfKind(kind)) <= 1
  }

  // ---------------------------------------------------------------------------------------------
  // Counting
  // ---------------------------------------------------------------------------------------------

  lemma {:induction false} CountConcat(a: seq<Table>, b: seq<Table>, p: Table -> bool)
    ensures Count(a + b, p) == Count(a, p) + Count(b, p)
    decreases |a|
  {
    if a == [] {
      assert a + b == b;
    } else {
      assert (a + b)[1..] == a[1..] + b;
      CountConcat(a[1..], b, p);
    }
  }

  lemma CountOne(t: Table, p: Table -> bool)
    ensures Count([t], p) == if p(t) then 1 else 0
  {
    assert [t][1..] == [];
  }

  lemma {:induction false} CountNone(tables: seq<Table>, p: Table -> bool)
    requires forall t | t in tables :: !p(t)
    ensures Count(tables, p) == 0
    decreases |tables|
  {
    if tables != [] {
      CountNone(tables[1..], p);
    }
  }

  lemma {:induction false} CountSome(tables: seq<Table>, p: Table -> bool, t: Table)
    requires t in tables && p(t)
    ensures Count(tables, p) > 0
    decreases |tables|
  {
    if tables[0] != t {
      CountSome(tables[1..], p, t);
    }
  }

  /** The count of the first tables and the next. */
  lemma CountNext(tables: seq<Table>, i: nat, p: Table -> bool)
    requires i < |tables|
    ensures Count(tables[..i + 1], p) == Count(tables[..i], p) + if p(tables[i]) then 1 else 0
    ensures Count(tables[..i + 1], p) <= Count(tables, p)
  {
    assert tables[..i + 1] == tables[..i] + [tables[i]];
    CountConcat(tables[..i], [tables[i]], p);
    CountOne(tables[i], p);
    assert tables == tables[..i + 1] + tables[i + 1..];
    CountConcat(tables[..i + 1], tables[i + 1..], p);
  }

  // ---------------------------------------------------------------------------------------------
  // Sorting
  // ---------------------------------------------------------------------------------------------

  function Insert(t: Table, tables: seq<Table>): seq<Table> {
    if tables == [] || t.offset <= tables[0].offset then [t] + tables else [tables[0]] + Insert(t, tables[1..])
  }

  /** The tables by offset; those with the same offset stay in order. */
  function Sorted(tables: seq<Table>): seq<Table> {
    if tables == [] then [] else Insert(tables[0], Sorted(tables[1..]))
  }

  ghost predicate Ordered(tables: seq<Table>) {
    forall i, j | 0 <= i < j < |tables| :: tables[i].offset <= tables[j].offset
  }

  lemma {:induction false} Inserted(t: Table, tables: seq<Table>)
    requires Ordered(tables)
    ensures Ordered(Insert(t, tables)) && |Insert(t, tables)| == |tables| + 1
    ensures forall u :: u in Insert(t, tables) <==> u == t || u in tables
    decreases |tables|
  {
    if !(tables == [] || t.offset <= tables[0].offset) {
      Inserted(t, tables[1..]);
      assert tables == [tables[0]] + tables[1..];
      var rest := Insert(t, tables[1..]);
      forall j | 0 <= j < |rest| ensures tables[0].offset <= rest[j].offset {
        assert rest[j] in rest;
      }
    }
  }

  lemma {:induction false} InsertedCount(t: Table, tables: seq<Table>, p: Table -> bool)
    ensures Count(Insert(t, tables), p) == Count(tables, p) + if p(t) then 1 else 0
    decreases |tables|
  {
    if tables == [] || t.offset <= tables[0].offset {
      assert ([t] + tables)[1..] == tables;
    } else {
      InsertedCount(t, tables[1..], p);
      assert Insert(t, tables)[1..] == Insert(t, tables[1..]);
    }
  }

  lemma {:induction false} SortedIsOrdered(tables: seq<Table>)
    ensures Ordered(Sorted(tables)) && |Sorted(tables)| == |tables|
    ensures forall t :: t in Sorted(tables) <==> t in tables
    decreases |tables|
  {
    if tables != [] {
      SortedIsOrdered(tables[1..]);
      Inserted(tables[0], Sorted(tables[1..]));
      assert tables == [tables[0]] + tables[1..];
    }
  }

  /** Sorting keeps all counts. */
  lemma {:induction false} SortedCount(tables: seq<Table>, p: Table -> bool)
    ensures Count(Sorted(tables), p) == Count(tables, p)
    decreases |tables|
  {
    if tables != [] {
      SortedCount(tables[1..], p);
      InsertedCount(tables[0], Sorted(tables[1..]), p);
    }
  }

  lemma SortedTiles(tables: seq<Table>, hi: nat)
    ensures Tiles(Sorted(tables), 0, hi) <==> Tiles(tables, 0, hi)
    ensures KindsDiffer(Sorted(tables)) <==> KindsDiffer(tables)
  {
    SortedIsOrdered(tables);
    forall x: nat ensures Count(Sorted(tables), Holding(x)) == Count(tables, Holding(x)) {
      SortedCount(tables, Holding(x));
    }
    forall kind ensures Count(Sorted(tables), OfKind(kind)) == Count(tables, OfKind(kind)) {
      SortedCount(tables, OfKind(kind));
    }
  }

  // ---------------------------------------------------------------------------------------------
  // The check
  // ---------------------------------------------------------------------------------------------

  /** What the check demands of tables that hold `n` bytes. */
  ghost predicate TablesOk(tables: seq<Table>, binaryLength: nat, n: nat) {
    Tiles(tables, 0, n) && KindsDiffer(tables) && n <= U32_MAX && n <= binaryLength
  }

  /** A table ends within the bytes that are held. */
  lemma EndsWithin(tables: seq<Table>, lo: nat, n: nat, t: Table)
    requires Tiles(tables, lo, n) && t in tables
    ensures lo <= t.offset && t.offset + t.count <= n
  {
    CountSome(tables, Holding(t.offset), t);
    CountSome(tables, Holding(t.offset + t.count - 1), t);
  }

  /** A gap or an overlap behind the first tables. */
  lemma BadOffset(tables: seq<Table>, i: nat, current: nat, n: nat)
    requires Ordered(tables) && i < |tables| && Tiles(tables[..i], 0, current) && tables[i].offset != current
    ensures !Tiles(tables, 0, n)
  {
    if Tiles(tables, 0, n) {
      var t := tables[i];
      EndsWithin(tables, 0, n, t);
      if t.offset < current {
        CountNext(tables, i, Holding(t.offset));
      } else {
        assert tables == tables[..i] + tables[i..];
        CountConcat(tables[..i], tables[i..], Holding(current));
        CountNone(tables[i..], Holding(current));
      }
    }
  }

  lemma NextTile(tables: seq<Table>, i: nat, current: nat)
    requires i < |tables| && Tiles(tables[..i], 0, current)
    requires tables[i].offset == current && tables[i].count > 0
    ensures Tiles(tables[..i + 1], 0, current + tables[i].count)
  {
    forall x: nat
      ensures Count(tables[..i + 1], Holding(x)) == if x < current + tables[i].count then 1 else 0
    {
      CountNext(tables, i, Holding(x));
    }
    assert tables[..i + 1] == tables[..i] + [tables[i]];
  }

  /** The kinds of the first tables are the given ones, each of them once. */
  ghost predicate KindsAre(tables: seq<Table>, kinds: set<TableKind>) {
    forall kind :: Count(tables, OfKind(kind)) == if kind in kinds then 1 else 0
  }

  lemma NextKind(tables: seq<Table>, i: nat, kinds: set<TableKind>)
    requires i < |tables| && KindsAre(tables[..i], kinds)
    ensures tables[i].kind in kinds ==> !KindsDiffer(tables)
    ensures tables[i].kind !in kinds ==> KindsAre(tables[..i + 1], kinds + {tables[i].kind})
  {
    forall kind
      ensures Count(tables[..i + 1], OfKind(kind)) ==
              (if kind in kinds then 1 else 0) + (if kind == tables[i].kind then 1 else 0)
      ensures Count(tables[..i + 1], OfKind(kind)) <= Count(tables, OfKind(kind))
    {
      CountNext(tables, i, OfKind(kind));
    }
  }

  ghost function Total(tables: seq<Table>): nat {
    if tables == [] then 0 else tables[0].count + Total(tables[1..])
  }

  lemma {:induction false} TotalNext(tables: seq<Table>, t: Table)
    ensures Total(tables + [t]) == Total(tables) + t.count
    decreases |tables|
  {
    if tables == [] {
      assert ([] + [t])[1..] == [];
    } else {
      assert (tables + [t])[1..] == tables[1..] + [t];
      TotalNext(tables[1..], t);
    }
  }

  /** Checks headers in the order of their offsets, and gives the number of bytes that they cover. */
  method CheckSorted(tables: seq<Table>, binaryLength: nat) returns (r: Result<nat, Error>)
    requires Ordered(tables)
    ensures r.Ok? ==> TablesOk(tables, binaryLength, r.value) && Total(tables) == r.value
    ensures r.Err? ==> forall n :: !TablesOk(tables, binaryLength, n)
  {
    var current: nat, kinds := 0, {};
    for i := 0 to |tables|
      invariant Tiles(tables[..i], 0, current) && KindsAre(tables[..i], kinds)
      invariant current <= U32_MAX && current <= binaryLength && current == Total(tables[..i])
    {
      var table := tables[i];
      if table.offset != current {
        forall n ensures !Tiles(tables, 0, n) {
          BadOffset(tables, i, current, n);
        }
        return Err(Malformed);
      }
      if table.count == 0 {
        return Err(Malformed);
      }
      forall n | Tiles(tables, 0, n) ensures current + table.count <= n {
        EndsWithin(tables, 0, n, table);
      }
      NextTile(tables, i, current);
      NextKind(tables, i, kinds);
      if current + table.count > U32_MAX {
        return Err(Malformed);
      }
      assert tables[..i + 1] == tables[..i] + [table];
      TotalNext(tables[..i], table);
      current := current + table.count;
      if table.kind in kinds {
        return Err(Malformed);
      }
      kinds := kinds + {table.kind};
      if current > binaryLength {
        return Err(Malformed);
      }
    }
    assert tables[..|tables|] == tables;
    r := Ok(current);
  }

  /**
   Sorts and checks headers. They pass exactly if they hold every byte of the contents once, no table is empty, no kind
   is repeated, and the contents are not longer than the binary.
   */
  method CheckTables(tables: seq<Table>, binaryLength: nat) returns (r: Result<nat, Error>, sorted: seq<Table>)
    ensures sorted == Sorted(tables)
    ensures r.Ok? ==> TablesOk(tables, binaryLength, r.value) && Total(sorted) == r.value
    ensures r.Err? ==> forall n :: !TablesOk(tables, binaryLength, n)
  {
    sorted := Sorted(tables);
    SortedIsOrdered(tables);
    r := CheckSorted(sorted, binaryLength);
    forall n: nat ensures TablesOk(sorted, binaryLength, n) <==> TablesOk(tables, binaryLength, n) {
      SortedTiles(tables, n);
    }
  }

  /** The tables determine how many bytes they hold. */
  lemma TilesUnique(tables: seq<Table>, n: nat, n': nat)
    requires Tiles(tables, 0, n) && Tiles(tables, 0, n')
    ensures n == n'
  {
    assert Count(tables, Holding(n)) == if n < n' then 1 else 0;
    assert Count(tables, Holding(n')) == if n' < n then 1 else 0;
  }
}
