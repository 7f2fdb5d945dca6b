/** No two modules have the same binary form, whatever follows it. */
module UniqueModules {
  import opened FileFormat
  import opened Uleb128
  import opened SignatureTokens
  import opened BinaryItems
  import opened BinaryTables
  import opened TableChecks
  import opened ModuleLayout
  import opened UniqueDecoding

  lemma HeaderBoth(binary: seq<Byte>, p: nat, t: Table, r: Items, t': Table, r': Items) returns (q: nat)
    requires Both(binary, p, HeaderItems(t, r), HeaderItems(t', r'))
    ensures t == t' && Both(binary, q, r, r')
  {
    var count, count' := Num(t.count, U32_MAX, r), Num(t'.count, U32_MAX, r');
    q := WordBoth(binary, p, 1, KindCode(t.kind), Num(t.offset, U32_MAX, count),
                  KindCode(t'.kind), Num(t'.offset, U32_MAX, count'));
    q := NumBoth(binary, q, U32_MAX, t.offset, count, t'.offset, count');
    q := NumBoth(binary, q, U32_MAX, t.count, r, t'.count, r');
    KindAgain(t.kind);
    KindAgain(t'.kind);
  }

  lemma KindAgain(kind: TableKind)
    ensures KindOf(KindCode(kind)).Some? && KindOf(KindCode(kind)).value == kind
  {
  }

  lemma {:induction false} HeadersBoth(binary: seq<Byte>, p: nat, ts: seq<Table>, r: Items, ts': seq<Table>, r': Items)
    returns (q: nat)
    requires |ts| == |ts'| && Both(binary, p, HeadersItems(ts, r), HeadersItems(ts', r'))
    ensures ts == ts' && Both(binary, q, r, r')
    decreases |ts|
  {
    if ts == [] {
      q := p;
    } else {
      q := HeaderBoth(binary, p, ts[0], HeadersItems(ts[1..], r), ts'[0], HeadersItems(ts'[1..], r'));
      q := HeadersBoth(binary, q, ts[1..], r, ts'[1..], r');
      assert ts == [ts[0]] + ts[1..] && ts' == [ts'[0]] + ts'[1..];
    }
  }

  lemma {:induction false} HeaderIsThere(parts: Parts, i: nat, k: nat)
    requires i <= k < KIND_COUNT && parts[k] != []
    ensures Table(Nth(k), Start(parts, k), |parts[k]|) in LayoutFrom(parts, i)
    decreases k - i
  {
    if i < k {
      HeaderIsThere(parts, i + 1, k);
    }
  }

  lemma PartIsSame(parts: Parts, parts': Parts, k: nat)
    requires Layout(parts) == Layout(parts') && Contents(parts) == Contents(parts') && k < KIND_COUNT && parts[k] != []
    ensures parts[k] == parts'[k]
  {
    var t := Table(Nth(k), Start(parts, k), |parts[k]|);
    HeaderIsThere(parts, 0, k);
    LayoutFinds(parts, t);
    LayoutFinds(parts', t);
    PlaceOf(k);
  }

  /** The headers and the contents determine the bytes of each table. */
  lemma PartsAreSame(parts: Parts, parts': Parts)
    requires Layout(parts) == Layout(parts') && Contents(parts) == Contents(parts')
    ensures parts == parts'
  {
    forall k | 0 <= k < KIND_COUNT ensures parts[k] == parts'[k] {
      if parts[k] != [] {
        PartIsSame(parts, parts', k);
      } else if parts'[k] != [] {
        PartIsSame(parts', parts, k);
      }
    }
  }

  lemma LengthIsSame(parts: Parts, parts': Parts)
    requires Layout(parts) == Layout(parts')
    ensures |Contents(parts)| == |Contents(parts')|
  {
    LayoutTiles(parts, 0);
    LayoutTiles(parts', 0);
    TilesUnique(Layout(parts), |Contents(parts)|, |Contents(parts')|);
  }

  lemma ClosingBoth(
    binary: seq<Byte>, p: nat, parts: Parts, self: nat, trailer: seq<Byte>, parts': Parts, self': nat,
    trailer': seq<Byte>)
    requires Both(binary, p, ClosingItems(parts, self, trailer), ClosingItems(parts', self', trailer'))
    requires Layout(parts) == Layout(parts')
    ensures parts == parts' && self == self'
  {
    LengthIsSame(parts, parts');
    var end, end' := Blob(trailer, End), Blob(trailer', End);
    var q := BlobBoth(binary, p, Contents(parts), Num(self, TABLE_INDEX_MAX, end),
                      Contents(parts'), Num(self', TABLE_INDEX_MAX, end'));
    q := NumBoth(binary, q, TABLE_INDEX_MAX, self, end, self', end');
    PartsAreSame(parts, parts');
  }

  lemma LayoutBoth(
    binary: seq<Byte>, parts: Parts, self: nat, trailer: seq<Byte>, parts': Parts, self': nat, trailer': seq<Byte>)
    requires Both(binary, 0, LayoutItems(parts, self, trailer), LayoutItems(parts', self', trailer'))
    ensures parts == parts' && self == self'
  {
    var c, c' := ClosingItems(parts, self, trailer), ClosingItems(parts', self', trailer');
    var i, i' := IndexItems(parts, c), IndexItems(parts', c');
    var q := BlobBoth(binary, 0, MAGIC, Word(VERSION_MAX, 4, i), MAGIC, Word(VERSION_MAX, 4, i'));
    q := WordBoth(binary, q, 4, VERSION_MAX, i, VERSION_MAX, i');
    q := NumBoth(binary, q, TABLE_COUNT_MAX, |Layout(parts)|, i.rest, |Layout(parts')|, i'.rest);
    q := HeadersBoth(binary, q, Layout(parts), c, Layout(parts'), c');
    ClosingBoth(binary, q, parts, self, trailer, parts', self', trailer');
  }

  /** The form of a module is the start of a binary. */
  lemma ModuleHere(binary: seq<Byte>, m: CompiledModule, trailer: seq<Byte>)
    requires Serializable(m) && binary == ModuleBytes(m) + trailer
    ensures Here(binary, 0, LayoutItems(PartsOf(m), m.selfHandle, trailer))
  {
    TrailerFollows(PartsOf(m), m.selfHandle, trailer);
    BinaryFits(PartsOf(m), m.selfHandle, trailer);
    assert Left(binary, 0, binary);
  }

  lemma TableUnique(m: CompiledModule, m': CompiledModule, kind: TableKind)
    requires Serializable(m) && RegularModule(m) && Serializable(m') && RegularModule(m') && PartsOf(m) == PartsOf(m')
    ensures SameTable(m, m', kind)
  {
    var bytes := PartsOf(m)[Place(kind)];
    assert Nth(Place(kind)) == kind && Left(bytes, 0, bytes);
    RowsBoth(kind, bytes, 0, Rows(m, kind), Rows(m', kind), 0);
    SameRows(m, m', kind);
  }

  /** Modules whose binary forms start the same binary are the same, except for their versions. */
  lemma ModuleUnique(m: CompiledModule, trailer: seq<Byte>, m': CompiledModule, trailer': seq<Byte>)
    requires Serializable(m) && RegularModule(m) && Serializable(m') && RegularModule(m')
    requires ModuleBytes(m) + trailer == ModuleBytes(m') + trailer'
    ensures m == m'.(version := m.version)
  {
    var binary := ModuleBytes(m) + trailer;
    ModuleHere(binary, m, trailer);
    ModuleHere(binary, m', trailer');
    LayoutBoth(binary, PartsOf(m), m.selfHandle, trailer, PartsOf(m'), m'.selfHandle, trailer');
    forall kind ensures SameTable(m, m'.(version := m.version), kind) {
      TableUnique(m, m', kind);
    }
    SameModule(m, m'.(version := m.version));
  }
}
