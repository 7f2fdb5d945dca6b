/** The binary form, byte for byte: a recursive description of types, and the smallest definitions and modules. */
module BinaryForms {
  import opened Wrappers
  import opened FileFormat
  import opened Uleb128
  import opened TypeTrees
  import opened SignatureTokens
  import opened BinaryItems
  import opened BinaryTables
  import opened RowLoader
  import opened ModuleLayout

  /** A type as bytes: a code, numbers, then the types inside. */
  function Spelled(t: SignatureToken): seq<Byte> {
    match t
    case Bool => [1]
    case U8 => [2]
    case U64 => [3]
    case U128 => [4]
    case Address => [5]
    case Reference(inner) => [6] + Spelled(inner)
    case MutableReference(inner) => [7] + Spelled(inner)
    case Struct(h) => [8] + Encode(h)
    case TypeParameter(i) => [9] + Encode(i)
    case Vector(elem) => [10] + Spelled(elem)
    case StructInstantiation(h, args) => [11] + Encode(h) + Encode(|args|) + AllSpelled(args)
    case Signer => [12]
  }

  function AllSpelled(ts: seq<SignatureToken>): seq<Byte> {
    if ts == [] then [] else Spelled(ts[0]) + AllSpelled(ts[1..])
  }

  lemma LeafSpelled(t: SignatureToken)
    requires !t.Reference? && !t.MutableReference? && !t.Vector? && !t.StructInstantiation?
    ensures Spelled(t) == NodeBytes(NodeOf(t)) && Children(t) == []
  {
  }

  lemma WrapperSpelled(t: SignatureToken, inner: SignatureToken)
    requires t == Reference(inner) || t == MutableReference(inner) || t == Vector(inner)
    ensures Spelled(t) == NodeBytes(NodeOf(t)) + Spelled(inner) && Children(t) == [inner]
  {
  }

  lemma InstantiationSpelled(h: nat, args: seq<SignatureToken>)
    ensures var t := StructInstantiation(h, args);
            Spelled(t) == NodeBytes(NodeOf(t)) + AllSpelled(args) && Children(t) == args
  {
  }

  lemma NodeSpelled(t: SignatureToken)
    ensures Spelled(t) == NodeBytes(NodeOf(t)) + AllSpelled(Children(t))
  {
    if t.StructInstantiation? {
      InstantiationSpelled(t.handle, t.args);
    } else if t.Reference? || t.MutableReference? || t.Vector? {
      var inner := if t.Vector? then t.elem else t.inner;
      WrapperSpelled(t, inner);
      OneSpelled(inner);
    } else {
      LeafSpelled(t);
      assert NodeBytes(NodeOf(t)) + [] == NodeBytes(NodeOf(t));
    }
  }

  lemma OneSpelled(t: SignatureToken)
    ensures AllSpelled([t]) == Spelled(t)
  {
    assert [t][1..] == [] && Spelled(t) + [] == Spelled(t);
  }

  /** What the printer writes, node by node and with a stack, is this. */
  lemma {:induction false} PrintedAs(t: SignatureToken)
    ensures Print(t) == Spelled(t)
    decreases Size(t), 0
  {
    SizeOf(t);
    NodeSpelled(t);
    AllPrintedAs(Children(t));
    BytesOfConcat([NodeOf(t)], FlattenAll(Children(t)));
    BytesOfOne(NodeOf(t));
  }

  lemma {:induction false} AllPrintedAs(ts: seq<SignatureToken>)
    ensures BytesOf(FlattenAll(ts)) == AllSpelled(ts)
    decreases SizeAll(ts), 1, |ts|
  {
    if ts != [] {
      PrintedAs(ts[0]);
      AllPrintedAs(ts[1..]);
      BytesOfConcat(Flatten(ts[0]), FlattenAll(ts[1..]));
    }
  }

  // ---------------------------------------------------------------------------------------------
  // The smallest
  // ---------------------------------------------------------------------------------------------

  lemma OneByte(x: nat, max: U64, rest: Items)
    requires x < 0x80
    ensures Bytes(Word(x, 1, rest)) == [x] + Bytes(rest) && Bytes(Num(x, max, rest)) == [x] + Bytes(rest)
  {
    assert LittleEndian(x, 1) == [x] + LittleEndian(0, 0);
  }

  /** A native struct: its handle, and the flag for native ones. */
  lemma NativeStructForm(h: nat)
    ensures Bytes(RowItems(StructDefRow(StructDefinition(h, Native)), End)) == Encode(h) + [1]
  {
    OneByte(1, 0, End);
  }

  /** A native function: its handle, visibility, the flag for native ones, and no structs that it acquires. */
  lemma NativeFunctionForm(h: nat, v: Visibility)
    ensures var visibility := match v case Private => 0 case Public => 1 case Script => 2 case Friend => 3;
            Bytes(RowItems(FunctionDefRow(FunctionDefinition(h, v, [], None)), End)) ==
            Encode(h) + [visibility, 2, 0]
  {
    var none := Num(0, ACQUIRES_COUNT_MAX, End);
    OneByte(0, ACQUIRES_COUNT_MAX, End);
    OneByte(2, 0, none);
    OneByte(VisibilityCode(v), 0, Word(2, 1, none));
  }

  /** The tables of the module are all empty. */
  predicate IsEmpty(m: CompiledModule) {
    forall kind :: Rows(m, kind) == []
  }

  lemma EmptyParts(m: CompiledModule)
    requires IsEmpty(m)
    ensures forall i | 0 <= i < KIND_COUNT :: PartsOf(m)[i] == []
  {
    forall i: nat | i < KIND_COUNT ensures PartsOf(m)[i] == [] {
      assert Rows(m, Nth(i)) == [];
    }
  }

  lemma {:induction false} NothingFrom(parts: Parts, i: nat)
    requires i <= KIND_COUNT && forall k | 0 <= k < KIND_COUNT :: parts[k] == []
    ensures ContentsFrom(parts, i) == [] && LayoutFrom(parts, i) == []
    decreases KIND_COUNT - i
  {
    if i < KIND_COUNT {
      NothingFrom(parts, i + 1);
    }
  }

  lemma SmallByte(x: nat, size: nat)
    requires x < 0x100 && size > 0
    ensures LittleEndian(x, size) == [x] + LittleEndian(0, size - 1)
  {
  }

  lemma FiveInFour()
    ensures LittleEndian(5, 4) == [5, 0, 0, 0]
  {
    SmallByte(5, 4);
    SmallByte(0, 3);
    SmallByte(0, 2);
    SmallByte(0, 1);
  }

  lemma VersionBytes(rest: Items)
    ensures Bytes(Word(5, 4, rest)) == [5, 0, 0, 0] + Bytes(rest)
  {
    FiveInFour();
  }

  /** A module without anything: the magic number, the version, no tables, and the number of its own handle. */
  lemma EmptyModuleForm(m: CompiledModule)
    requires IsEmpty(m)
    ensures ModuleBytes(m) == [0xA1, 0x1C, 0xEB, 0x0B] + [5, 0, 0, 0] + [0] + Encode(m.selfHandle)
  {
    var parts := PartsOf(m);
    EmptyParts(m);
    NothingFrom(parts, 0);
    var trailer: Items := Blob([], End);
    var closing := ClosingItems(parts, m.selfHandle, []);
    assert Bytes(trailer) == [];
    assert Bytes(closing) == Encode(m.selfHandle);
    OneByte(0, TABLE_COUNT_MAX, closing);
    VersionBytes(IndexItems(parts, closing));
  }
}
