/** No two rows, tables or modules have the same binary form, whatever follows it. */
module UniqueDecoding {
  import opened Wrappers
  import opened Abilities
  import opened Bytecodes
  import opened FileFormat
  import opened Slices
  import opened Streams
  import opened TypeTrees
  import opened Uleb128
  import opened SignatureTokens
  import opened TokenLoader
  import opened BinaryItems
  import opened BinaryInstructions
  import opened BinaryTables
  import opened RowParts
  import opened RowLoader

  /** Both are what is left of the binary. */
  ghost predicate Both(binary: seq<Byte>, position: nat, a: Items, b: Items) {
    Here(binary, position, a) && Here(binary, position, b)
  }

  // ---------------------------------------------------------------------------------------------
  // Single items
  // ---------------------------------------------------------------------------------------------

  lemma NumBoth(binary: seq<Byte>, p: nat, max: U64, x: nat, r: Items, x': nat, r': Items) returns (q: nat)
    requires Both(binary, p, Num(x, max, r), Num(x', max, r'))
    ensures x == x' && Both(binary, q, r, r')
  {
    NumIsNext(binary, p, x, max, r);
    NumIsNext(binary, p, x', max, r');
    EncodedUnique(binary, p, x, x');
    q := p + |Encode(x)|;
  }

  lemma WordBoth(binary: seq<Byte>, p: nat, size: nat, x: nat, r: Items, x': nat, r': Items) returns (q: nat)
    requires Both(binary, p, Word(x, size, r), Word(x', size, r'))
    ensures x == x' && Both(binary, q, r, r')
  {
    WordIsNext(binary, p, x, size, r);
    WordIsNext(binary, p, x', size, r');
    q := p + size;
  }

  lemma BlobBoth(binary: seq<Byte>, p: nat, x: seq<Byte>, r: Items, x': seq<Byte>, r': Items) returns (q: nat)
    requires Both(binary, p, Blob(x, r), Blob(x', r')) && |x| == |x'|
    ensures x == x' && Both(binary, q, r, r')
  {
    BlobIsNext(binary, p, x, r);
    BlobIsNext(binary, p, x', r');
    q := p + |x|;
  }

  lemma TokenUnique(binary: seq<Byte>, p: nat, t: SignatureToken, t': SignatureToken)
    requires p <= |binary| && Depth(t) <= DEPTH_MAX && Depth(t') <= DEPTH_MAX
    requires PrintedAt(binary, p, t, p + |Print(t)|) && PrintedAt(binary, p, t', p + |Print(t')|)
    ensures t == t'
  {
    NodeReaderSound(binary);
    var positions, nodes := AllExist(NodeReader(binary), |binary|, p);
    PrintedIsParsed(binary, positions, nodes, t);
    PrintedIsParsed(binary, positions, nodes, t');
  }

  lemma SameToken(binary: seq<Byte>, p: nat, t: SignatureToken, r: Items, t': SignatureToken, r': Items)
    requires Both(binary, p, Type(t, r), Type(t', r'))
    ensures t == t'
  {
    TypeIsNext(binary, p, t, r);
    TypeIsNext(binary, p, t', r');
    TokenUnique(binary, p, t, t');
  }

  lemma TypeBoth(binary: seq<Byte>, p: nat, t: SignatureToken, r: Items, t': SignatureToken, r': Items)
    returns (q: nat)
    requires Both(binary, p, Type(t, r), Type(t', r'))
    ensures t == t' && Both(binary, q, r, r')
  {
    SameToken(binary, p, t, r, t', r');
    TypeIsNext(binary, p, t, r);
    TypeIsNext(binary, p, t, r');
    q := p + |Print(t)|;
  }

  // ---------------------------------------------------------------------------------------------
  // Parts of rows
  // ---------------------------------------------------------------------------------------------

  lemma PairBoth(binary: seq<Byte>, p: nat, max: U64, a: nat, b: nat, r: Items, a': nat, b': nat, r': Items)
    returns (q: nat)
    requires Both(binary, p, PairItems(a, b, max, r), PairItems(a', b', max, r'))
    ensures a == a' && b == b' && Both(binary, q, r, r')
  {
    q := NumBoth(binary, p, TABLE_INDEX_MAX, a, Num(b, max, r), a', Num(b', max, r'));
    q := NumBoth(binary, q, max, b, r, b', r');
  }

  lemma AbilityBoth(binary: seq<Byte>, p: nat, s: AbilitySet, r: Items, s': AbilitySet, r': Items) returns (q: nat)
    requires Both(binary, p, AbilityItems(s, r), AbilityItems(s', r'))
    ensures s == s' && Both(binary, q, r, r')
  {
    q := NumBoth(binary, p, ABILITIES_MAX, IntoU8(s), r, IntoU8(s'), r');
    FromBits(s);
    FromBits(s');
  }

  lemma {:induction false} AbilitiesFromBoth(
    binary: seq<Byte>, p: nat, s: seq<AbilitySet>, r: Items, s': seq<AbilitySet>, r': Items, i: nat)
    returns (q: nat)
    requires |s| == |s'| && i <= |s| && s[..i] == s'[..i]
    requires Both(binary, p, AbilitiesFrom(s, i, r), AbilitiesFrom(s', i, r'))
    ensures s == s' && Both(binary, q, r, r')
    decreases |s| - i
  {
    if i == |s| {
      assert s[..i] == s && s'[..i] == s';
      q := p;
    } else {
      q := AbilityBoth(binary, p, s[i], AbilitiesFrom(s, i + 1, r), s'[i], AbilitiesFrom(s', i + 1, r'));
      Grown(s, i);
      Grown(s', i);
      q := AbilitiesFromBoth(binary, q, s, r, s', r', i + 1);
    }
  }

  lemma AbilitiesBoth(binary: seq<Byte>, p: nat, s: seq<AbilitySet>, r: Items, s': seq<AbilitySet>, r': Items)
    returns (q: nat)
    requires Both(binary, p, AbilitiesItems(s, r), AbilitiesItems(s', r'))
    ensures s == s' && Both(binary, q, r, r')
  {
    q := NumBoth(binary, p, TYPE_PARAMETER_COUNT_MAX, |s|, AbilitiesFrom(s, 0, r), |s'|, AbilitiesFrom(s', 0, r'));
    q := AbilitiesFromBoth(binary, q, s, r, s', r', 0);
  }

  lemma ParameterBoth(
    binary: seq<Byte>, p: nat, x: StructTypeParameter, r: Items, x': StructTypeParameter, r': Items)
    returns (q: nat)
    requires Both(binary, p, ParameterItems(x, r), ParameterItems(x', r'))
    ensures x == x' && Both(binary, q, r, r')
  {
    var f, f' := if x.isPhantom then 1 else 0, if x'.isPhantom then 1 else 0;
    q := AbilityBoth(binary, p, x.constraints, Num(f, 1, r), x'.constraints, Num(f', 1, r'));
    q := NumBoth(binary, q, 1, f, r, f', r');
  }

  lemma {:induction false} ParametersFromBoth(
    binary: seq<Byte>, p: nat, s: seq<StructTypeParameter>, r: Items, s': seq<StructTypeParameter>, r': Items, i: nat)
    returns (q: nat)
    requires |s| == |s'| && i <= |s| && s[..i] == s'[..i]
    requires Both(binary, p, ParametersFrom(s, i, r), ParametersFrom(s', i, r'))
    ensures s == s' && Both(binary, q, r, r')
    decreases |s| - i
  {
    if i == |s| {
      assert s[..i] == s && s'[..i] == s';
      q := p;
    } else {
      q := ParameterBoth(binary, p, s[i], ParametersFrom(s, i + 1, r), s'[i], ParametersFrom(s', i + 1, r'));
      Grown(s, i);
      Grown(s', i);
      q := ParametersFromBoth(binary, q, s, r, s', r', i + 1);
    }
  }

  lemma ParametersBoth(
    binary: seq<Byte>, p: nat, s: seq<StructTypeParameter>, r: Items, s': seq<StructTypeParameter>, r': Items)
    returns (q: nat)
    requires Both(binary, p, ParametersItems(s, r), ParametersItems(s', r'))
    ensures s == s' && Both(binary, q, r, r')
  {
    q := NumBoth(binary, p, TYPE_PARAMETER_COUNT_MAX, |s|, ParametersFrom(s, 0, r), |s'|, ParametersFrom(s', 0, r'));
    q := ParametersFromBoth(binary, q, s, r, s', r', 0);
  }

  lemma {:induction false} TypesFromBoth(
    binary: seq<Byte>, p: nat, s: Signature, r: Items, s': Signature, r': Items, i: nat)
    returns (q: nat)
    requires |s| == |s'| && i <= |s| && s[..i] == s'[..i]
    requires Both(binary, p, TypesFrom(s, i, r), TypesFrom(s', i, r'))
    ensures s == s' && Both(binary, q, r, r')
    decreases |s| - i
  {
    if i == |s| {
      assert s[..i] == s && s'[..i] == s';
      q := p;
    } else {
      q := TypeBoth(binary, p, s[i], TypesFrom(s, i + 1, r), s'[i], TypesFrom(s', i + 1, r'));
      Grown(s, i);
      Grown(s', i);
      q := TypesFromBoth(binary, q, s, r, s', r', i + 1);
    }
  }

  lemma TypesBoth(binary: seq<Byte>, p: nat, s: Signature, r: Items, s': Signature, r': Items) returns (q: nat)
    requires Both(binary, p, TypesItems(s, r), TypesItems(s', r'))
    ensures s == s' && Both(binary, q, r, r')
  {
    q := NumBoth(binary, p, SIGNATURE_SIZE_MAX, |s|, TypesFrom(s, 0, r), |s'|, TypesFrom(s', 0, r'));
    q := TypesFromBoth(binary, q, s, r, s', r', 0);
  }

  lemma FieldBoth(binary: seq<Byte>, p: nat, f: FieldDefinition, r: Items, f': FieldDefinition, r': Items)
    returns (q: nat)
    requires Both(binary, p, FieldItems(f, r), FieldItems(f', r'))
    ensures f == f' && Both(binary, q, r, r')
  {
    q := NumBoth(binary, p, TABLE_INDEX_MAX, f.name, Type(f.signature, r), f'.name, Type(f'.signature, r'));
    q := TypeBoth(binary, q, f.signature, r, f'.signature, r');
  }

  lemma {:induction false} FieldsFromBoth(
    binary: seq<Byte>, p: nat, s: seq<FieldDefinition>, r: Items, s': seq<FieldDefinition>, r': Items, i: nat)
    returns (q: nat)
    requires |s| == |s'| && i <= |s| && s[..i] == s'[..i]
    requires Both(binary, p, FieldsFrom(s, i, r), FieldsFrom(s', i, r'))
    ensures s == s' && Both(binary, q, r, r')
    decreases |s| - i
  {
    if i == |s| {
      assert s[..i] == s && s'[..i] == s';
      q := p;
    } else {
      q := FieldBoth(binary, p, s[i], FieldsFrom(s, i + 1, r), s'[i], FieldsFrom(s', i + 1, r'));
      Grown(s, i);
      Grown(s', i);
      q := FieldsFromBoth(binary, q, s, r, s', r', i + 1);
    }
  }

  lemma FieldsBoth(binary: seq<Byte>, p: nat, s: seq<FieldDefinition>, r: Items, s': seq<FieldDefinition>, r': Items)
    returns (q: nat)
    requires Both(binary, p, FieldsItems(s, r), FieldsItems(s', r'))
    ensures s == s' && Both(binary, q, r, r')
  {
    q := NumBoth(binary, p, FIELD_COUNT_MAX, |s|, FieldsFrom(s, 0, r), |s'|, FieldsFrom(s', 0, r'));
    q := FieldsFromBoth(binary, q, s, r, s', r', 0);
  }

  lemma {:induction false} IndicesFromBoth(
    binary: seq<Byte>, p: nat, s: seq<nat>, r: Items, s': seq<nat>, r': Items, i: nat)
    returns (q: nat)
    requires |s| == |s'| && i <= |s| && s[..i] == s'[..i]
    requires Both(binary, p, IndicesFrom(s, i, r), IndicesFrom(s', i, r'))
    ensures s == s' && Both(binary, q, r, r')
    decreases |s| - i
  {
    if i == |s| {
      assert s[..i] == s && s'[..i] == s';
      q := p;
    } else {
      q := NumBoth(binary, p, TABLE_INDEX_MAX, s[i], IndicesFrom(s, i + 1, r), s'[i], IndicesFrom(s', i + 1, r'));
      Grown(s, i);
      Grown(s', i);
      q := IndicesFromBoth(binary, q, s, r, s', r', i + 1);
    }
  }

  lemma IndicesBoth(binary: seq<Byte>, p: nat, s: seq<nat>, r: Items, s': seq<nat>, r': Items) returns (q: nat)
    requires Both(binary, p, IndicesItems(s, r), IndicesItems(s', r'))
    ensures s == s' && Both(binary, q, r, r')
  {
    q := NumBoth(binary, p, ACQUIRES_COUNT_MAX, |s|, IndicesFrom(s, 0, r), |s'|, IndicesFrom(s', 0, r'));
    q := IndicesFromBoth(binary, q, s, r, s', r', 0);
  }

  lemma OperandsBoth(binary: seq<Byte>, p: nat, o: Operands, r: Items, o': Operands, r': Items) returns (q: nat)
    requires Both(binary, p, OperandItems(o, r), OperandItems(o', r')) && Blank(o) == Blank(o')
    ensures o == o' && Both(binary, q, r, r')
  {
    match o {
      case Nothing => q := p;
      case Index(x, max) => q := NumBoth(binary, p, max, x, r, o'.index, r');
      case Value(x, size) => q := WordBoth(binary, p, size, x, r, o'.value, r');
      case IndexAndCount(x, n) => {
        q := NumBoth(binary, p, TABLE_INDEX_MAX, x, Word(n, 8, r), o'.index, Word(o'.count, 8, r'));
        q := WordBoth(binary, q, 8, n, r, o'.count, r');
      }
    }
  }

  lemma MadeBoth(
    binary: seq<Byte>, p: nat, i: Bytecode, op: Byte, o: Operands, r: Items, i': Bytecode, op': Byte, o': Operands,
    r': Items)
    returns (q: nat)
    requires Both(binary, p, Word(op, 1, OperandItems(o, r)), Word(op', 1, OperandItems(o', r')))
    requires Decodes(i, op, o) && Decodes(i', op', o')
    ensures i == i' && Both(binary, q, r, r')
  {
    q := WordBoth(binary, p, 1, op, OperandItems(o, r), op', OperandItems(o', r'));
    q := OperandsBoth(binary, q, o, r, o', r');
  }

  lemma InstructionBoth(binary: seq<Byte>, p: nat, i: Bytecode, r: Items, i': Bytecode, r': Items) returns (q: nat)
    requires Both(binary, p, InstructionItems(i, r), InstructionItems(i', r'))
    ensures i == i' && Both(binary, q, r, r')
  {
    MadeAgain(i);
    MadeAgain(i');
    q := MadeBoth(binary, p, i, Opcode(i), OperandsOf(i), r, i', Opcode(i'), OperandsOf(i'), r');
  }

  lemma NextInstructionBoth(
    binary: seq<Byte>, p: nat, s: seq<Bytecode>, r: Items, s': seq<Bytecode>, r': Items, i: nat)
    returns (q: nat)
    requires |s| == |s'| && i < |s| && Both(binary, p, CodeFrom(s, i, r), CodeFrom(s', i, r'))
    ensures s[i] == s'[i] && Both(binary, q, CodeFrom(s, i + 1, r), CodeFrom(s', i + 1, r'))
  {
    q := InstructionBoth(binary, p, s[i], CodeFrom(s, i + 1, r), s'[i], CodeFrom(s', i + 1, r'));
  }

  lemma {:induction false} CodeFromBoth(
    binary: seq<Byte>, p: nat, s: seq<Bytecode>, r: Items, s': seq<Bytecode>, r': Items, i: nat)
    returns (q: nat)
    requires |s| == |s'| && i <= |s| && s[..i] == s'[..i] && Both(binary, p, CodeFrom(s, i, r), CodeFrom(s', i, r'))
    ensures s == s' && Both(binary, q, r, r')
    decreases |s| - i
  {
    if i == |s| {
      assert s[..i] == s && s'[..i] == s';
      q := p;
    } else {
      q := NextInstructionBoth(binary, p, s, r, s', r', i);
      Grown(s, i);
      Grown(s', i);
      q := CodeFromBoth(binary, q, s, r, s', r', i + 1);
    }
  }

  lemma CodeBoth(binary: seq<Byte>, p: nat, c: CodeUnit, r: Items, c': CodeUnit, r': Items) returns (q: nat)
    requires Both(binary, p, CodeItems(c, r), CodeItems(c', r'))
    ensures c == c' && Both(binary, q, r, r')
  {
    var rest, rest' := CodeFrom(c.code, 0, r), CodeFrom(c'.code, 0, r');
    q := NumBoth(binary, p, TABLE_INDEX_MAX, c.locals, Num(|c.code|, BYTECODE_COUNT_MAX, rest),
                 c'.locals, Num(|c'.code|, BYTECODE_COUNT_MAX, rest'));
    q := NumBoth(binary, q, BYTECODE_COUNT_MAX, |c.code|, rest, |c'.code|, rest');
    q := CodeFromBoth(binary, q, c.code, r, c'.code, r', 0);
  }

  // ---------------------------------------------------------------------------------------------
  // Rows
  // ---------------------------------------------------------------------------------------------

  lemma StructHandleBoth(binary: seq<Byte>, p: nat, h: StructHandle, r: Items, h': StructHandle, r': Items)
    returns (q: nat)
    requires Both(binary, p, StructHandleItems(h, r), StructHandleItems(h', r'))
    ensures h == h' && Both(binary, q, r, r')
  {
    var ps, ps' := ParametersItems(h.typeParameters, r), ParametersItems(h'.typeParameters, r');
    q := PairBoth(binary, p, TABLE_INDEX_MAX, h.mod, h.name, AbilityItems(h.abilities, ps),
                  h'.mod, h'.name, AbilityItems(h'.abilities, ps'));
    q := AbilityBoth(binary, q, h.abilities, ps, h'.abilities, ps');
    q := ParametersBoth(binary, q, h.typeParameters, r, h'.typeParameters, r');
  }

  lemma FunctionHandleBoth(binary: seq<Byte>, p: nat, h: FunctionHandle, r: Items, h': FunctionHandle, r': Items)
    returns (q: nat)
    requires Both(binary, p, FunctionHandleItems(h, r), FunctionHandleItems(h', r'))
    ensures h == h' && Both(binary, q, r, r')
  {
    var sets, sets' := AbilitiesItems(h.typeParameters, r), AbilitiesItems(h'.typeParameters, r');
    q := PairBoth(binary, p, TABLE_INDEX_MAX, h.mod, h.name, PairItems(h.parameters, h.return_, TABLE_INDEX_MAX, sets),
                  h'.mod, h'.name, PairItems(h'.parameters, h'.return_, TABLE_INDEX_MAX, sets'));
    q := PairBoth(binary, q, TABLE_INDEX_MAX, h.parameters, h.return_, sets, h'.parameters, h'.return_, sets');
    q := AbilitiesBoth(binary, q, h.typeParameters, r, h'.typeParameters, r');
  }

  lemma SizedBoth(binary: seq<Byte>, p: nat, max: U64, x: seq<Byte>, r: Items, x': seq<Byte>, r': Items)
    returns (q: nat)
    requires Both(binary, p, Num(|x|, max, Blob(x, r)), Num(|x'|, max, Blob(x', r')))
    ensures x == x' && Both(binary, q, r, r')
  {
    q := NumBoth(binary, p, max, |x|, Blob(x, r), |x'|, Blob(x', r'));
    q := BlobBoth(binary, q, x, r, x', r');
  }

  lemma ConstantBoth(binary: seq<Byte>, p: nat, c: Constant, r: Items, c': Constant, r': Items) returns (q: nat)
    requires Both(binary, p, ConstantItems(c, r), ConstantItems(c', r')) && IsData(c.data) && IsData(c'.data)
    ensures c == c' && Both(binary, q, r, r')
  {
    var d, d' := DataBytes(c.data), DataBytes(c'.data);
    q := TypeBoth(binary, p, c.type_, Num(|d|, CONSTANT_SIZE_MAX, Blob(d, r)),
                  c'.type_, Num(|d'|, CONSTANT_SIZE_MAX, Blob(d', r')));
    q := SizedBoth(binary, q, CONSTANT_SIZE_MAX, d, r, d', r');
    DataAgain(c.data);
    DataAgain(c'.data);
  }

  lemma IdentifierBoth(binary: seq<Byte>, p: nat, x: Identifier, r: Items, x': Identifier, r': Items) returns (q: nat)
    requires Both(binary, p, IdentifierItems(x, r), IdentifierItems(x', r'))
    requires ValidIdentifier(x) && ValidIdentifier(x')
    ensures x == x' && Both(binary, q, r, r')
  {
    q := SizedBoth(binary, p, IDENTIFIER_SIZE_MAX, NameBytes(x), r, NameBytes(x'), r');
    NameAgain(x);
    NameAgain(x');
  }

  lemma StructDefBoth(binary: seq<Byte>, p: nat, d: StructDefinition, r: Items, d': StructDefinition, r': Items)
    returns (q: nat)
    requires Both(binary, p, StructDefItems(d, r), StructDefItems(d', r'))
    ensures d == d' && Both(binary, q, r, r')
  {
    var i, i' := FieldInformationItems(d.fieldInformation, r), FieldInformationItems(d'.fieldInformation, r');
    q := NumBoth(binary, p, TABLE_INDEX_MAX, d.structHandle, i, d'.structHandle, i');
    q := WordBoth(binary, q, 1, i.value, i.rest, i'.value, i'.rest);
    if d.fieldInformation.Declared? {
      q := FieldsBoth(binary, q, d.fieldInformation.fields, r, d'.fieldInformation.fields, r');
    }
  }

  lemma BodyBoth(binary: seq<Byte>, p: nat, c: Option<CodeUnit>, r: Items, c': Option<CodeUnit>, r': Items)
    returns (q: nat)
    requires Both(binary, p, BodyItems(c, r), BodyItems(c', r')) && (c.None? <==> c'.None?)
    ensures c == c' && Both(binary, q, r, r')
  {
    if c.None? {
      q := p;
    } else {
      q := CodeBoth(binary, p, c.value, r, c'.value, r');
    }
  }

  lemma FunctionDefBoth(
    binary: seq<Byte>, p: nat, d: FunctionDefinition, r: Items, d': FunctionDefinition, r': Items)
    returns (q: nat)
    requires Both(binary, p, FunctionDefItems(d, r), FunctionDefItems(d', r'))
    ensures d == d' && Both(binary, q, r, r')
  {
    var body, body' := BodyItems(d.code, r), BodyItems(d'.code, r');
    var acquires, acquires' := IndicesItems(d.acquires, body), IndicesItems(d'.acquires, body');
    var native, native' := Word(NativeFlag(d.code), 1, acquires), Word(NativeFlag(d'.code), 1, acquires');
    q := NumBoth(binary, p, TABLE_INDEX_MAX, d.function_, Word(VisibilityCode(d.visibility), 1, native),
                 d'.function_, Word(VisibilityCode(d'.visibility), 1, native'));
    q := WordBoth(binary, q, 1, VisibilityCode(d.visibility), native, VisibilityCode(d'.visibility), native');
    q := WordBoth(binary, q, 1, NativeFlag(d.code), acquires, NativeFlag(d'.code), acquires');
    q := IndicesBoth(binary, q, d.acquires, body, d'.acquires, body');
    q := BodyBoth(binary, q, d.code, r, d'.code, r');
  }

  /** Rows of the same table with the same bytes are the same. */
  lemma RowBoth(kind: TableKind, binary: seq<Byte>, p: nat, x: Row, r: Items, x': Row, r': Items) returns (q: nat)
    requires Both(binary, p, RowItems(x, r), RowItems(x', r'))
    requires Belongs(x, kind) && Belongs(x', kind) && RowOk(x) && RowOk(x')
    ensures x == x' && Both(binary, q, r, r')
  {
    match x {
      case ModuleRow(h) =>
        var h' := x'.moduleHandle;
        q := PairBoth(binary, p, TABLE_INDEX_MAX, h.address, h.name, r, h'.address, h'.name, r');
      case StructHandleRow(h) => q := StructHandleBoth(binary, p, h, r, x'.structHandle, r');
      case FunctionHandleRow(h) => q := FunctionHandleBoth(binary, p, h, r, x'.functionHandle, r');
      case FunctionInstRow(i) =>
        var i' := x'.functionInst;
        q := PairBoth(binary, p, TABLE_INDEX_MAX, i.handle, i.typeParameters, r, i'.handle, i'.typeParameters, r');
      case SignatureRow(s) => q := TypesBoth(binary, p, s, r, x'.signature, r');
      case ConstantRow(c) => q := ConstantBoth(binary, p, c, r, x'.constant, r');
      case IdentifierRow(name) => q := IdentifierBoth(binary, p, name, r, x'.identifier, r');
      case AddressRow(a) =>
        DataAgain(a);
        DataAgain(x'.address);
        q := BlobBoth(binary, p, DataBytes(a), r, DataBytes(x'.address), r');
      case StructDefRow(d) => q := StructDefBoth(binary, p, d, r, x'.structDef, r');
      case StructDefInstRow(i) =>
        var i' := x'.structDefInst;
        q := PairBoth(binary, p, TABLE_INDEX_MAX, i.def, i.typeParameters, r, i'.def, i'.typeParameters, r');
      case FunctionDefRow(d) => q := FunctionDefBoth(binary, p, d, r, x'.functionDef, r');
      case FieldHandleRow(h) =>
        var h' := x'.fieldHandle;
        q := PairBoth(binary, p, FIELD_OFFSET_MAX, h.owner, h.field, r, h'.owner, h'.field, r');
      case FieldInstRow(i) =>
        var i' := x'.fieldInst;
        q := PairBoth(binary, p, TABLE_INDEX_MAX, i.handle, i.typeParameters, r, i'.handle, i'.typeParameters, r');
    }
  }

  lemma EndBoth(binary: seq<Byte>, p: nat, row: Row, rest: Items)
    requires Here(binary, p, End) && RowOk(row)
    ensures !Here(binary, p, RowItems(row, rest))
  {
    RowHasBytes(row, rest);
  }

  /** Tables of the same kind with the same bytes are the same. */
  lemma {:induction false} RowsBoth(
    kind: TableKind, binary: seq<Byte>, p: nat, rows: seq<Row>, rows': seq<Row>, i: nat)
    requires i <= |rows| && i <= |rows'| && forall j | 0 <= j < i :: rows[j] == rows'[j]
    requires TableRows(rows, kind) && TableRows(rows', kind)
    requires Both(binary, p, RowsFrom(rows, i), RowsFrom(rows', i))
    ensures rows == rows'
    decreases |rows| - i
  {
    if i < |rows| && i < |rows'| {
      var q := RowBoth(kind, binary, p, rows[i], RowsFrom(rows, i + 1), rows'[i], RowsFrom(rows', i + 1));
      RowsBoth(kind, binary, q, rows, rows', i + 1);
    } else if i < |rows| {
      EndBoth(binary, p, rows[i], RowsFrom(rows, i + 1));
    } else if i < |rows'| {
      EndBoth(binary, p, rows'[i], RowsFrom(rows', i + 1));
    }
  }
}
