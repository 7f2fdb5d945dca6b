/** Which modules can be written: all limits of the format, in numbers. */
module ModuleLimits {
  import opened Abilities
  import opened Bytecodes
  import opened FileFormat
  import opened TypeTrees
  import opened SignatureTokens
  import opened BinaryItems
  import opened BinaryInstructions
  import opened BinaryTables
  import opened ModuleLayout

  // ---------------------------------------------------------------------------------------------
  // Types
  // ---------------------------------------------------------------------------------------------

  /** The numbers in a type are within their limits. */
  predicate NumbersWithin(t: SignatureToken) {
    match t
    case Struct(h) => h <= 65535
    case TypeParameter(i) => i <= 65536
    case Vector(elem) => NumbersWithin(elem)
    case Reference(inner) => NumbersWithin(inner)
    case MutableReference(inner) => NumbersWithin(inner)
    case StructInstantiation(h, args) =>
      h <= 65535 && |args| <= 255 && forall i | 0 <= i < |args| :: NumbersWithin(args[i])
    case _ => true
  }

  predicate TypeWithin(t: SignatureToken) {
    Depth(t) <= 256 && NumbersWithin(t)
  }

  predicate AllWithin(ts: seq<SignatureToken>) {
    forall i | 0 <= i < |ts| :: NumbersWithin(ts[i])
  }

  ghost predicate AllNodesOk(nodes: seq<TypeBuilder>) {
    forall i | 0 <= i < |nodes| :: NodeOk(nodes[i])
  }

  lemma NodesConcat(a: seq<TypeBuilder>, b: seq<TypeBuilder>)
    ensures AllNodesOk(a + b) <==> AllNodesOk(a) && AllNodesOk(b)
  {
    if AllNodesOk(a + b) {
      forall i | 0 <= i < |a| ensures NodeOk(a[i]) {
        assert (a + b)[i] == a[i];
      }
      forall i | 0 <= i < |b| ensures NodeOk(b[i]) {
        assert (a + b)[|a| + i] == b[i];
      }
    }
  }

  lemma OneWithin(t: SignatureToken)
    ensures AllWithin([t]) <==> NumbersWithin(t)
  {
    assert [t][0] == t;
  }

  lemma OwnNumbers(t: SignatureToken)
    ensures NumbersWithin(t) <==> NodeOk(NodeOf(t)) && AllWithin(Children(t))
  {
    match t
    case Vector(elem) => OneWithin(elem);
    case Reference(inner) => OneWithin(inner);
    case MutableReference(inner) => OneWithin(inner);
    case _ =>
  }

  lemma {:induction false} NumbersIff(t: SignatureToken)
    ensures AllNodesOk(Flatten(t)) <==> NumbersWithin(t)
    decreases Size(t), 0
  {
    SizeOf(t);
    OwnNumbers(t);
    AllNumbersIff(Children(t));
    NodesConcat([NodeOf(t)], FlattenAll(Children(t)));
    assert AllNodesOk([NodeOf(t)]) <==> NodeOk(NodeOf(t)) by {
      assert [NodeOf(t)][0] == NodeOf(t);
    }
  }

  lemma {:induction false} AllNumbersIff(ts: seq<SignatureToken>)
    ensures AllNodesOk(FlattenAll(ts)) <==> AllWithin(ts)
    decreases SizeAll(ts), 1, |ts|
  {
    if ts != [] {
      NumbersIff(ts[0]);
      AllNumbersIff(ts[1..]);
      NodesConcat(Flatten(ts[0]), FlattenAll(ts[1..]));
      assert ts == [ts[0]] + ts[1..];
    }
  }

  lemma TypeFits(t: SignatureToken, rest: Items)
    ensures Fits(Type(t, rest)) <==> TypeWithin(t) && Fits(rest)
  {
    NumbersIff(t);
  }

  // ---------------------------------------------------------------------------------------------
  // Instructions
  // ---------------------------------------------------------------------------------------------

  /** Locals are numbered by a byte, everything else by two. */
  predicate BasicWithin(i: Bytecode)
    requires IsBasic(i)
  {
    match i
    case CopyLoc(_) | MoveLoc(_) | StLoc(_) | MutBorrowLoc(_) | ImmBorrowLoc(_) => i.local <= 255
    case BrTrue(_) | BrFalse(_) | Branch(_) => i.offset <= 65535
    case LdConst(c) => c <= 65535
    case MutBorrowField(_) | ImmBorrowField(_) => i.field <= 65535
    case Call(f) => f <= 65535
    case Pack(_) | Unpack(_) => i.def <= 65535
    case _ => true
  }

  predicate GlobalWithin(i: Bytecode)
    requires IsGlobal(i)
  {
    match i
    case Exists(_) | MutBorrowGlobal(_) | ImmBorrowGlobal(_) | MoveFrom(_) | MoveTo(_) => i.def <= 65535
    case _ => true
  }

  predicate GenericWithin(i: Bytecode)
    requires IsGeneric(i)
  {
    match i
    case MutBorrowFieldGeneric(_) | ImmBorrowFieldGeneric(_) => i.fieldInst <= 65535
    case CallGeneric(f) => f <= 65535
    case _ => i.defInst <= 65535
  }

  predicate InstructionWithin(i: Bytecode) {
    if IsBasic(i) then BasicWithin(i)
    else if IsArithmetic(i) then true
    else if IsGlobal(i) then GlobalWithin(i)
    else if IsGeneric(i) then GenericWithin(i)
    else i.sig <= 65535
  }

  predicate OperandsWithin(operands: Operands) {
    match operands
    case Index(index, max) => index <= max
    case IndexAndCount(index, _) => index <= 65535
    case _ => true
  }

  lemma OperandsFit(operands: Operands, rest: Items)
    ensures Fits(OperandItems(operands, rest)) <==> OperandsWithin(operands) && Fits(rest)
  {
  }

  lemma BasicFits(i: Bytecode)
    requires IsBasic(i)
    ensures OperandsWithin(BasicOperands(i)) <==> BasicWithin(i)
  {
  }

  lemma GlobalFits(i: Bytecode)
    requires IsGlobal(i)
    ensures OperandsWithin(GlobalOperands(i)) <==> GlobalWithin(i)
  {
  }

  lemma GenericFits(i: Bytecode)
    requires IsGeneric(i)
    ensures OperandsWithin(GenericOperands(i)) <==> GenericWithin(i)
  {
  }

  lemma VectorFits(i: Bytecode)
    requires IsVector(i)
    ensures OperandsWithin(VectorOperands(i)) <==> i.sig <= 65535
  {
  }

  lemma InstructionFits(i: Bytecode, rest: Items)
    ensures Fits(InstructionItems(i, rest)) <==> InstructionWithin(i) && Fits(rest)
  {
    OperandsLimited(i);
    OpcodeFits(Opcode(i), OperandsOf(i), rest);
  }

  lemma OpcodeFits(opcode: nat, operands: Operands, rest: Items)
    ensures Fits(Word(opcode, 1, OperandItems(operands, rest))) <==> OperandsWithin(operands) && Fits(rest)
  {
    OperandsFit(operands, rest);
  }

  lemma OperandsLimited(i: Bytecode)
    ensures OperandsWithin(OperandsOf(i)) <==> InstructionWithin(i)
  {
    if IsBasic(i) {
      BasicFits(i);
    } else if IsArithmetic(i) {
    } else if IsGlobal(i) {
      GlobalFits(i);
    } else if IsGeneric(i) {
      GenericFits(i);
    } else {
      VectorFits(i);
    }
  }

  // ---------------------------------------------------------------------------------------------
  // Rows
  // ---------------------------------------------------------------------------------------------

  predicate FieldWithin(f: FieldDefinition) {
    f.name <= 65535 && TypeWithin(f.signature)
  }

  predicate CodeWithin(code: CodeUnit) {
    && code.locals <= 65535 && |code.code| <= 65535
    && forall i | 0 <= i < |code.code| :: InstructionWithin(code.code[i])
  }

  predicate PairWithin(a: nat, b: nat) {
    a <= 65535 && b <= 65535
  }

  /** All numbers, sizes and types in a row are within their limits. */
  predicate RowWithin(row: Row) {
    match row
    case ModuleRow(h) => PairWithin(h.address, h.name)
    case StructHandleRow(h) => PairWithin(h.mod, h.name) && |h.typeParameters| <= 255
    case FunctionHandleRow(h) =>
      PairWithin(h.mod, h.name) && PairWithin(h.parameters, h.return_) && |h.typeParameters| <= 255
    case FunctionInstRow(i) => PairWithin(i.handle, i.typeParameters)
    case SignatureRow(ts) => |ts| <= 255 && forall i | 0 <= i < |ts| :: TypeWithin(ts[i])
    case ConstantRow(c) => TypeWithin(c.type_) && |c.data| <= 65535
    case IdentifierRow(name) => |name| <= 65535
    case AddressRow(_) => true
    case StructDefRow(d) =>
      && d.structHandle <= 65535
      && (d.fieldInformation.Declared? ==>
            && |d.fieldInformation.fields| <= 255
            && forall i | 0 <= i < |d.fieldInformation.fields| :: FieldWithin(d.fieldInformation.fields[i]))
    case StructDefInstRow(i) => PairWithin(i.def, i.typeParameters)
    case FunctionDefRow(d) =>
      && d.function_ <= 65535 && |d.acquires| <= 255 && (forall i | 0 <= i < |d.acquires| :: d.acquires[i] <= 65535)
      && (d.code.Some? ==> CodeWithin(d.code.value))
    case FieldHandleRow(h) => h.owner <= 65535 && h.field <= 255
    case FieldInstRow(i) => PairWithin(i.handle, i.typeParameters)
  }

  predicate IsLetter(c: char) {
    'a' <= c <= 'z' || 'A' <= c <= 'Z'
  }

  predicate IsNameChar(c: char) {
    IsLetter(c) || '0' <= c <= '9' || c == '_'
  }

  /** Letters, digits and underscores, with a letter first, or an underscore that is not alone; and one more name. */
  predicate GoodName(name: Identifier) {
    || name == "<SELF>"
    || (&& name != "" && (IsLetter(name[0]) || (name[0] == '_' && |name| > 1))
        && forall i | 1 <= i < |name| :: IsNameChar(name[i]))
  }

  predicate IsAscii(name: Identifier) {
    forall i | 0 <= i < |name| :: name[i] as nat < 0x80
  }

  lemma AsciiBytes(name: Identifier)
    requires IsAscii(name)
    ensures |NameBytes(name)| == |name| && forall i | 0 <= i < |name| :: NameBytes(name)[i] == name[i] as nat
  {
  }

  lemma SelfIff(name: Identifier)
    requires IsAscii(name)
    ensures NameBytes(name) == SELF_NAME <==> name == "<SELF>"
  {
    AsciiBytes(name);
    if NameBytes(name) == SELF_NAME {
      assert |name| == 6;
      forall i | 0 <= i < 6 ensures name[i] == "<SELF>"[i] {
        assert NameBytes(name)[i] == SELF_NAME[i];
      }
    }
    if name == "<SELF>" {
      assert NameBytes(name) == SELF_NAME;
    }
  }

  lemma GoodIsAscii(name: Identifier)
    requires GoodName(name)
    ensures IsAscii(name)
  {
  }

  lemma LettersIff(name: Identifier, i: nat)
    requires IsAscii(name) && i < |name|
    ensures LetterByte(NameBytes(name)[i]) <==> IsLetter(name[i])
    ensures NameByte(NameBytes(name)[i]) <==> IsNameChar(name[i])
    ensures NameBytes(name)[i] == '_' as nat <==> name[i] == '_'
  {
    AsciiBytes(name);
  }

  /** Which identifiers are read. */
  lemma NameIff(name: Identifier)
    ensures ValidIdentifier(name) <==> GoodName(name)
  {
    if GoodName(name) {
      GoodIsAscii(name);
    }
    if IsAscii(name) {
      AsciiBytes(name);
      SelfIff(name);
      forall i: nat | i < |name|
        ensures LetterByte(NameBytes(name)[i]) <==> IsLetter(name[i])
        ensures NameByte(NameBytes(name)[i]) <==> IsNameChar(name[i])
        ensures NameBytes(name)[i] == '_' as nat <==> name[i] == '_'
      {
        LettersIff(name, i);
      }
    }
  }

  /** Which addresses are. */
  lemma AddressIff(a: AccountAddress)
    ensures RowOk(AddressRow(a)) <==> |a| == 16 && forall i | 0 <= i < |a| :: a[i] < 256
  {
  }

  lemma {:induction false} AbilitiesFit(sets: seq<AbilitySet>, i: nat, rest: Items)
    requires i <= |sets|
    ensures Fits(AbilitiesFrom(sets, i, rest)) <==> Fits(rest)
    decreases |sets| - i
  {
    if i < |sets| {
      AbilitiesFit(sets, i + 1, rest);
    }
  }

  lemma {:induction false} ParametersFit(ps: seq<StructTypeParameter>, i: nat, rest: Items)
    requires i <= |ps|
    ensures Fits(ParametersFrom(ps, i, rest)) <==> Fits(rest)
    decreases |ps| - i
  {
    if i < |ps| {
      ParametersFit(ps, i + 1, rest);
      var phantom := Num(if ps[i].isPhantom then 1 else 0, 1, ParametersFrom(ps, i + 1, rest));
      assert Fits(phantom) <==> Fits(rest);
    }
  }

  lemma {:induction false} TypesFit(ts: Signature, i: nat, rest: Items)
    requires i <= |ts|
    ensures Fits(TypesFrom(ts, i, rest)) <==> (forall k | i <= k < |ts| :: TypeWithin(ts[k])) && Fits(rest)
    decreases |ts| - i
  {
    if i < |ts| {
      TypesFit(ts, i + 1, rest);
      TypeFits(ts[i], TypesFrom(ts, i + 1, rest));
    }
  }

  lemma {:induction false} FieldsFit(fs: seq<FieldDefinition>, i: nat, rest: Items)
    requires i <= |fs|
    ensures Fits(FieldsFrom(fs, i, rest)) <==> (forall k | i <= k < |fs| :: FieldWithin(fs[k])) && Fits(rest)
    decreases |fs| - i
  {
    if i < |fs| {
      FieldsFit(fs, i + 1, rest);
      TypeFits(fs[i].signature, FieldsFrom(fs, i + 1, rest));
    }
  }

  lemma {:induction false} IndicesFit(xs: seq<nat>, i: nat, rest: Items)
    requires i <= |xs|
    ensures Fits(IndicesFrom(xs, i, rest)) <==> (forall k | i <= k < |xs| :: xs[k] <= 65535) && Fits(rest)
    decreases |xs| - i
  {
    if i < |xs| {
      IndicesFit(xs, i + 1, rest);
    }
  }

  lemma {:induction false} InstructionsFit(code: seq<Bytecode>, i: nat, rest: Items)
    requires i <= |code|
    ensures Fits(CodeFrom(code, i, rest)) <==> (forall k | i <= k < |code| :: InstructionWithin(code[k])) && Fits(rest)
    decreases |code| - i
  {
    if i < |code| {
      InstructionsFit(code, i + 1, rest);
      InstructionFits(code[i], CodeFrom(code, i + 1, rest));
    }
  }

  lemma CodeFits(code: CodeUnit, rest: Items)
    ensures Fits(CodeItems(code, rest)) <==> CodeWithin(code) && Fits(rest)
  {
    InstructionsFit(code.code, 0, rest);
    var count := Num(|code.code|, BYTECODE_COUNT_MAX, CodeFrom(code.code, 0, rest));
    assert Fits(count) <==> |code.code| <= 65535 && Fits(CodeFrom(code.code, 0, rest));
  }

  lemma PairFits(a: nat, b: nat, max: nat, rest: Items)
    requires max <= TABLE_INDEX_MAX
    ensures Fits(PairItems(a, b, max, rest)) <==> a <= 65535 && b <= max && Fits(rest)
  {
    assert Fits(Num(b, max, rest)) <==> b <= max && Fits(rest);
  }

  lemma StructHandleFits(h: StructHandle, rest: Items)
    ensures Fits(StructHandleItems(h, rest)) <==> RowWithin(StructHandleRow(h)) && Fits(rest)
  {
    ParametersFit(h.typeParameters, 0, rest);
    var params := ParametersItems(h.typeParameters, rest);
    assert Fits(params) <==> |h.typeParameters| <= 255 && Fits(rest);
    var abilities := AbilityItems(h.abilities, params);
    assert Fits(abilities) <==> Fits(params);
    PairFits(h.mod, h.name, 65535, abilities);
  }

  lemma FunctionHandleFits(h: FunctionHandle, rest: Items)
    ensures Fits(FunctionHandleItems(h, rest)) <==> RowWithin(FunctionHandleRow(h)) && Fits(rest)
  {
    AbilitiesFit(h.typeParameters, 0, rest);
    var abilities := AbilitiesItems(h.typeParameters, rest);
    assert Fits(abilities) <==> |h.typeParameters| <= 255 && Fits(rest);
    PairFits(h.parameters, h.return_, 65535, abilities);
    PairFits(h.mod, h.name, 65535, PairItems(h.parameters, h.return_, 65535, abilities));
  }

  lemma ConstantFits(c: Constant, rest: Items)
    ensures Fits(ConstantItems(c, rest)) <==> RowWithin(ConstantRow(c)) && Fits(rest)
  {
    var data := Blob(DataBytes(c.data), rest);
    var size := Num(|c.data|, CONSTANT_SIZE_MAX, data);
    assert Fits(size) <==> |c.data| <= 65535 && Fits(data);
    TypeFits(c.type_, size);
  }

  lemma StructDefFits(d: StructDefinition, rest: Items)
    ensures Fits(StructDefItems(d, rest)) <==> RowWithin(StructDefRow(d)) && Fits(rest)
  {
    match d.fieldInformation
    case Native => assert Fits(Word(NATIVE_STRUCT, 1, rest)) <==> Fits(rest);
    case Declared(fields) =>
      FieldsFit(fields, 0, rest);
      var items := FieldsItems(fields, rest);
      assert Fits(items) <==> |fields| <= 255 && Fits(FieldsFrom(fields, 0, rest));
      assert Fits(Word(DECLARED_STRUCT, 1, items)) <==> Fits(items);
  }

  lemma FunctionDefFits(d: FunctionDefinition, rest: Items)
    ensures Fits(FunctionDefItems(d, rest)) <==> RowWithin(FunctionDefRow(d)) && Fits(rest)
  {
    if d.code.Some? {
      CodeFits(d.code.value, rest);
    }
    var body := BodyItems(d.code, rest);
    IndicesFit(d.acquires, 0, body);
    var acquires := IndicesItems(d.acquires, body);
    assert Fits(acquires) <==> |d.acquires| <= 255 && Fits(IndicesFrom(d.acquires, 0, body));
    var flags := Word(NativeFlag(d.code), 1, acquires);
    assert Fits(flags) <==> Fits(acquires);
    assert Fits(Word(VisibilityCode(d.visibility), 1, flags)) <==> Fits(flags);
  }

  lemma RowFits(row: Row, rest: Items)
    ensures Fits(RowItems(row, rest)) <==> RowWithin(row) && Fits(rest)
  {
    match row
    case ModuleRow(h) => PairFits(h.address, h.name, 65535, rest);
    case StructHandleRow(h) => StructHandleFits(h, rest);
    case FunctionHandleRow(h) => FunctionHandleFits(h, rest);
    case FunctionInstRow(i) => PairFits(i.handle, i.typeParameters, 65535, rest);
    case SignatureRow(ts) => TypesFit(ts, 0, rest);
    case ConstantRow(c) => ConstantFits(c, rest);
    case IdentifierRow(name) => assert Fits(Blob(NameBytes(name), rest)) <==> Fits(rest);
    case AddressRow(a) =>
    case StructDefRow(d) => StructDefFits(d, rest);
    case StructDefInstRow(i) => PairFits(i.def, i.typeParameters, 65535, rest);
    case FunctionDefRow(d) => FunctionDefFits(d, rest);
    case FieldHandleRow(h) => PairFits(h.owner, h.field, 255, rest);
    case FieldInstRow(i) => PairFits(i.handle, i.typeParameters, 65535, rest);
  }

  lemma {:induction false} RowsFit(rows: seq<Row>, i: nat)
    requires i <= |rows|
    ensures Fits(RowsFrom(rows, i)) <==> forall k | i <= k < |rows| :: RowWithin(rows[k])
    decreases |rows| - i
  {
    if i < |rows| {
      RowsFit(rows, i + 1);
      RowFits(rows[i], RowsFrom(rows, i + 1));
    }
  }

  // ---------------------------------------------------------------------------------------------
  // Modules
  // ---------------------------------------------------------------------------------------------

  predicate TableWithin(m: CompiledModule, kind: TableKind) {
    forall i | 0 <= i < |Rows(m, kind)| :: RowWithin(Rows(m, kind)[i])
  }

  /** The limits of the format, in numbers. */
  ghost predicate ModuleWithin(m: CompiledModule) {
    && (forall kind :: TableWithin(m, kind))
    && |Contents(PartsOf(m))| <= 0xFFFF_FFFF && m.selfHandle <= 65535
  }

  /** A module can be written exactly if it is within these limits. */
  lemma SerializableIff(m: CompiledModule)
    ensures Serializable(m) <==> ModuleWithin(m)
  {
    forall kind ensures Fits(TableItems(m, kind)) <==> TableWithin(m, kind) {
      RowsFit(Rows(m, kind), 0);
    }
  }
}
