/** How much space the parts of rows take up, and that they can be written if they were read. */
module RowParts {
  import opened Abilities
  import opened Bytecodes
  import opened FileFormat
  import opened Uleb128
  import opened SignatureTokens
  import opened BinaryItems
  import opened BinaryInstructions
  import opened BinaryTables
  import opened Wrappers

  // ---------------------------------------------------------------------------------------------
  // Lists
  // ---------------------------------------------------------------------------------------------

  lemma OperandsAppend(operands: Operands, x: Items, y: Items)
    ensures Append(OperandItems(operands, x), y) == OperandItems(operands, Append(x, y))
  {
  }

  lemma InstructionAppend(i: Bytecode, x: Items, y: Items)
    ensures Append(InstructionItems(i, x), y) == InstructionItems(i, Append(x, y))
  {
    OperandsAppend(OperandsOf(i), x, y);
  }

  lemma {:induction false} AbilitiesAppend(sets: seq<AbilitySet>, i: nat, x: Items, y: Items)
    requires i <= |sets|
    ensures Append(AbilitiesFrom(sets, i, x), y) == AbilitiesFrom(sets, i, Append(x, y))
    decreases |sets| - i
  {
    if i < |sets| {
      AbilitiesAppend(sets, i + 1, x, y);
    }
  }

  lemma {:induction false} AbilitiesSnoc(sets: seq<AbilitySet>, one: AbilitySet, i: nat)
    requires i <= |sets|
    ensures AbilitiesFrom(sets + [one], i, End) == Append(AbilitiesFrom(sets, i, End), AbilityItems(one, End))
    decreases |sets| - i
  {
    if i < |sets| {
      AbilitiesSnoc(sets, one, i + 1);
    }
  }

  lemma AbilitiesGrow(sets: seq<AbilitySet>, one: AbilitySet, m: int, n: int)
    requires Takes(AbilitiesFrom(sets, 0, End), m) && Takes(AbilityItems(one, End), n)
    ensures Takes(AbilitiesFrom(sets + [one], 0, End), m + n)
  {
    AbilitiesSnoc(sets, one, 0);
    Then(AbilitiesFrom(sets, 0, End), AbilityItems(one, End), AbilitiesFrom(sets + [one], 0, End), m, n);
  }

  lemma {:induction false} ParametersAppend(ps: seq<StructTypeParameter>, i: nat, x: Items, y: Items)
    requires i <= |ps|
    ensures Append(ParametersFrom(ps, i, x), y) == ParametersFrom(ps, i, Append(x, y))
    decreases |ps| - i
  {
    if i < |ps| {
      ParametersAppend(ps, i + 1, x, y);
    }
  }

  lemma {:induction false} ParametersSnoc(ps: seq<StructTypeParameter>, one: StructTypeParameter, i: nat)
    requires i <= |ps|
    ensures ParametersFrom(ps + [one], i, End) == Append(ParametersFrom(ps, i, End), ParameterItems(one, End))
    decreases |ps| - i
  {
    if i < |ps| {
      ParametersSnoc(ps, one, i + 1);
    }
  }

  lemma ParametersGrow(ps: seq<StructTypeParameter>, one: StructTypeParameter, m: int, n: int)
    requires Takes(ParametersFrom(ps, 0, End), m) && Takes(ParameterItems(one, End), n)
    ensures Takes(ParametersFrom(ps + [one], 0, End), m + n)
  {
    ParametersSnoc(ps, one, 0);
    Then(ParametersFrom(ps, 0, End), ParameterItems(one, End), ParametersFrom(ps + [one], 0, End), m, n);
  }

  lemma {:induction false} TypesAppend(ts: Signature, i: nat, x: Items, y: Items)
    requires i <= |ts|
    ensures Append(TypesFrom(ts, i, x), y) == TypesFrom(ts, i, Append(x, y))
    decreases |ts| - i
  {
    if i < |ts| {
      TypesAppend(ts, i + 1, x, y);
    }
  }

  lemma {:induction false} TypesSnoc(ts: Signature, one: SignatureToken, i: nat)
    requires i <= |ts|
    ensures TypesFrom(ts + [one], i, End) == Append(TypesFrom(ts, i, End), Type(one, End))
    decreases |ts| - i
  {
    if i < |ts| {
      TypesSnoc(ts, one, i + 1);
    }
  }

  lemma TypesGrow(ts: Signature, one: SignatureToken, m: int, n: int)
    requires Takes(TypesFrom(ts, 0, End), m) && Takes(Type(one, End), n)
    ensures Takes(TypesFrom(ts + [one], 0, End), m + n)
  {
    TypesSnoc(ts, one, 0);
    Then(TypesFrom(ts, 0, End), Type(one, End), TypesFrom(ts + [one], 0, End), m, n);
  }

  lemma {:induction false} FieldsAppend(fs: seq<FieldDefinition>, i: nat, x: Items, y: Items)
    requires i <= |fs|
    ensures Append(FieldsFrom(fs, i, x), y) == FieldsFrom(fs, i, Append(x, y))
    decreases |fs| - i
  {
    if i < |fs| {
      FieldsAppend(fs, i + 1, x, y);
    }
  }

  lemma {:induction false} FieldsSnoc(fs: seq<FieldDefinition>, one: FieldDefinition, i: nat)
    requires i <= |fs|
    ensures FieldsFrom(fs + [one], i, End) == Append(FieldsFrom(fs, i, End), FieldItems(one, End))
    decreases |fs| - i
  {
    if i < |fs| {
      FieldsSnoc(fs, one, i + 1);
    }
  }

  lemma FieldsGrow(fs: seq<FieldDefinition>, one: FieldDefinition, m: int, n: int)
    requires Takes(FieldsFrom(fs, 0, End), m) && Takes(FieldItems(one, End), n)
    ensures Takes(FieldsFrom(fs + [one], 0, End), m + n)
  {
    FieldsSnoc(fs, one, 0);
    Then(FieldsFrom(fs, 0, End), FieldItems(one, End), FieldsFrom(fs + [one], 0, End), m, n);
  }

  lemma {:induction false} IndicesAppend(indices: seq<nat>, i: nat, x: Items, y: Items)
    requires i <= |indices|
    ensures Append(IndicesFrom(indices, i, x), y) == IndicesFrom(indices, i, Append(x, y))
    decreases |indices| - i
  {
    if i < |indices| {
      IndicesAppend(indices, i + 1, x, y);
    }
  }

  lemma {:induction false} IndicesSnoc(indices: seq<nat>, one: nat, i: nat)
    requires i <= |indices|
    ensures IndicesFrom(indices + [one], i, End) == Append(IndicesFrom(indices, i, End), Num(one, TABLE_INDEX_MAX, End))
    decreases |indices| - i
  {
    if i < |indices| {
      IndicesSnoc(indices, one, i + 1);
    }
  }

  lemma IndicesGrow(indices: seq<nat>, one: nat, m: int, n: int)
    requires Takes(IndicesFrom(indices, 0, End), m) && Takes(Num(one, TABLE_INDEX_MAX, End), n)
    ensures Takes(IndicesFrom(indices + [one], 0, End), m + n)
  {
    IndicesSnoc(indices, one, 0);
    Then(IndicesFrom(indices, 0, End), Num(one, TABLE_INDEX_MAX, End), IndicesFrom(indices + [one], 0, End), m, n);
  }

  lemma {:induction false} CodeAppend(code: seq<Bytecode>, i: nat, x: Items, y: Items)
    requires i <= |code|
    ensures Append(CodeFrom(code, i, x), y) == CodeFrom(code, i, Append(x, y))
    decreases |code| - i
  {
    if i < |code| {
      CodeAppend(code, i + 1, x, y);
      InstructionAppend(code[i], CodeFrom(code, i + 1, x), y);
    }
  }

  lemma {:induction false} CodeSnoc(code: seq<Bytecode>, one: Bytecode, i: nat)
    requires i <= |code|
    ensures CodeFrom(code + [one], i, End) == Append(CodeFrom(code, i, End), InstructionItems(one, End))
    decreases |code| - i
  {
    if i < |code| {
      CodeSnoc(code, one, i + 1);
      InstructionAppend(code[i], CodeFrom(code, i + 1, End), InstructionItems(one, End));
    }
  }

  lemma CodeGrow(code: seq<Bytecode>, one: Bytecode, m: int, n: int)
    requires Takes(CodeFrom(code, 0, End), m) && Takes(InstructionItems(one, End), n)
    ensures Takes(CodeFrom(code + [one], 0, End), m + n)
  {
    CodeSnoc(code, one, 0);
    Then(CodeFrom(code, 0, End), InstructionItems(one, End), CodeFrom(code + [one], 0, End), m, n);
  }

  // ---------------------------------------------------------------------------------------------
  // Rows
  // ---------------------------------------------------------------------------------------------

  lemma PairAppend(a: nat, b: nat, max: U64, x: Items, y: Items)
    ensures Append(PairItems(a, b, max, x), y) == PairItems(a, b, max, Append(x, y))
  {
    assert Append(Num(b, max, x), y) == Num(b, max, Append(x, y));
  }

  lemma FlagsAppend(visibility: nat, flags: nat, x: Items, y: Items)
    ensures Append(Word(visibility, 1, Word(flags, 1, x)), y) == Word(visibility, 1, Word(flags, 1, Append(x, y)))
  {
    assert Append(Word(flags, 1, x), y) == Word(flags, 1, Append(x, y));
  }

  lemma StructHandleTakes(h: StructHandle, a: int, b: int, c: int)
    requires Takes(PairItems(h.mod, h.name, TABLE_INDEX_MAX, End), a)
    requires Takes(AbilityItems(h.abilities, End), b) && Takes(ParametersItems(h.typeParameters, End), c)
    ensures Takes(StructHandleItems(h, End), a + b + c)
  {
    var parameters := ParametersItems(h.typeParameters, End);
    Then(AbilityItems(h.abilities, End), parameters, AbilityItems(h.abilities, parameters), b, c);
    PairAppend(h.mod, h.name, TABLE_INDEX_MAX, End, AbilityItems(h.abilities, parameters));
    Then(PairItems(h.mod, h.name, TABLE_INDEX_MAX, End), AbilityItems(h.abilities, parameters),
         StructHandleItems(h, End), a, b + c);
  }

  lemma FunctionHandleTakes(h: FunctionHandle, a: int, b: int, c: int)
    requires Takes(PairItems(h.mod, h.name, TABLE_INDEX_MAX, End), a)
    requires Takes(PairItems(h.parameters, h.return_, TABLE_INDEX_MAX, End), b)
    requires Takes(AbilitiesItems(h.typeParameters, End), c)
    ensures Takes(FunctionHandleItems(h, End), a + b + c)
  {
    var abilities := AbilitiesItems(h.typeParameters, End);
    var signatures := PairItems(h.parameters, h.return_, TABLE_INDEX_MAX, abilities);
    PairAppend(h.parameters, h.return_, TABLE_INDEX_MAX, End, abilities);
    Then(PairItems(h.parameters, h.return_, TABLE_INDEX_MAX, End), abilities, signatures, b, c);
    PairAppend(h.mod, h.name, TABLE_INDEX_MAX, End, signatures);
    Then(PairItems(h.mod, h.name, TABLE_INDEX_MAX, End), signatures, FunctionHandleItems(h, End), a, b + c);
  }

  lemma DataAgain(data: seq<nat>)
    requires IsData(data)
    ensures DataBytes(data) == data
  {
  }

  /** Bytes that make up an identifier are those of an identifier. */
  lemma NameIsValid(bytes: seq<Byte>)
    requires IsName(bytes)
    ensures ValidIdentifier(NameOf(bytes)) && NameBytes(NameOf(bytes)) == bytes
  {
    assert forall i | 0 <= i < |bytes| :: bytes[i] < 0x80;
    assert NameBytes(NameOf(bytes)) == bytes;
  }

  lemma DeclaredTakes(handle: nat, fields: seq<FieldDefinition>, a: int, b: int)
    requires Takes(Num(handle, TABLE_INDEX_MAX, End), a) && Takes(FieldsItems(fields, End), b)
    ensures Takes(StructDefItems(StructDefinition(handle, Declared(fields)), End), a + 1 + b)
  {
    var declared := Word(DECLARED_STRUCT, 1, FieldsItems(fields, End));
    assert DECLARED_STRUCT < Pow256(1);
    WordTakes(DECLARED_STRUCT, 1);
    Then(Word(DECLARED_STRUCT, 1, End), FieldsItems(fields, End), declared, 1, b);
    Then(Num(handle, TABLE_INDEX_MAX, End), declared, StructDefItems(StructDefinition(handle, Declared(fields)), End),
         a, 1 + b);
  }

  lemma FunctionDefTakes(d: FunctionDefinition, a: int, b: int, c: int, e: int)
    requires Takes(Num(d.function_, TABLE_INDEX_MAX, End), a)
    requires Takes(Word(VisibilityCode(d.visibility), 1, Word(NativeFlag(d.code), 1, End)), b)
    requires Takes(IndicesItems(d.acquires, End), c) && Takes(BodyItems(d.code, End), e)
    ensures Takes(FunctionDefItems(d, End), a + b + c + e)
  {
    var body := BodyItems(d.code, End);
    var acquires := IndicesItems(d.acquires, body);
    IndicesAppend(d.acquires, 0, End, body);
    Then(IndicesItems(d.acquires, End), body, acquires, c, e);
    var flags := Word(VisibilityCode(d.visibility), 1, Word(NativeFlag(d.code), 1, acquires));
    FlagsAppend(VisibilityCode(d.visibility), NativeFlag(d.code), End, acquires);
    Then(Word(VisibilityCode(d.visibility), 1, Word(NativeFlag(d.code), 1, End)), acquires, flags, b, c + e);
    Then(Num(d.function_, TABLE_INDEX_MAX, End), flags, FunctionDefItems(d, End), a, b + (c + e));
  }

  lemma StructHandleAppend(h: StructHandle, x: Items, y: Items)
    ensures Append(StructHandleItems(h, x), y) == StructHandleItems(h, Append(x, y))
  {
    var parameters := ParametersItems(h.typeParameters, x);
    ParametersAppend(h.typeParameters, 0, x, y);
    assert Append(parameters, y) == ParametersItems(h.typeParameters, Append(x, y));
    PairAppend(h.mod, h.name, TABLE_INDEX_MAX, AbilityItems(h.abilities, parameters), y);
  }

  lemma FunctionHandleAppend(h: FunctionHandle, x: Items, y: Items)
    ensures Append(FunctionHandleItems(h, x), y) == FunctionHandleItems(h, Append(x, y))
  {
    var abilities := AbilitiesItems(h.typeParameters, x);
    AbilitiesAppend(h.typeParameters, 0, x, y);
    assert Append(abilities, y) == AbilitiesItems(h.typeParameters, Append(x, y));
    PairAppend(h.parameters, h.return_, TABLE_INDEX_MAX, abilities, y);
    PairAppend(h.mod, h.name, TABLE_INDEX_MAX, PairItems(h.parameters, h.return_, TABLE_INDEX_MAX, abilities), y);
  }

  lemma BodyAppend(code: Option<CodeUnit>, x: Items, y: Items)
    ensures Append(BodyItems(code, x), y) == BodyItems(code, Append(x, y))
  {
    if code.Some? {
      CodeAppend(code.value.code, 0, x, y);
    }
  }

  lemma FunctionDefAppend(d: FunctionDefinition, x: Items, y: Items)
    ensures Append(FunctionDefItems(d, x), y) == FunctionDefItems(d, Append(x, y))
  {
    var body := BodyItems(d.code, x);
    var acquires := IndicesItems(d.acquires, body);
    BodyAppend(d.code, x, y);
    IndicesAppend(d.acquires, 0, body, y);
    assert Append(acquires, y) == IndicesItems(d.acquires, BodyItems(d.code, Append(x, y)));
    FlagsAppend(VisibilityCode(d.visibility), NativeFlag(d.code), acquires, y);
  }

  lemma StructDefAppend(d: StructDefinition, x: Items, y: Items)
    ensures Append(StructDefItems(d, x), y) == StructDefItems(d, Append(x, y))
  {
    if d.fieldInformation.Declared? {
      var fields := FieldsItems(d.fieldInformation.fields, x);
      FieldsAppend(d.fieldInformation.fields, 0, x, y);
      assert Append(fields, y) == FieldsItems(d.fieldInformation.fields, Append(x, y));
    }
  }

  lemma DataAppend(row: Row, x: Items, y: Items)
    requires row.ConstantRow? || row.IdentifierRow? || row.AddressRow?
    ensures Append(RowItems(row, x), y) == RowItems(row, Append(x, y))
  {
    match row
    case ConstantRow(c) =>
      var data := Blob(DataBytes(c.data), x);
      assert Append(data, y) == Blob(DataBytes(c.data), Append(x, y));
      assert Append(Num(|c.data|, CONSTANT_SIZE_MAX, data), y) == Num(|c.data|, CONSTANT_SIZE_MAX, Append(data, y));
    case _ =>
  }

  lemma RowAppend(row: Row, x: Items, y: Items)
    ensures Append(RowItems(row, x), y) == RowItems(row, Append(x, y))
  {
    match row
    case StructHandleRow(h) => StructHandleAppend(h, x, y);
    case FunctionHandleRow(h) => FunctionHandleAppend(h, x, y);
    case SignatureRow(s) => TypesAppend(s, 0, x, y);
    case StructDefRow(d) => StructDefAppend(d, x, y);
    case FunctionDefRow(d) => FunctionDefAppend(d, x, y);
    case ConstantRow(_) => DataAppend(row, x, y);
    case IdentifierRow(_) => DataAppend(row, x, y);
    case AddressRow(_) => DataAppend(row, x, y);
    case ModuleRow(h) => PairAppend(h.address, h.name, TABLE_INDEX_MAX, x, y);
    case FunctionInstRow(i) => PairAppend(i.handle, i.typeParameters, TABLE_INDEX_MAX, x, y);
    case StructDefInstRow(i) => PairAppend(i.def, i.typeParameters, TABLE_INDEX_MAX, x, y);
    case FieldHandleRow(h) => PairAppend(h.owner, h.field, FIELD_OFFSET_MAX, x, y);
    case FieldInstRow(i) => PairAppend(i.handle, i.typeParameters, TABLE_INDEX_MAX, x, y);
  }

  lemma {:induction false} RowsSnoc(rows: seq<Row>, row: Row, i: nat)
    requires i <= |rows|
    ensures RowsFrom(rows + [row], i) == Append(RowsFrom(rows, i), RowItems(row, End))
    decreases |rows| - i
  {
    if i < |rows| {
      RowsSnoc(rows, row, i + 1);
      RowAppend(rows[i], RowsFrom(rows, i + 1), RowItems(row, End));
    }
  }

  lemma RowsGrow(rows: seq<Row>, row: Row, m: int, n: int)
    requires Takes(RowsFrom(rows, 0), m) && Takes(RowItems(row, End), n)
    ensures Takes(RowsFrom(rows + [row], 0), m + n)
  {
    RowsSnoc(rows, row, 0);
    Then(RowsFrom(rows, 0), RowItems(row, End), RowsFrom(rows + [row], 0), m, n);
  }
}
