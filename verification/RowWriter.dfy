/** Writing the rows of tables. */
module RowWriter {
  import opened Wrappers
  import opened Abilities
  import opened FileFormat
  import opened Uleb128
  import opened SignatureTokens
  import opened BinaryItems
  import opened BinaryInstructions
  import opened BinaryTables

  method WriteAbilities(binary: seq<Byte>, sets: seq<AbilitySet>, ghost rest: Items)
    returns (r: Result<seq<Byte>, Error>)
    ensures Wrote(binary, AbilitiesItems(sets, rest), rest, r)
  {
    var written :- WriteNum(binary, |sets|, TYPE_PARAMETER_COUNT_MAX, AbilitiesFrom(sets, 0, rest));
    for i := 0 to |sets|
      invariant Wrote(binary, AbilitiesItems(sets, rest), AbilitiesFrom(sets, i, rest), Ok(written))
    {
      written :- WriteNum(written, IntoU8(sets[i]), ABILITIES_MAX, AbilitiesFrom(sets, i + 1, rest));
    }
    r := Ok(written);
  }

  method WriteParameters(binary: seq<Byte>, ps: seq<StructTypeParameter>, ghost rest: Items)
    returns (r: Result<seq<Byte>, Error>)
    ensures Wrote(binary, ParametersItems(ps, rest), rest, r)
  {
    var written :- WriteNum(binary, |ps|, TYPE_PARAMETER_COUNT_MAX, ParametersFrom(ps, 0, rest));
    for i := 0 to |ps|
      invariant Wrote(binary, ParametersItems(ps, rest), ParametersFrom(ps, i, rest), Ok(written))
    {
      ghost var left := ParametersFrom(ps, i + 1, rest);
      var phantom := if ps[i].isPhantom then 1 else 0;
      written :- WriteNum(written, IntoU8(ps[i].constraints), ABILITIES_MAX, Num(phantom, 1, left));
      written :- WriteNum(written, phantom, 1, left);
    }
    r := Ok(written);
  }

  method WriteTypes(binary: seq<Byte>, ts: Signature, ghost rest: Items) returns (r: Result<seq<Byte>, Error>)
    ensures Wrote(binary, TypesItems(ts, rest), rest, r)
  {
    var written :- WriteNum(binary, |ts|, SIGNATURE_SIZE_MAX, TypesFrom(ts, 0, rest));
    for i := 0 to |ts|
      invariant Wrote(binary, TypesItems(ts, rest), TypesFrom(ts, i, rest), Ok(written))
    {
      written :- WriteType(written, ts[i], TypesFrom(ts, i + 1, rest));
    }
    r := Ok(written);
  }

  method WriteFields(binary: seq<Byte>, fs: seq<FieldDefinition>, ghost rest: Items)
    returns (r: Result<seq<Byte>, Error>)
    ensures Wrote(binary, FieldsItems(fs, rest), rest, r)
  {
    var written :- WriteNum(binary, |fs|, FIELD_COUNT_MAX, FieldsFrom(fs, 0, rest));
    for i := 0 to |fs|
      invariant Wrote(binary, FieldsItems(fs, rest), FieldsFrom(fs, i, rest), Ok(written))
    {
      ghost var left := FieldsFrom(fs, i + 1, rest);
      written :- WriteNum(written, fs[i].name, TABLE_INDEX_MAX, Type(fs[i].signature, left));
      written :- WriteType(written, fs[i].signature, left);
    }
    r := Ok(written);
  }

  method WriteIndices(binary: seq<Byte>, indices: seq<nat>, ghost rest: Items) returns (r: Result<seq<Byte>, Error>)
    ensures Wrote(binary, IndicesItems(indices, rest), rest, r)
  {
    var written :- WriteNum(binary, |indices|, ACQUIRES_COUNT_MAX, IndicesFrom(indices, 0, rest));
    for i := 0 to |indices|
      invariant Wrote(binary, IndicesItems(indices, rest), IndicesFrom(indices, i, rest), Ok(written))
    {
      written :- WriteNum(written, indices[i], TABLE_INDEX_MAX, IndicesFrom(indices, i + 1, rest));
    }
    r := Ok(written);
  }

  method WriteCode(binary: seq<Byte>, code: CodeUnit, ghost rest: Items) returns (r: Result<seq<Byte>, Error>)
    ensures Wrote(binary, CodeItems(code, rest), rest, r)
  {
    ghost var left := CodeFrom(code.code, 0, rest);
    var written :- WriteNum(binary, code.locals, TABLE_INDEX_MAX, Num(|code.code|, BYTECODE_COUNT_MAX, left));
    written :- WriteNum(written, |code.code|, BYTECODE_COUNT_MAX, left);
    for i := 0 to |code.code|
      invariant Wrote(binary, CodeItems(code, rest), CodeFrom(code.code, i, rest), Ok(written))
    {
      written :- WriteInstruction(written, code.code[i], CodeFrom(code.code, i + 1, rest));
    }
    r := Ok(written);
  }

  method WritePair(binary: seq<Byte>, a: nat, b: nat, max: U64, ghost rest: Items) returns (r: Result<seq<Byte>, Error>)
    ensures Wrote(binary, PairItems(a, b, max, rest), rest, r)
  {
    var written :- WriteNum(binary, a, TABLE_INDEX_MAX, Num(b, max, rest));
    r := WriteNum(written, b, max, rest);
  }

  method WriteStructHandle(binary: seq<Byte>, h: StructHandle, ghost rest: Items) returns (r: Result<seq<Byte>, Error>)
    ensures Wrote(binary, StructHandleItems(h, rest), rest, r)
  {
    ghost var parameters := ParametersItems(h.typeParameters, rest);
    ghost var abilities := AbilityItems(h.abilities, parameters);
    var written :- WriteNum(binary, h.mod, TABLE_INDEX_MAX, Num(h.name, TABLE_INDEX_MAX, abilities));
    written :- WriteNum(written, h.name, TABLE_INDEX_MAX, abilities);
    written :- WriteNum(written, IntoU8(h.abilities), ABILITIES_MAX, parameters);
    r := WriteParameters(written, h.typeParameters, rest);
  }

  method WriteFunctionHandle(binary: seq<Byte>, h: FunctionHandle, ghost rest: Items)
    returns (r: Result<seq<Byte>, Error>)
    ensures Wrote(binary, FunctionHandleItems(h, rest), rest, r)
  {
    ghost var abilities := AbilitiesItems(h.typeParameters, rest);
    ghost var signatures := Num(h.parameters, TABLE_INDEX_MAX, Num(h.return_, TABLE_INDEX_MAX, abilities));
    var written :- WriteNum(binary, h.mod, TABLE_INDEX_MAX, Num(h.name, TABLE_INDEX_MAX, signatures));
    written :- WriteNum(written, h.name, TABLE_INDEX_MAX, signatures);
    written :- WriteNum(written, h.parameters, TABLE_INDEX_MAX, signatures.rest);
    written :- WriteNum(written, h.return_, TABLE_INDEX_MAX, abilities);
    r := WriteAbilities(written, h.typeParameters, rest);
  }

  method WriteConstant(binary: seq<Byte>, c: Constant, ghost rest: Items) returns (r: Result<seq<Byte>, Error>)
    ensures Wrote(binary, ConstantItems(c, rest), rest, r)
  {
    ghost var data := Blob(DataBytes(c.data), rest);
    var written :- WriteType(binary, c.type_, Num(|c.data|, CONSTANT_SIZE_MAX, data));
    written :- WriteNum(written, |c.data|, CONSTANT_SIZE_MAX, data);
    written := WriteBlob(written, DataBytes(c.data), rest);
    r := Ok(written);
  }

  method WriteIdentifier(binary: seq<Byte>, name: Identifier, ghost rest: Items) returns (r: Result<seq<Byte>, Error>)
    ensures Wrote(binary, IdentifierItems(name, rest), rest, r)
  {
    var written :- WriteNum(binary, |name|, IDENTIFIER_SIZE_MAX, Blob(NameBytes(name), rest));
    written := WriteBlob(written, NameBytes(name), rest);
    r := Ok(written);
  }

  method WriteStructDef(binary: seq<Byte>, d: StructDefinition, ghost rest: Items) returns (r: Result<seq<Byte>, Error>)
    ensures Wrote(binary, StructDefItems(d, rest), rest, r)
  {
    ghost var info := FieldInformationItems(d.fieldInformation, rest);
    var written :- WriteNum(binary, d.structHandle, TABLE_INDEX_MAX, info);
    match d.fieldInformation {
      case Native => {
        written := WriteWord(written, NATIVE_STRUCT, 1, rest);
        r := Ok(written);
      }
      case Declared(fields) => {
        written := WriteWord(written, DECLARED_STRUCT, 1, FieldsItems(fields, rest));
        r := WriteFields(written, fields, rest);
      }
    }
  }

  method WriteFunctionDef(binary: seq<Byte>, d: FunctionDefinition, ghost rest: Items)
    returns (r: Result<seq<Byte>, Error>)
    ensures Wrote(binary, FunctionDefItems(d, rest), rest, r)
  {
    ghost var body := BodyItems(d.code, rest);
    ghost var acquires := IndicesItems(d.acquires, body);
    ghost var native := Word(NativeFlag(d.code), 1, acquires);
    var written :- WriteNum(binary, d.function_, TABLE_INDEX_MAX, Word(VisibilityCode(d.visibility), 1, native));
    written := WriteWord(written, VisibilityCode(d.visibility), 1, native);
    written := WriteWord(written, if d.code.None? then NATIVE_FUNCTION else 0, 1, acquires);
    written :- WriteIndices(written, d.acquires, body);
    if d.code.Some? {
      written :- WriteCode(written, d.code.value, rest);
    }
    r := Ok(written);
  }

  method WriteRow(binary: seq<Byte>, row: Row, ghost rest: Items) returns (r: Result<seq<Byte>, Error>)
    ensures Wrote(binary, RowItems(row, rest), rest, r)
  {
    match row {
      case ModuleRow(h) => r := WritePair(binary, h.address, h.name, TABLE_INDEX_MAX, rest);
      case StructHandleRow(h) => r := WriteStructHandle(binary, h, rest);
      case FunctionHandleRow(h) => r := WriteFunctionHandle(binary, h, rest);
      case FunctionInstRow(i) => r := WritePair(binary, i.handle, i.typeParameters, TABLE_INDEX_MAX, rest);
      case SignatureRow(s) => r := WriteTypes(binary, s, rest);
      case ConstantRow(c) => r := WriteConstant(binary, c, rest);
      case IdentifierRow(name) => r := WriteIdentifier(binary, name, rest);
      case AddressRow(a) => {
        var written := WriteBlob(binary, DataBytes(a), rest);
        r := Ok(written);
      }
      case StructDefRow(d) => r := WriteStructDef(binary, d, rest);
      case StructDefInstRow(i) => r := WritePair(binary, i.def, i.typeParameters, TABLE_INDEX_MAX, rest);
      case FunctionDefRow(d) => r := WriteFunctionDef(binary, d, rest);
      case FieldHandleRow(h) => r := WritePair(binary, h.owner, h.field, FIELD_OFFSET_MAX, rest);
      case FieldInstRow(i) => r := WritePair(binary, i.handle, i.typeParameters, TABLE_INDEX_MAX, rest);
    }
  }

  /** Appends all the rows of a table. */
  method WriteRows(binary: seq<Byte>, rows: seq<Row>) returns (r: Result<seq<Byte>, Error>)
    ensures r.Ok? <==> Fits(RowsFrom(rows, 0))
    ensures r.Ok? ==> r.value == binary + Bytes(RowsFrom(rows, 0))
  {
    var written := binary;
    for i := 0 to |rows|
      invariant Wrote(binary, RowsFrom(rows, 0), RowsFrom(rows, i), Ok(written))
    {
      written :- WriteRow(written, rows[i], RowsFrom(rows, i + 1));
    }
    assert written + [] == written;
    r := Ok(written);
  }
}
