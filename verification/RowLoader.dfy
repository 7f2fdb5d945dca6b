/**
 Reading the rows of tables. The ghost arguments name what is read, if that is what comes next, and what follows it.
 */
module RowLoader {
  import opened Wrappers
  import opened Abilities
  import opened Bytecodes
  import opened FileFormat
  import opened Slices
  import opened Uleb128
  import opened SignatureTokens
  import opened BinaryItems
  import opened BinaryInstructions
  import opened BinaryTables
  import opened RowParts

  method LoadAbilitySet(binary: seq<Byte>, position: nat, ghost set_: AbilitySet, ghost rest: Items)
    returns (r: Result<(AbilitySet, nat), Error>)
    requires position <= |binary|
    ensures Loaded(binary, position, AbilityItems(set_, rest), set_, rest, r)
    ensures r.Ok? ==> Takes(AbilityItems(r.value.0, End), r.value.1 - position)
  {
    FromBits(set_);
    var n :- LoadNum(binary, position, ABILITIES_MAX, IntoU8(set_), rest);
    var abilities := FromU8(n.0);
    IntoBits(n.0);
    if abilities.None? {
      return Err(Malformed);
    }
    r := Ok((abilities.value, n.1));
  }

  method LoadAbilities(binary: seq<Byte>, position: nat, ghost sets: seq<AbilitySet>, ghost rest: Items)
    returns (r: Result<(seq<AbilitySet>, nat), Error>)
    requires position <= |binary|
    ensures Loaded(binary, position, AbilitiesItems(sets, rest), sets, rest, r)
    ensures r.Ok? ==> Takes(AbilitiesItems(r.value.0, End), r.value.1 - position)
  {
    ghost var expected := Here(binary, position, AbilitiesItems(sets, rest));
    var n :- LoadNum(binary, position, TYPE_PARAMETER_COUNT_MAX, |sets|, AbilitiesFrom(sets, 0, rest));
    var next, loaded := n.1, [];
    for i := 0 to n.0
      invariant position < next <= |binary| && |loaded| == i
      invariant Takes(AbilitiesFrom(loaded, 0, End), next - n.1)
      invariant expected ==> n.0 == |sets| && loaded == sets[..i] && Here(binary, next, AbilitiesFrom(sets, i, rest))
    {
      ghost var here := i < |sets|;
      var x :- LoadAbilitySet(binary, next, if here then sets[i] else EMPTY,
                              if here then AbilitiesFrom(sets, i + 1, rest) else rest);
      AbilitiesGrow(loaded, x.0, next - n.1, x.1 - next);
      if expected {
        Grown(sets, i);
      }
      loaded, next := loaded + [x.0], x.1;
    }
    assert sets[..|sets|] == sets;
    Then(Num(n.0, TYPE_PARAMETER_COUNT_MAX, End), AbilitiesFrom(loaded, 0, End),
         AbilitiesItems(loaded, End), n.1 - position, next - n.1);
    r := Ok((loaded, next));
  }

  method LoadParameter(binary: seq<Byte>, position: nat, ghost p: StructTypeParameter, ghost rest: Items)
    returns (r: Result<(StructTypeParameter, nat), Error>)
    requires position <= |binary|
    ensures Loaded(binary, position, ParameterItems(p, rest), p, rest, r)
    ensures r.Ok? ==> Takes(ParameterItems(r.value.0, End), r.value.1 - position)
  {
    ghost var phantom := if p.isPhantom then 1 else 0;
    var constraints :- LoadAbilitySet(binary, position, p.constraints, Num(phantom, 1, rest));
    var n :- LoadNum(binary, constraints.1, 1, phantom, rest);
    var loaded := StructTypeParameter(constraints.0, n.0 != 0);
    Then(AbilityItems(constraints.0, End), Num(n.0, 1, End), ParameterItems(loaded, End),
         constraints.1 - position, n.1 - constraints.1);
    r := Ok((loaded, n.1));
  }

  method LoadParameters(binary: seq<Byte>, position: nat, ghost ps: seq<StructTypeParameter>, ghost rest: Items)
    returns (r: Result<(seq<StructTypeParameter>, nat), Error>)
    requires position <= |binary|
    ensures Loaded(binary, position, ParametersItems(ps, rest), ps, rest, r)
    ensures r.Ok? ==> Takes(ParametersItems(r.value.0, End), r.value.1 - position)
  {
    ghost var expected := Here(binary, position, ParametersItems(ps, rest));
    var n :- LoadNum(binary, position, TYPE_PARAMETER_COUNT_MAX, |ps|, ParametersFrom(ps, 0, rest));
    var next, loaded := n.1, [];
    for i := 0 to n.0
      invariant position < next <= |binary| && |loaded| == i
      invariant Takes(ParametersFrom(loaded, 0, End), next - n.1)
      invariant expected ==> n.0 == |ps| && loaded == ps[..i] && Here(binary, next, ParametersFrom(ps, i, rest))
    {
      ghost var here := i < |ps|;
      var x :- LoadParameter(binary, next, if here then ps[i] else StructTypeParameter(EMPTY, false),
                             if here then ParametersFrom(ps, i + 1, rest) else rest);
      ParametersGrow(loaded, x.0, next - n.1, x.1 - next);
      if expected {
        Grown(ps, i);
      }
      loaded, next := loaded + [x.0], x.1;
    }
    assert ps[..|ps|] == ps;
    Then(Num(n.0, TYPE_PARAMETER_COUNT_MAX, End), ParametersFrom(loaded, 0, End),
         ParametersItems(loaded, End), n.1 - position, next - n.1);
    r := Ok((loaded, next));
  }

  /** Reads the next type of a signature. */
  method LoadNextType(binary: seq<Byte>, position: nat, ghost ts: Signature, ghost i: nat, ghost rest: Items)
    returns (r: Result<(SignatureToken, nat), Error>)
    requires position <= |binary|
    ensures r.Ok? ==> position < r.value.1 <= |binary|
    ensures r.Ok? ==> Takes(Type(r.value.0, End), r.value.1 - position)
    ensures i < |ts| ==> Loaded(binary, position, TypesFrom(ts, i, rest), ts[i], TypesFrom(ts, i + 1, rest), r)
  {
    ghost var here := i < |ts|;
    r := LoadType(binary, position, if here then ts[i] else Bool, if here then TypesFrom(ts, i + 1, rest) else rest);
  }

  method LoadTypes(binary: seq<Byte>, position: nat, ghost ts: Signature, ghost rest: Items)
    returns (r: Result<(Signature, nat), Error>)
    requires position <= |binary|
    ensures Loaded(binary, position, TypesItems(ts, rest), ts, rest, r)
    ensures r.Ok? ==> Takes(TypesItems(r.value.0, End), r.value.1 - position)
  {
    ghost var expected := Here(binary, position, TypesItems(ts, rest));
    var n :- LoadNum(binary, position, SIGNATURE_SIZE_MAX, |ts|, TypesFrom(ts, 0, rest));
    var next, loaded := n.1, [];
    for i := 0 to n.0
      invariant position < next <= |binary| && |loaded| == i
      invariant Takes(TypesFrom(loaded, 0, End), next - n.1)
      invariant expected ==> n.0 == |ts| && loaded == ts[..i] && Here(binary, next, TypesFrom(ts, i, rest))
    {
      var x :- LoadNextType(binary, next, ts, i, rest);
      if expected {
        Grown(ts, i);
      }
      TypesGrow(loaded, x.0, next - n.1, x.1 - next);
      loaded, next := loaded + [x.0], x.1;
    }
    assert ts[..|ts|] == ts;
    Then(Num(n.0, SIGNATURE_SIZE_MAX, End), TypesFrom(loaded, 0, End),
         TypesItems(loaded, End), n.1 - position, next - n.1);
    r := Ok((loaded, next));
  }

  method LoadField(binary: seq<Byte>, position: nat, ghost f: FieldDefinition, ghost rest: Items)
    returns (r: Result<(FieldDefinition, nat), Error>)
    requires position <= |binary|
    ensures Loaded(binary, position, FieldItems(f, rest), f, rest, r)
    ensures r.Ok? ==> Takes(FieldItems(r.value.0, End), r.value.1 - position)
  {
    var name :- LoadNum(binary, position, TABLE_INDEX_MAX, f.name, Type(f.signature, rest));
    var signature :- LoadType(binary, name.1, f.signature, rest);
    var loaded := FieldDefinition(name.0, signature.0);
    Then(Num(name.0, TABLE_INDEX_MAX, End), Type(signature.0, End), FieldItems(loaded, End),
         name.1 - position, signature.1 - name.1);
    r := Ok((loaded, signature.1));
  }

  /** Reads the next field of a struct. */
  method LoadNextField(
    binary: seq<Byte>, position: nat, ghost fs: seq<FieldDefinition>, ghost i: nat, ghost rest: Items)
    returns (r: Result<(FieldDefinition, nat), Error>)
    requires position <= |binary|
    ensures r.Ok? ==> position < r.value.1 <= |binary| && Takes(FieldItems(r.value.0, End), r.value.1 - position)
    ensures i < |fs| ==> Loaded(binary, position, FieldsFrom(fs, i, rest), fs[i], FieldsFrom(fs, i + 1, rest), r)
  {
    ghost var here := i < |fs|;
    r := LoadField(binary, position, if here then fs[i] else FieldDefinition(0, Bool),
                   if here then FieldsFrom(fs, i + 1, rest) else rest);
  }

  method LoadFields(binary: seq<Byte>, position: nat, ghost fs: seq<FieldDefinition>, ghost rest: Items)
    returns (r: Result<(seq<FieldDefinition>, nat), Error>)
    requires position <= |binary|
    ensures Loaded(binary, position, FieldsItems(fs, rest), fs, rest, r)
    ensures r.Ok? ==> Takes(FieldsItems(r.value.0, End), r.value.1 - position)
  {
    ghost var expected := Here(binary, position, FieldsItems(fs, rest));
    var n :- LoadNum(binary, position, FIELD_COUNT_MAX, |fs|, FieldsFrom(fs, 0, rest));
    var next, loaded := n.1, [];
    for i := 0 to n.0
      invariant position < next <= |binary| && |loaded| == i
      invariant Takes(FieldsFrom(loaded, 0, End), next - n.1)
      invariant expected ==> n.0 == |fs| && loaded == fs[..i] && Here(binary, next, FieldsFrom(fs, i, rest))
    {
      var x :- LoadNextField(binary, next, fs, i, rest);
      FieldsGrow(loaded, x.0, next - n.1, x.1 - next);
      if expected {
        Grown(fs, i);
      }
      loaded, next := loaded + [x.0], x.1;
    }
    assert fs[..|fs|] == fs;
    Then(Num(n.0, FIELD_COUNT_MAX, End), FieldsFrom(loaded, 0, End),
         FieldsItems(loaded, End), n.1 - position, next - n.1);
    r := Ok((loaded, next));
  }

  method LoadIndices(binary: seq<Byte>, position: nat, ghost indices: seq<nat>, ghost rest: Items)
    returns (r: Result<(seq<nat>, nat), Error>)
    requires position <= |binary|
    ensures Loaded(binary, position, IndicesItems(indices, rest), indices, rest, r)
    ensures r.Ok? ==> Takes(IndicesItems(r.value.0, End), r.value.1 - position)
  {
    ghost var expected := Here(binary, position, IndicesItems(indices, rest));
    var n :- LoadNum(binary, position, ACQUIRES_COUNT_MAX, |indices|, IndicesFrom(indices, 0, rest));
    var next, loaded := n.1, [];
    for i := 0 to n.0
      invariant position < next <= |binary| && |loaded| == i
      invariant Takes(IndicesFrom(loaded, 0, End), next - n.1)
      invariant expected ==>
                  n.0 == |indices| && loaded == indices[..i] && Here(binary, next, IndicesFrom(indices, i, rest))
    {
      ghost var here := i < |indices|;
      var x :- LoadNum(binary, next, TABLE_INDEX_MAX, if here then indices[i] else 0,
                       if here then IndicesFrom(indices, i + 1, rest) else rest);
      IndicesGrow(loaded, x.0, next - n.1, x.1 - next);
      if expected {
        Grown(indices, i);
      }
      loaded, next := loaded + [x.0], x.1;
    }
    assert indices[..|indices|] == indices;
    Then(Num(n.0, ACQUIRES_COUNT_MAX, End), IndicesFrom(loaded, 0, End),
         IndicesItems(loaded, End), n.1 - position, next - n.1);
    r := Ok((loaded, next));
  }

  /** Reads the next instruction of a code unit. */
  method LoadNextInstruction(binary: seq<Byte>, position: nat, ghost code: seq<Bytecode>, ghost i: nat,
                             ghost rest: Items)
    returns (r: Result<(Bytecode, nat), Error>)
    requires position <= |binary|
    ensures r.Ok? ==> position < r.value.1 <= |binary| && Takes(InstructionItems(r.value.0, End), r.value.1 - position)
    ensures i < |code| ==> Loaded(binary, position, CodeFrom(code, i, rest), code[i], CodeFrom(code, i + 1, rest), r)
  {
    ghost var here := i < |code|;
    r := LoadInstruction(binary, position, if here then code[i] else Nop,
                         if here then CodeFrom(code, i + 1, rest) else rest);
  }

  /** The first instructions were read. */
  ghost predicate CodeRead(
    binary: seq<Byte>, code: seq<Bytecode>, rest: Items, count: nat, loaded: seq<Bytecode>, next: nat)
  {
    count == |code| && |loaded| <= |code| && loaded == code[..|loaded|] &&
    Here(binary, next, CodeFrom(code, |loaded|, rest))
  }

  lemma CodeReadOn(
    binary: seq<Byte>, code: seq<Bytecode>, rest: Items, count: nat, loaded: seq<Bytecode>, one: Bytecode, next: nat)
    requires |loaded| < |code| == count && loaded == code[..|loaded|] && one == code[|loaded|]
    requires Here(binary, next, CodeFrom(code, |loaded| + 1, rest))
    ensures CodeRead(binary, code, rest, count, loaded + [one], next)
  {
    Grown(code, |loaded|);
  }

  method LoadInstructions(binary: seq<Byte>, position: nat, ghost code: seq<Bytecode>, ghost rest: Items)
    returns (r: Result<(seq<Bytecode>, nat), Error>)
    requires position <= |binary|
    ensures Loaded(binary, position, Num(|code|, BYTECODE_COUNT_MAX, CodeFrom(code, 0, rest)), code, rest, r)
    ensures r.Ok? ==> Takes(Num(|r.value.0|, BYTECODE_COUNT_MAX, CodeFrom(r.value.0, 0, End)), r.value.1 - position)
  {
    ghost var expected := Here(binary, position, Num(|code|, BYTECODE_COUNT_MAX, CodeFrom(code, 0, rest)));
    var n :- LoadNum(binary, position, BYTECODE_COUNT_MAX, |code|, CodeFrom(code, 0, rest));
    var next, loaded := n.1, [];
    while |loaded| < n.0
      invariant position < next <= |binary| && |loaded| <= n.0
      invariant Takes(CodeFrom(loaded, 0, End), next - n.1)
      invariant expected ==> CodeRead(binary, code, rest, n.0, loaded, next)
    {
      var x :- LoadNextInstruction(binary, next, code, |loaded|, rest);
      if expected {
        CodeReadOn(binary, code, rest, n.0, loaded, x.0, x.1);
      }
      CodeGrow(loaded, x.0, next - n.1, x.1 - next);
      loaded, next := loaded + [x.0], x.1;
    }
    assert code[..|code|] == code;
    Then(Num(n.0, BYTECODE_COUNT_MAX, End), CodeFrom(loaded, 0, End),
         Num(|loaded|, BYTECODE_COUNT_MAX, CodeFrom(loaded, 0, End)), n.1 - position, next - n.1);
    r := Ok((loaded, next));
  }

  method LoadCode(binary: seq<Byte>, position: nat, ghost code: CodeUnit, ghost rest: Items)
    returns (r: Result<(CodeUnit, nat), Error>)
    requires position <= |binary|
    ensures Loaded(binary, position, CodeItems(code, rest), code, rest, r)
    ensures r.Ok? ==> Takes(CodeItems(r.value.0, End), r.value.1 - position)
  {
    var locals :- LoadNum(binary, position, TABLE_INDEX_MAX, code.locals,
                          Num(|code.code|, BYTECODE_COUNT_MAX, CodeFrom(code.code, 0, rest)));
    var body :- LoadInstructions(binary, locals.1, code.code, rest);
    var loaded := CodeUnit(locals.0, body.0);
    Then(Num(locals.0, TABLE_INDEX_MAX, End), Num(|body.0|, BYTECODE_COUNT_MAX, CodeFrom(body.0, 0, End)),
         CodeItems(loaded, End), locals.1 - position, body.1 - locals.1);
    r := Ok((loaded, body.1));
  }

  method LoadPair(binary: seq<Byte>, position: nat, max: U64, ghost a: nat, ghost b: nat, ghost rest: Items)
    returns (r: Result<((nat, nat), nat), Error>)
    requires position <= |binary|
    ensures Loaded(binary, position, PairItems(a, b, max, rest), (a, b), rest, r)
    ensures r.Ok? ==> Takes(PairItems(r.value.0.0, r.value.0.1, max, End), r.value.1 - position)
  {
    var x :- LoadNum(binary, position, TABLE_INDEX_MAX, a, Num(b, max, rest));
    var y :- LoadNum(binary, x.1, max, b, rest);
    Then(Num(x.0, TABLE_INDEX_MAX, End), Num(y.0, max, End), PairItems(x.0, y.0, max, End),
         x.1 - position, y.1 - x.1);
    r := Ok(((x.0, y.0), y.1));
  }

  method LoadStructHandle(binary: seq<Byte>, position: nat, ghost h: StructHandle, ghost rest: Items)
    returns (r: Result<(StructHandle, nat), Error>)
    requires position <= |binary|
    ensures Loaded(binary, position, StructHandleItems(h, rest), h, rest, r)
    ensures r.Ok? ==> Takes(StructHandleItems(r.value.0, End), r.value.1 - position)
  {
    ghost var parameters := ParametersItems(h.typeParameters, rest);
    ghost var abilities := AbilityItems(h.abilities, parameters);
    var mod :- LoadNum(binary, position, TABLE_INDEX_MAX, h.mod, Num(h.name, TABLE_INDEX_MAX, abilities));
    var name :- LoadNum(binary, mod.1, TABLE_INDEX_MAX, h.name, abilities);
    var set_ :- LoadAbilitySet(binary, name.1, h.abilities, parameters);
    var ps :- LoadParameters(binary, set_.1, h.typeParameters, rest);
    var loaded := StructHandle(mod.0, name.0, set_.0, ps.0);
    Then(Num(mod.0, TABLE_INDEX_MAX, End), Num(name.0, TABLE_INDEX_MAX, End),
         PairItems(mod.0, name.0, TABLE_INDEX_MAX, End), mod.1 - position, name.1 - mod.1);
    StructHandleTakes(loaded, name.1 - position, set_.1 - name.1, ps.1 - set_.1);
    r := Ok((loaded, ps.1));
  }

  method LoadFunctionHandle(binary: seq<Byte>, position: nat, ghost h: FunctionHandle, ghost rest: Items)
    returns (r: Result<(FunctionHandle, nat), Error>)
    requires position <= |binary|
    ensures Loaded(binary, position, FunctionHandleItems(h, rest), h, rest, r)
    ensures r.Ok? ==> Takes(FunctionHandleItems(r.value.0, End), r.value.1 - position)
  {
    ghost var abilities := AbilitiesItems(h.typeParameters, rest);
    ghost var signatures := Num(h.parameters, TABLE_INDEX_MAX, Num(h.return_, TABLE_INDEX_MAX, abilities));
    var mod :- LoadNum(binary, position, TABLE_INDEX_MAX, h.mod, Num(h.name, TABLE_INDEX_MAX, signatures));
    var name :- LoadNum(binary, mod.1, TABLE_INDEX_MAX, h.name, signatures);
    var parameters :- LoadNum(binary, name.1, TABLE_INDEX_MAX, h.parameters, signatures.rest);
    var return_ :- LoadNum(binary, parameters.1, TABLE_INDEX_MAX, h.return_, abilities);
    var sets :- LoadAbilities(binary, return_.1, h.typeParameters, rest);
    var loaded := FunctionHandle(mod.0, name.0, parameters.0, return_.0, sets.0);
    Then(Num(mod.0, TABLE_INDEX_MAX, End), Num(name.0, TABLE_INDEX_MAX, End),
         PairItems(mod.0, name.0, TABLE_INDEX_MAX, End), mod.1 - position, name.1 - mod.1);
    Then(Num(parameters.0, TABLE_INDEX_MAX, End), Num(return_.0, TABLE_INDEX_MAX, End),
         PairItems(parameters.0, return_.0, TABLE_INDEX_MAX, End), parameters.1 - name.1, return_.1 - parameters.1);
    FunctionHandleTakes(loaded, name.1 - position, return_.1 - name.1, sets.1 - return_.1);
    r := Ok((loaded, sets.1));
  }

  /** Reads a size, then as many bytes. */
  method LoadSized(binary: seq<Byte>, position: nat, max: U64, ghost bytes: seq<Byte>, ghost rest: Items)
    returns (r: Result<(seq<Byte>, nat), Error>)
    requires position <= |binary|
    ensures Loaded(binary, position, Num(|bytes|, max, Blob(bytes, rest)), bytes, rest, r)
    ensures r.Ok? ==> Takes(Num(|r.value.0|, max, Blob(r.value.0, End)), r.value.1 - position)
  {
    var size :- LoadNum(binary, position, max, |bytes|, Blob(bytes, rest));
    r := LoadBlob(binary, size.1, size.0, bytes, rest);
    if r.Ok? {
      Then(Num(size.0, max, End), Blob(r.value.0, End), Num(size.0, max, Blob(r.value.0, End)),
           size.1 - position, size.0);
    }
  }

  method LoadConstant(binary: seq<Byte>, position: nat, ghost c: Constant, ghost rest: Items)
    returns (r: Result<(Constant, nat), Error>)
    requires position <= |binary|
    ensures IsData(c.data) ==> Loaded(binary, position, ConstantItems(c, rest), c, rest, r)
    ensures r.Ok? ==> position < r.value.1 <= |binary| && RowOk(ConstantRow(r.value.0))
    ensures r.Ok? ==> Takes(ConstantItems(r.value.0, End), r.value.1 - position)
  {
    ghost var bytes := DataBytes(c.data);
    var t :- LoadType(binary, position, c.type_, Num(|bytes|, CONSTANT_SIZE_MAX, Blob(bytes, rest)));
    var data :- LoadSized(binary, t.1, CONSTANT_SIZE_MAX, bytes, rest);
    DataAgain(data.0);
    var loaded := Constant(t.0, data.0);
    Then(Type(t.0, End), Num(|data.0|, CONSTANT_SIZE_MAX, Blob(data.0, End)), ConstantItems(loaded, End),
         t.1 - position, data.1 - t.1);
    r := Ok((loaded, data.1));
    assert IsData(c.data) ==> bytes == c.data;
  }

  lemma NameAgain(name: Identifier)
    requires ValidIdentifier(name)
    ensures NameOf(NameBytes(name)) == name && NameBytes(name) != []
  {
  }

  method LoadIdentifier(binary: seq<Byte>, position: nat, ghost name: Identifier, ghost rest: Items)
    returns (r: Result<(Identifier, nat), Error>)
    requires position <= |binary|
    ensures ValidIdentifier(name) ==> Loaded(binary, position, IdentifierItems(name, rest), name, rest, r)
    ensures r.Ok? ==> position < r.value.1 <= |binary| && RowOk(IdentifierRow(r.value.0))
    ensures r.Ok? ==> Takes(IdentifierItems(r.value.0, End), r.value.1 - position)
  {
    var bytes :- LoadSized(binary, position, IDENTIFIER_SIZE_MAX, NameBytes(name), rest);
    if ValidIdentifier(name) {
      NameAgain(name);
    }
    if !IsName(bytes.0) {
      return Err(Malformed);
    }
    NameIsValid(bytes.0);
    r := Ok((NameOf(bytes.0), bytes.1));
  }

  method LoadAddress(binary: seq<Byte>, position: nat, ghost a: AccountAddress, ghost rest: Items)
    returns (r: Result<(AccountAddress, nat), Error>)
    requires position <= |binary|
    ensures |a| == ADDRESS_LENGTH && IsData(a) ==> Loaded(binary, position, Blob(DataBytes(a), rest), a, rest, r)
    ensures r.Ok? ==> position < r.value.1 <= |binary| && RowOk(AddressRow(r.value.0))
    ensures r.Ok? ==> Takes(Blob(DataBytes(r.value.0), End), r.value.1 - position)
  {
    var bytes :- LoadBlob(binary, position, ADDRESS_LENGTH, DataBytes(a), rest);
    DataAgain(bytes.0);
    r := Ok((bytes.0, bytes.1));
    assert IsData(a) ==> DataBytes(a) == a;
  }

  method LoadStructDef(binary: seq<Byte>, position: nat, ghost d: StructDefinition, ghost rest: Items)
    returns (r: Result<(StructDefinition, nat), Error>)
    requires position <= |binary|
    ensures Loaded(binary, position, StructDefItems(d, rest), d, rest, r)
    ensures r.Ok? ==> Takes(StructDefItems(r.value.0, End), r.value.1 - position)
  {
    ghost var info := FieldInformationItems(d.fieldInformation, rest);
    var handle :- LoadNum(binary, position, TABLE_INDEX_MAX, d.structHandle, info);
    var flag :- LoadWord(binary, handle.1, 1, info.value, info.rest);
    if flag.0 == NATIVE_STRUCT {
      var native := StructDefinition(handle.0, Native);
      Then(Num(handle.0, TABLE_INDEX_MAX, End), Word(NATIVE_STRUCT, 1, End), StructDefItems(native, End),
           handle.1 - position, 1);
      return Ok((native, flag.1));
    }
    if flag.0 != DECLARED_STRUCT {
      return Err(Malformed);
    }
    var fields :- LoadFields(
      binary, flag.1, if d.fieldInformation.Declared? then d.fieldInformation.fields else [], rest);
    DeclaredTakes(handle.0, fields.0, handle.1 - position, fields.1 - flag.1);
    r := Ok((StructDefinition(handle.0, Declared(fields.0)), fields.1));
  }

  /** The bit for native functions is set. */
  predicate IsNative(flags: nat)
    ensures IsNative(flags) ==> flags >= NATIVE_FUNCTION
  {
    flags / 2 % 2 == 1
  }

  /** Reads the visibility and the flags of a function. */
  method LoadFlags(binary: seq<Byte>, position: nat, ghost visibility: Visibility, ghost flags: nat, ghost rest: Items)
    returns (r: Result<((Visibility, nat), nat), Error>)
    requires position <= |binary|
    ensures Loaded(
              binary, position, Word(VisibilityCode(visibility), 1, Word(flags, 1, rest)), (visibility, flags), rest, r)
    ensures r.Ok? ==> Takes(Word(VisibilityCode(r.value.0.0), 1, Word(r.value.0.1, 1, End)), r.value.1 - position)
  {
    var code :- LoadWord(binary, position, 1, VisibilityCode(visibility), Word(flags, 1, rest));
    var vis := VisibilityOf(code.0);
    if vis.None? {
      return Err(Malformed);
    }
    var extra :- LoadWord(binary, code.1, 1, flags, rest);
    Then(Word(code.0, 1, End), Word(extra.0, 1, End), Word(code.0, 1, Word(extra.0, 1, End)), 1, 1);
    r := Ok(((vis.value, extra.0), extra.1));
  }

  /** Reads the body that a function has unless it is native. No other flag may be set. */
  method LoadBody(binary: seq<Byte>, position: nat, flags: nat, ghost code: Option<CodeUnit>, ghost rest: Items)
    returns (r: Result<(Option<CodeUnit>, nat), Error>)
    requires position <= |binary|
    ensures r.Ok? ==> position <= r.value.1 <= |binary|
    ensures r.Ok? ==> flags == NativeFlag(r.value.0) && Takes(BodyItems(r.value.0, End), r.value.1 - position)
    ensures flags == NativeFlag(code) && Here(binary, position, BodyItems(code, rest)) ==>
              r.Ok? && r.value.0 == code && Here(binary, r.value.1, rest)
  {
    var next, unused, body := position, flags, None;
    if IsNative(flags) {
      unused := flags - NATIVE_FUNCTION;
    } else {
      var unit :- LoadCode(binary, next, if code.Some? then code.value else CodeUnit(0, []), rest);
      body, next := Some(unit.0), unit.1;
    }
    if unused != 0 {
      return Err(Malformed);
    }
    r := Ok((body, next));
  }

  method LoadFunctionDef(binary: seq<Byte>, position: nat, ghost d: FunctionDefinition, ghost rest: Items)
    returns (r: Result<(FunctionDefinition, nat), Error>)
    requires position <= |binary|
    ensures Loaded(binary, position, FunctionDefItems(d, rest), d, rest, r)
    ensures r.Ok? ==> Takes(FunctionDefItems(r.value.0, End), r.value.1 - position)
  {
    ghost var body := BodyItems(d.code, rest);
    ghost var acquires := IndicesItems(d.acquires, body);
    var function_ :- LoadNum(binary, position, TABLE_INDEX_MAX, d.function_,
                             Word(VisibilityCode(d.visibility), 1, Word(NativeFlag(d.code), 1, acquires)));
    var flags :- LoadFlags(binary, function_.1, d.visibility, NativeFlag(d.code), acquires);
    var indices :- LoadIndices(binary, flags.1, d.acquires, body);
    var code :- LoadBody(binary, indices.1, flags.0.1, d.code, rest);
    var loaded := FunctionDefinition(function_.0, flags.0.0, indices.0, code.0);
    FunctionDefTakes(
      loaded, function_.1 - position, flags.1 - function_.1, indices.1 - flags.1, code.1 - indices.1);
    r := Ok((loaded, code.1));
  }

  /** What was read is a row of the right kind, and can be written and read again. */
  ghost predicate ReadRow(binary: seq<Byte>, position: nat, kind: TableKind, r: Result<(Row, nat), Error>) {
    r.Ok? ==>
      && position < r.value.1 <= |binary| && Belongs(r.value.0, kind) && RowOk(r.value.0)
      && Takes(RowItems(r.value.0, End), r.value.1 - position)
  }

  /** The tables whose rows are two indices. */
  predicate HasPairs(kind: TableKind) {
    match kind
    case ModuleHandles | FriendDecls | FunctionInst | StructDefInst | FieldHandles | FieldInst => true
    case _ => false
  }

  function PairRow(kind: TableKind, a: nat, b: nat): (row: Row)
    requires HasPairs(kind)
    ensures Belongs(row, kind) && RowOk(row)
  {
    match kind
    case ModuleHandles | FriendDecls => ModuleRow(ModuleHandle(a, b))
    case FunctionInst => FunctionInstRow(FunctionInstantiation(a, b))
    case StructDefInst => StructDefInstRow(StructDefInstantiation(a, b))
    case FieldHandles => FieldHandleRow(FieldHandle(a, b))
    case FieldInst => FieldInstRow(FieldInstantiation(a, b))
  }

  function PairMax(kind: TableKind): U64 {
    if kind == FieldHandles then FIELD_OFFSET_MAX else TABLE_INDEX_MAX
  }

  /** The indices of such a row. */
  ghost function PairOf(row: Row): (nat, nat) {
    match row
    case ModuleRow(h) => (h.address, h.name)
    case FunctionInstRow(x) => (x.handle, x.typeParameters)
    case StructDefInstRow(x) => (x.def, x.typeParameters)
    case FieldHandleRow(x) => (x.owner, x.field)
    case FieldInstRow(x) => (x.handle, x.typeParameters)
    case _ => (0, 0)
  }

  lemma PairRowItems(kind: TableKind, row: Row, rest: Items)
    requires HasPairs(kind) && Belongs(row, kind)
    ensures RowItems(row, rest) == PairItems(PairOf(row).0, PairOf(row).1, PairMax(kind), rest)
    ensures PairRow(kind, PairOf(row).0, PairOf(row).1) == row
  {
  }

  method LoadPairRow(kind: TableKind, binary: seq<Byte>, position: nat, ghost row: Row, ghost rest: Items)
    returns (r: Result<(Row, nat), Error>)
    requires position <= |binary| && HasPairs(kind) && Belongs(row, kind)
    ensures ReadRow(binary, position, kind, r)
    ensures Loaded(binary, position, RowItems(row, rest), row, rest, r)
  {
    PairRowItems(kind, row, rest);
    var x :- LoadPair(binary, position, PairMax(kind), PairOf(row).0, PairOf(row).1, rest);
    PairRowItems(kind, PairRow(kind, x.0.0, x.0.1), End);
    r := Ok((PairRow(kind, x.0.0, x.0.1), x.1));
  }

  /** Reads a row of data: a signature, a constant, an identifier or an address. */
  method LoadDataRow(kind: TableKind, binary: seq<Byte>, position: nat, ghost row: Row, ghost rest: Items)
    returns (r: Result<(Row, nat), Error>)
    requires position <= |binary| && Belongs(row, kind)
    requires kind == Signatures || kind == ConstantPool || kind == Identifiers || kind == AddressIdentifiers
    ensures ReadRow(binary, position, kind, r)
    ensures RowOk(row) ==> Loaded(binary, position, RowItems(row, rest), row, rest, r)
  {
    match kind {
      case Signatures => {
        var x :- LoadTypes(binary, position, row.signature, rest);
        r := Ok((SignatureRow(x.0), x.1));
      }
      case ConstantPool => {
        var x :- LoadConstant(binary, position, row.constant, rest);
        r := Ok((ConstantRow(x.0), x.1));
      }
      case Identifiers => {
        var x :- LoadIdentifier(binary, position, row.identifier, rest);
        r := Ok((IdentifierRow(x.0), x.1));
      }
      case AddressIdentifiers => {
        var x :- LoadAddress(binary, position, row.address, rest);
        r := Ok((AddressRow(x.0), x.1));
      }
    }
  }

  /** Reads a row of a table. */
  method LoadRow(kind: TableKind, binary: seq<Byte>, position: nat, ghost row: Row, ghost rest: Items)
    returns (r: Result<(Row, nat), Error>)
    requires position <= |binary| && Belongs(row, kind)
    ensures ReadRow(binary, position, kind, r)
    ensures RowOk(row) ==> Loaded(binary, position, RowItems(row, rest), row, rest, r)
  {
    match kind {
      case ModuleHandles | FriendDecls | FunctionInst | StructDefInst | FieldHandles | FieldInst =>
        r := LoadPairRow(kind, binary, position, row, rest);
      case Signatures | ConstantPool | Identifiers | AddressIdentifiers =>
        r := LoadDataRow(kind, binary, position, row, rest);
      case StructHandles => {
        var x :- LoadStructHandle(binary, position, row.structHandle, rest);
        r := Ok((StructHandleRow(x.0), x.1));
      }
      case FunctionHandles => {
        var x :- LoadFunctionHandle(binary, position, row.functionHandle, rest);
        r := Ok((FunctionHandleRow(x.0), x.1));
      }
      case StructDefs => {
        var x :- LoadStructDef(binary, position, row.structDef, rest);
        r := Ok((StructDefRow(x.0), x.1));
      }
      case FunctionDefs => {
        var x :- LoadFunctionDef(binary, position, row.functionDef, rest);
        r := Ok((FunctionDefRow(x.0), x.1));
      }
    }
  }

  ghost function SomeRow(kind: TableKind): (row: Row)
    ensures Belongs(row, kind)
  {
    match kind
    case ModuleHandles | FriendDecls => ModuleRow(ModuleHandle(0, 0))
    case StructHandles => StructHandleRow(StructHandle(0, 0, EMPTY, []))
    case FunctionHandles => FunctionHandleRow(FunctionHandle(0, 0, 0, 0, []))
    case FunctionInst => FunctionInstRow(FunctionInstantiation(0, 0))
    case Signatures => SignatureRow([])
    case ConstantPool => ConstantRow(Constant(Bool, []))
    case Identifiers => IdentifierRow("")
    case AddressIdentifiers => AddressRow([])
    case StructDefs => StructDefRow(StructDefinition(0, Native))
    case StructDefInst => StructDefInstRow(StructDefInstantiation(0, 0))
    case FunctionDefs => FunctionDefRow(FunctionDefinition(0, Private, [], None))
    case FieldHandles => FieldHandleRow(FieldHandle(0, 0))
    case FieldInst => FieldInstRow(FieldInstantiation(0, 0))
  }

  ghost predicate TableRows(rows: seq<Row>, kind: TableKind) {
    forall i | 0 <= i < |rows| :: Belongs(rows[i], kind) && RowOk(rows[i])
  }

  /** Reads the next row of a table. */
  method LoadNextRow(kind: TableKind, binary: seq<Byte>, position: nat, ghost rows: seq<Row>, ghost i: nat)
    returns (r: Result<(Row, nat), Error>)
    requires position <= |binary|
    ensures ReadRow(binary, position, kind, r)
    ensures TableRows(rows, kind) && i < |rows| ==>
              Loaded(binary, position, RowsFrom(rows, i), rows[i], RowsFrom(rows, i + 1), r)
  {
    ghost var here := TableRows(rows, kind) && i < |rows|;
    r := LoadRow(kind, binary, position, if here then rows[i] else SomeRow(kind),
                 if here then RowsFrom(rows, i + 1) else End);
  }

  lemma MoreRows(rows: seq<Row>, row: Row, kind: TableKind)
    requires TableRows(rows, kind) && Belongs(row, kind) && RowOk(row)
    ensures TableRows(rows + [row], kind)
  {
  }

  /** The first rows were read. */
  ghost predicate RowsRead(binary: seq<Byte>, rows: seq<Row>, loaded: seq<Row>, next: nat) {
    |loaded| <= |rows| && loaded == rows[..|loaded|] && Here(binary, next, RowsFrom(rows, |loaded|))
  }

  lemma RowsReadOn(binary: seq<Byte>, rows: seq<Row>, loaded: seq<Row>, kind: TableKind, next: nat)
    requires TableRows(rows, kind) && RowsRead(binary, rows, loaded, next)
    ensures if next < |binary| then |loaded| < |rows| else loaded == rows
  {
    if |loaded| < |rows| {
      RowHasBytes(rows[|loaded|], RowsFrom(rows, |loaded| + 1));
    } else {
      assert rows[..|rows|] == rows;
    }
  }

  /** Reads all the rows of a table. */
  method LoadTable(kind: TableKind, binary: seq<Byte>, ghost rows: seq<Row>) returns (r: Result<seq<Row>, Error>)
    ensures r.Ok? ==> TableRows(r.value, kind) && Takes(RowsFrom(r.value, 0), |binary|)
    ensures TableRows(rows, kind) && Here(binary, 0, RowsFrom(rows, 0)) ==> r == Ok(rows)
  {
    ghost var expected := TableRows(rows, kind) && Here(binary, 0, RowsFrom(rows, 0));
    var loaded: seq<Row>, next := [], 0;
    while next < |binary|
      invariant next <= |binary| && TableRows(loaded, kind) && Takes(RowsFrom(loaded, 0), next)
      invariant expected ==> RowsRead(binary, rows, loaded, next)
    {
      if expected {
        RowsReadOn(binary, rows, loaded, kind, next);
        Grown(rows, |loaded|);
      }
      var x :- LoadNextRow(kind, binary, next, rows, |loaded|);
      RowsGrow(loaded, x.0, next, x.1 - next);
      MoreRows(loaded, x.0, kind);
      loaded, next := loaded + [x.0], x.1;
    }
    if expected {
      RowsReadOn(binary, rows, loaded, kind, next);
    }
    r := Ok(loaded);
  }
}
