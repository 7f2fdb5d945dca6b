/** Instantiations without arguments: which modules have them. */
module FilledModules {
  import opened Bytecodes
  import opened FileFormat
  import opened Abilities
  import opened TypeTrees
  import opened Uleb128
  import opened SignatureTokens
  import opened BinaryItems
  import opened BinaryInstructions
  import opened BinaryTables
  import opened ModuleLayout

  lemma {:induction false} AbilitiesFilled(sets: seq<AbilitySet>, i: nat, rest: Items)
    requires i <= |sets|
    ensures Filled(AbilitiesFrom(sets, i, rest)) <==> Filled(rest)
    decreases |sets| - i
  {
    if i < |sets| {
      AbilitiesFilled(sets, i + 1, rest);
    }
  }

  lemma {:induction false} ParametersFilled(ps: seq<StructTypeParameter>, i: nat, rest: Items)
    requires i <= |ps|
    ensures Filled(ParametersFrom(ps, i, rest)) <==> Filled(rest)
    decreases |ps| - i
  {
    if i < |ps| {
      ParametersFilled(ps, i + 1, rest);
    }
  }

  lemma {:induction false} IndicesFilled(indices: seq<nat>, i: nat, rest: Items)
    requires i <= |indices|
    ensures Filled(IndicesFrom(indices, i, rest)) <==> Filled(rest)
    decreases |indices| - i
  {
    if i < |indices| {
      IndicesFilled(indices, i + 1, rest);
    }
  }

  lemma OperandsFilled(operands: Operands, rest: Items)
    ensures Filled(OperandItems(operands, rest)) <==> Filled(rest)
  {
    match operands
    case IndexAndCount(index, count) =>
      var counted := Word(count, 8, rest);
      assert Filled(counted) <==> Filled(rest);
    case _ =>
  }

  lemma {:induction false} CodeFilled(code: seq<Bytecode>, i: nat, rest: Items)
    requires i <= |code|
    ensures Filled(CodeFrom(code, i, rest)) <==> Filled(rest)
    decreases |code| - i
  {
    if i < |code| {
      CodeFilled(code, i + 1, rest);
      OperandsFilled(OperandsOf(code[i]), CodeFrom(code, i + 1, rest));
    }
  }

  lemma {:induction false} TypesFilled(ts: Signature, i: nat, rest: Items)
    requires i <= |ts|
    ensures Filled(TypesFrom(ts, i, rest)) <==> NoneEmpty(ts[i..]) && Filled(rest)
    decreases |ts| - i
  {
    if i < |ts| {
      TypesFilled(ts, i + 1, rest);
      assert ts[i..] == [ts[i]] + ts[i + 1..];
      NoneEmptyCons(ts[i], ts[i + 1..]);
    }
  }

  lemma NoneEmptyCons(t: SignatureToken, ts: seq<SignatureToken>)
    ensures NoneEmpty([t] + ts) <==> NoEmptyInstantiation(t) && NoneEmpty(ts)
  {
    var all := [t] + ts;
    if NoneEmpty(all) {
      assert NoEmptyInstantiation(all[0]);
      forall i | 0 <= i < |ts| ensures NoEmptyInstantiation(ts[i]) {
        assert NoEmptyInstantiation(all[i + 1]);
      }
    }
  }

  lemma {:induction false} FieldsFilled(fs: seq<FieldDefinition>, i: nat, rest: Items)
    requires i <= |fs|
    ensures Filled(FieldsFrom(fs, i, rest)) <==> (forall j | i <= j < |fs| :: FilledField(fs[j])) && Filled(rest)
    decreases |fs| - i
  {
    if i < |fs| {
      FieldsFilled(fs, i + 1, rest);
    }
  }

  lemma HandleFilled(row: Row, rest: Items)
    requires row.StructHandleRow? || row.FunctionHandleRow?
    ensures Filled(RowItems(row, rest)) <==> Filled(rest)
  {
    match row
    case StructHandleRow(h) =>
      ParametersFilled(h.typeParameters, 0, rest);
      var parameters := ParametersItems(h.typeParameters, rest);
      var abilities := AbilityItems(h.abilities, parameters);
      assert Filled(Num(h.name, TABLE_INDEX_MAX, abilities)) == Filled(abilities) == Filled(parameters);
    case FunctionHandleRow(h) =>
      AbilitiesFilled(h.typeParameters, 0, rest);
      var abilities := AbilitiesItems(h.typeParameters, rest);
      var return_ := Num(h.return_, TABLE_INDEX_MAX, abilities);
      var parameters := Num(h.parameters, TABLE_INDEX_MAX, return_);
      assert Filled(Num(h.name, TABLE_INDEX_MAX, parameters)) == Filled(return_) == Filled(abilities);
  }

  lemma FunctionFilled(d: FunctionDefinition, rest: Items)
    ensures Filled(FunctionDefItems(d, rest)) <==> Filled(rest)
  {
    var body := BodyItems(d.code, rest);
    if d.code.Some? {
      var code := d.code.value.code;
      CodeFilled(code, 0, rest);
      assert Filled(Num(|code|, BYTECODE_COUNT_MAX, CodeFrom(code, 0, rest))) <==> Filled(rest);
    }
    IndicesFilled(d.acquires, 0, body);
    var acquires := IndicesItems(d.acquires, body);
    var flag := Word(NativeFlag(d.code), 1, acquires);
    assert Filled(Word(VisibilityCode(d.visibility), 1, flag)) == Filled(flag) == Filled(acquires);
  }

  lemma DefinitionFilled(d: StructDefinition, rest: Items)
    ensures Filled(StructDefItems(d, rest)) <==> FilledRow(StructDefRow(d)) && Filled(rest)
  {
    var info := FieldInformationItems(d.fieldInformation, rest);
    if d.fieldInformation.Declared? {
      var fields := d.fieldInformation.fields;
      FieldsFilled(fields, 0, rest);
      assert Filled(info) == Filled(FieldsItems(fields, rest)) == Filled(FieldsFrom(fields, 0, rest));
    }
  }

  lemma RowFilled(row: Row, rest: Items)
    ensures Filled(RowItems(row, rest)) <==> FilledRow(row) && Filled(rest)
  {
    match row
    case StructHandleRow(_) => HandleFilled(row, rest);
    case FunctionHandleRow(_) => HandleFilled(row, rest);
    case SignatureRow(s) =>
      assert s[0..] == s;
      TypesFilled(s, 0, rest);
    case FunctionDefRow(d) => FunctionFilled(d, rest);
    case StructDefRow(d) => DefinitionFilled(d, rest);
    case ConstantRow(c) =>
      var data := Blob(DataBytes(c.data), rest);
      assert Filled(Num(|c.data|, CONSTANT_SIZE_MAX, data)) == Filled(data) == Filled(rest);
    case IdentifierRow(name) =>
      var bytes := Blob(NameBytes(name), rest);
      assert Filled(bytes) <==> Filled(rest);
    case AddressRow(_) =>
    case ModuleRow(h) => PairFilled(h.address, h.name, TABLE_INDEX_MAX, rest);
    case FunctionInstRow(x) => PairFilled(x.handle, x.typeParameters, TABLE_INDEX_MAX, rest);
    case StructDefInstRow(x) => PairFilled(x.def, x.typeParameters, TABLE_INDEX_MAX, rest);
    case FieldHandleRow(x) => PairFilled(x.owner, x.field, FIELD_OFFSET_MAX, rest);
    case FieldInstRow(x) => PairFilled(x.handle, x.typeParameters, TABLE_INDEX_MAX, rest);
  }

  lemma PairFilled(a: nat, b: nat, max: U64, rest: Items)
    ensures Filled(PairItems(a, b, max, rest)) <==> Filled(rest)
  {
    var second := Num(b, max, rest);
    assert Filled(second) <==> Filled(rest);
  }

  lemma {:induction false} RowsFilled(rows: seq<Row>, i: nat)
    requires i <= |rows|
    ensures Filled(RowsFrom(rows, i)) <==> forall j | i <= j < |rows| :: FilledRow(rows[j])
    decreases |rows| - i
  {
    if i < |rows| {
      RowsFilled(rows, i + 1);
      RowFilled(rows[i], RowsFrom(rows, i + 1));
    }
  }

  /** Of the modules that are written, the format can carry those in which every instantiation has arguments. */
  lemma RegularModuleIff(m: CompiledModule)
    requires Serializable(m) && SizedModule(m)
    ensures RegularModule(m) <==> FilledModule(m)
  {
    forall kind ensures Regular(TableItems(m, kind)) <==> FilledTable(m, kind) {
      RegularIff(TableItems(m, kind));
      RowsFilled(Rows(m, kind), 0);
    }
  }
}
