/** The binary form of modules: the rows of the tables, and where the tables are. */
module BinaryTables {
  import opened Wrappers
  import opened Abilities
  import opened Bytecodes
  import opened FileFormat
  import opened TypeTrees
  import opened Uleb128
  import opened SignatureTokens
  import opened BinaryItems
  import opened BinaryInstructions

  const IDENTIFIER_SIZE_MAX := 65535
  const CONSTANT_SIZE_MAX := 65535
  const BYTECODE_COUNT_MAX := 65535
  const ACQUIRES_COUNT_MAX := 255
  const FIELD_COUNT_MAX := 255
  const FIELD_OFFSET_MAX := 255
  const ABILITIES_MAX := 0xF
  const TABLE_COUNT_MAX := 255
  const U32_MAX := 0xFFFF_FFFF
  const VERSION_MAX := 5
  const ADDRESS_LENGTH := 16

  const NATIVE_STRUCT := 0x1
  const DECLARED_STRUCT := 0x2
  const NATIVE_FUNCTION := 0x2

  // ---------------------------------------------------------------------------------------------
  // Parts of rows
  // ---------------------------------------------------------------------------------------------

  function AbilityItems(set_: AbilitySet, rest: Items): Items {
    Num(IntoU8(set_), ABILITIES_MAX, rest)
  }

  function AbilitiesFrom(sets: seq<AbilitySet>, i: nat, rest: Items): Items
    requires i <= |sets|
    decreases |sets| - i
  {
    if i == |sets| then rest else AbilityItems(sets[i], AbilitiesFrom(sets, i + 1, rest))
  }

  function AbilitiesItems(sets: seq<AbilitySet>, rest: Items): Items {
    Num(|sets|, TYPE_PARAMETER_COUNT_MAX, AbilitiesFrom(sets, 0, rest))
  }

  function ParameterItems(p: StructTypeParameter, rest: Items): Items {
    AbilityItems(p.constraints, Num(if p.isPhantom then 1 else 0, 1, rest))
  }

  function ParametersFrom(ps: seq<StructTypeParameter>, i: nat, rest: Items): Items
    requires i <= |ps|
    decreases |ps| - i
  {
    if i == |ps| then rest else ParameterItems(ps[i], ParametersFrom(ps, i + 1, rest))
  }

  function ParametersItems(ps: seq<StructTypeParameter>, rest: Items): Items {
    Num(|ps|, TYPE_PARAMETER_COUNT_MAX, ParametersFrom(ps, 0, rest))
  }

  function TypesFrom(ts: Signature, i: nat, rest: Items): Items
    requires i <= |ts|
    decreases |ts| - i
  {
    if i == |ts| then rest else Type(ts[i], TypesFrom(ts, i + 1, rest))
  }

  function TypesItems(ts: Signature, rest: Items): Items {
    Num(|ts|, SIGNATURE_SIZE_MAX, TypesFrom(ts, 0, rest))
  }

  function FieldItems(f: FieldDefinition, rest: Items): Items {
    Num(f.name, TABLE_INDEX_MAX, Type(f.signature, rest))
  }

  function FieldsFrom(fs: seq<FieldDefinition>, i: nat, rest: Items): Items
    requires i <= |fs|
    decreases |fs| - i
  {
    if i == |fs| then rest else FieldItems(fs[i], FieldsFrom(fs, i + 1, rest))
  }

  function FieldsItems(fs: seq<FieldDefinition>, rest: Items): Items {
    Num(|fs|, FIELD_COUNT_MAX, FieldsFrom(fs, 0, rest))
  }

  function IndicesFrom(indices: seq<nat>, i: nat, rest: Items): Items
    requires i <= |indices|
    decreases |indices| - i
  {
    if i == |indices| then rest else Num(indices[i], TABLE_INDEX_MAX, IndicesFrom(indices, i + 1, rest))
  }

  function IndicesItems(indices: seq<nat>, rest: Items): Items {
    Num(|indices|, ACQUIRES_COUNT_MAX, IndicesFrom(indices, 0, rest))
  }

  function CodeFrom(code: seq<Bytecode>, i: nat, rest: Items): Items
    requires i <= |code|
    decreases |code| - i
  {
    if i == |code| then rest else InstructionItems(code[i], CodeFrom(code, i + 1, rest))
  }

  function CodeItems(code: CodeUnit, rest: Items): Items {
    Num(code.locals, TABLE_INDEX_MAX, Num(|code.code|, BYTECODE_COUNT_MAX, CodeFrom(code.code, 0, rest)))
  }

  function VisibilityCode(v: Visibility): nat {
    match v
    case Private => 0
    case Public => 1
    case Script => 2
    case Friend => 3
  }

  function VisibilityOf(code: nat): Option<Visibility> {
    match code
    case 0 => Some(Private)
    case 1 => Some(Public)
    case 2 => Some(Script)
    case 3 => Some(Friend)
    case _ => None
  }

  /** Plain data as bytes. */
  function DataBytes(data: seq<nat>): seq<Byte> {
    seq(|data|, i requires 0 <= i < |data| => data[i] % 0x100)
  }

  predicate IsData(data: seq<nat>) {
    forall i | 0 <= i < |data| :: data[i] < 0x100
  }

  function NameBytes(name: Identifier): seq<Byte> {
    seq(|name|, i requires 0 <= i < |name| => name[i] as nat % 0x100)
  }

  predicate NameByte(b: nat) {
    b == '_' as nat || 'a' as nat <= b <= 'z' as nat || 'A' as nat <= b <= 'Z' as nat || '0' as nat <= b <= '9' as nat
  }

  predicate LetterByte(b: nat) {
    'a' as nat <= b <= 'z' as nat || 'A' as nat <= b <= 'Z' as nat
  }

  const SELF_NAME: seq<nat> := ['<' as nat, 'S' as nat, 'E' as nat, 'L' as nat, 'F' as nat, '>' as nat]

  /**
   The bytes that make up an identifier: a letter or an underscore that is not alone, then letters, digits and
   underscores.
   */
  predicate IsName(bytes: seq<nat>) {
    || bytes == SELF_NAME
    || (&& bytes != [] && (LetterByte(bytes[0]) || (bytes[0] == '_' as nat && |bytes| > 1))
        && forall i | 1 <= i < |bytes| :: NameByte(bytes[i]))
  }

  function NameOf(bytes: seq<Byte>): Identifier {
    seq(|bytes|, i requires 0 <= i < |bytes| => bytes[i] as char)
  }

  predicate ValidIdentifier(name: Identifier) {
    (forall i | 0 <= i < |name| :: name[i] as nat < 0x80) && IsName(NameBytes(name))
  }

  // ---------------------------------------------------------------------------------------------
  // Rows
  // ---------------------------------------------------------------------------------------------

  datatype TableKind =
    | ModuleHandles
    | StructHandles
    | FunctionHandles
    | FunctionInst
    | Signatures
    | ConstantPool
    | Identifiers
    | AddressIdentifiers
    | StructDefs
    | StructDefInst
    | FunctionDefs
    | FieldHandles
    | FieldInst
    | FriendDecls

  function KindCode(kind: TableKind): nat {
    match kind
    case ModuleHandles => 0x1
    case StructHandles => 0x2
    case FunctionHandles => 0x3
    case FunctionInst => 0x4
    case Signatures => 0x5
    case ConstantPool => 0x6
    case Identifiers => 0x7
    case AddressIdentifiers => 0x8
    case StructDefs => 0xA
    case StructDefInst => 0xB
    case FunctionDefs => 0xC
    case FieldHandles => 0xD
    case FieldInst => 0xE
    case FriendDecls => 0xF
  }

  function KindOf(code: nat): Option<TableKind> {
    match code
    case 0x1 => Some(ModuleHandles)
    case 0x2 => Some(StructHandles)
    case 0x3 => Some(FunctionHandles)
    case 0x4 => Some(FunctionInst)
    case 0x5 => Some(Signatures)
    case 0x6 => Some(ConstantPool)
    case 0x7 => Some(Identifiers)
    case 0x8 => Some(AddressIdentifiers)
    case 0xA => Some(StructDefs)
    case 0xB => Some(StructDefInst)
    case 0xC => Some(FunctionDefs)
    case 0xD => Some(FieldHandles)
    case 0xE => Some(FieldInst)
    case 0xF => Some(FriendDecls)
    case _ => None
  }

  /** A row of some table. */
  datatype Row =
    | ModuleRow(moduleHandle: ModuleHandle)
    | StructHandleRow(structHandle: StructHandle)
    | FunctionHandleRow(functionHandle: FunctionHandle)
    | FunctionInstRow(functionInst: FunctionInstantiation)
    | SignatureRow(signature: Signature)
    | ConstantRow(constant: Constant)
    | IdentifierRow(identifier: Identifier)
    | AddressRow(address: AccountAddress)
    | StructDefRow(structDef: StructDefinition)
    | StructDefInstRow(structDefInst: StructDefInstantiation)
    | FunctionDefRow(functionDef: FunctionDefinition)
    | FieldHandleRow(fieldHandle: FieldHandle)
    | FieldInstRow(fieldInst: FieldInstantiation)

  /** The row belongs into tables of the kind. */
  predicate Belongs(row: Row, kind: TableKind) {
    match kind
    case ModuleHandles | FriendDecls => row.ModuleRow?
    case StructHandles => row.StructHandleRow?
    case FunctionHandles => row.FunctionHandleRow?
    case FunctionInst => row.FunctionInstRow?
    case Signatures => row.SignatureRow?
    case ConstantPool => row.ConstantRow?
    case Identifiers => row.IdentifierRow?
    case AddressIdentifiers => row.AddressRow?
    case StructDefs => row.StructDefRow?
    case StructDefInst => row.StructDefInstRow?
    case FunctionDefs => row.FunctionDefRow?
    case FieldHandles => row.FieldHandleRow?
    case FieldInst => row.FieldInstRow?
  }

  function StructHandleItems(h: StructHandle, rest: Items): Items {
    Num(h.mod, TABLE_INDEX_MAX, Num(h.name, TABLE_INDEX_MAX,
      AbilityItems(h.abilities, ParametersItems(h.typeParameters, rest))))
  }

  function FunctionHandleItems(h: FunctionHandle, rest: Items): Items {
    Num(h.mod, TABLE_INDEX_MAX, Num(h.name, TABLE_INDEX_MAX, Num(h.parameters, TABLE_INDEX_MAX,
      Num(h.return_, TABLE_INDEX_MAX, AbilitiesItems(h.typeParameters, rest)))))
  }

  function ConstantItems(c: Constant, rest: Items): Items {
    Type(c.type_, Num(|c.data|, CONSTANT_SIZE_MAX, Blob(DataBytes(c.data), rest)))
  }

  function IdentifierItems(name: Identifier, rest: Items): Items {
    Num(|name|, IDENTIFIER_SIZE_MAX, Blob(NameBytes(name), rest))
  }

  function FieldInformationItems(info: StructFieldInformation, rest: Items): Items {
    match info
    case Native => Word(NATIVE_STRUCT, 1, rest)
    case Declared(fields) => Word(DECLARED_STRUCT, 1, FieldsItems(fields, rest))
  }

  function StructDefItems(d: StructDefinition, rest: Items): Items {
    Num(d.structHandle, TABLE_INDEX_MAX, FieldInformationItems(d.fieldInformation, rest))
  }

  function NativeFlag(code: Option<CodeUnit>): nat {
    if code.None? then NATIVE_FUNCTION else 0
  }

  function BodyItems(code: Option<CodeUnit>, rest: Items): Items {
    if code.None? then rest else CodeItems(code.value, rest)
  }

  function FunctionDefItems(d: FunctionDefinition, rest: Items): Items {
    Num(d.function_, TABLE_INDEX_MAX, Word(VisibilityCode(d.visibility), 1, Word(NativeFlag(d.code), 1,
      IndicesItems(d.acquires, BodyItems(d.code, rest)))))
  }

  function PairItems(a: nat, b: nat, max: U64, rest: Items): Items {
    Num(a, TABLE_INDEX_MAX, Num(b, max, rest))
  }

  function RowItems(row: Row, rest: Items): Items {
    match row
    case ModuleRow(h) => PairItems(h.address, h.name, TABLE_INDEX_MAX, rest)
    case StructHandleRow(h) => StructHandleItems(h, rest)
    case FunctionHandleRow(h) => FunctionHandleItems(h, rest)
    case FunctionInstRow(i) => PairItems(i.handle, i.typeParameters, TABLE_INDEX_MAX, rest)
    case SignatureRow(s) => TypesItems(s, rest)
    case ConstantRow(c) => ConstantItems(c, rest)
    case IdentifierRow(name) => IdentifierItems(name, rest)
    case AddressRow(a) => Blob(DataBytes(a), rest)
    case StructDefRow(d) => StructDefItems(d, rest)
    case StructDefInstRow(i) => PairItems(i.def, i.typeParameters, TABLE_INDEX_MAX, rest)
    case FunctionDefRow(d) => FunctionDefItems(d, rest)
    case FieldHandleRow(h) => PairItems(h.owner, h.field, FIELD_OFFSET_MAX, rest)
    case FieldInstRow(i) => PairItems(i.handle, i.typeParameters, TABLE_INDEX_MAX, rest)
  }

  /** What the types of the rows promise about their contents. */
  predicate RowOk(row: Row) {
    match row
    case ConstantRow(c) => IsData(c.data)
    case IdentifierRow(name) => ValidIdentifier(name)
    case AddressRow(a) => |a| == ADDRESS_LENGTH && IsData(a)
    case _ => true
  }

  predicate FilledField(f: FieldDefinition) {
    NoEmptyInstantiation(f.signature)
  }

  /** Every instantiation in the row has arguments. */
  predicate FilledRow(row: Row) {
    match row
    case SignatureRow(s) => NoneEmpty(s)
    case ConstantRow(c) => NoEmptyInstantiation(c.type_)
    case StructDefRow(d) =>
      d.fieldInformation.Declared? ==>
        forall i | 0 <= i < |d.fieldInformation.fields| :: FilledField(d.fieldInformation.fields[i])
    case _ => true
  }

  /** Every row takes up space. */
  lemma RowHasBytes(row: Row, rest: Items)
    requires row.AddressRow? ==> |row.address| == ADDRESS_LENGTH
    ensures Bytes(RowItems(row, rest)) != []
  {
  }

  function RowsFrom(rows: seq<Row>, i: nat): Items
    requires i <= |rows|
    decreases |rows| - i
  {
    if i == |rows| then End else RowItems(rows[i], RowsFrom(rows, i + 1))
  }

  // ---------------------------------------------------------------------------------------------
  // Tables
  // ---------------------------------------------------------------------------------------------

  function Each<S, T>(xs: seq<S>, f: S --> T): (ys: seq<T>)
    requires forall i | 0 <= i < |xs| :: f.requires(xs[i])
    ensures |ys| == |xs| && forall i | 0 <= i < |xs| :: ys[i] == f(xs[i])
  {
    if xs == [] then [] else [f(xs[0])] + Each(xs[1..], f)
  }

  function Rows(m: CompiledModule, kind: TableKind): (rows: seq<Row>)
    ensures forall i | 0 <= i < |rows| :: Belongs(rows[i], kind)
  {
    match kind
    case ModuleHandles => Each(m.moduleHandles, x => ModuleRow(x))
    case StructHandles => Each(m.structHandles, x => StructHandleRow(x))
    case FunctionHandles => Each(m.functionHandles, x => FunctionHandleRow(x))
    case FunctionInst => Each(m.functionInstantiations, x => FunctionInstRow(x))
    case Signatures => Each(m.signatures, x => SignatureRow(x))
    case ConstantPool => Each(m.constantPool, x => ConstantRow(x))
    case Identifiers => Each(m.identifiers, x => IdentifierRow(x))
    case AddressIdentifiers => Each(m.addressIdentifiers, x => AddressRow(x))
    case StructDefs => Each(m.structDefs, x => StructDefRow(x))
    case StructDefInst => Each(m.structInstantiations, x => StructDefInstRow(x))
    case FunctionDefs => Each(m.functionDefs, x => FunctionDefRow(x))
    case FieldHandles => Each(m.fieldHandles, x => FieldHandleRow(x))
    case FieldInst => Each(m.fieldInstantiations, x => FieldInstRow(x))
    case FriendDecls => Each(m.friendDecls, x => ModuleRow(x))
  }

  /** The module with the rows of one table replaced. */
  function WithRows(m: CompiledModule, kind: TableKind, rows: seq<Row>): CompiledModule
    requires forall i | 0 <= i < |rows| :: Belongs(rows[i], kind)
  {
    match kind
    case ModuleHandles =>
      m.(moduleHandles := Each(rows, (row: Row) requires Belongs(row, ModuleHandles) => row.moduleHandle))
    case StructHandles =>
      m.(structHandles := Each(rows, (row: Row) requires Belongs(row, StructHandles) => row.structHandle))
    case FunctionHandles =>
      m.(functionHandles := Each(rows, (row: Row) requires Belongs(row, FunctionHandles) => row.functionHandle))
    case FunctionInst =>
      m.(functionInstantiations := Each(rows, (row: Row) requires Belongs(row, FunctionInst) => row.functionInst))
    case Signatures => m.(signatures := Each(rows, (row: Row) requires Belongs(row, Signatures) => row.signature))
    case ConstantPool => m.(constantPool := Each(rows, (row: Row) requires Belongs(row, ConstantPool) => row.constant))
    case Identifiers => m.(identifiers := Each(rows, (row: Row) requires Belongs(row, Identifiers) => row.identifier))
    case AddressIdentifiers =>
      m.(addressIdentifiers := Each(rows, (row: Row) requires Belongs(row, AddressIdentifiers) => row.address))
    case StructDefs => m.(structDefs := Each(rows, (row: Row) requires Belongs(row, StructDefs) => row.structDef))
    case StructDefInst =>
      m.(structInstantiations := Each(rows, (row: Row) requires Belongs(row, StructDefInst) => row.structDefInst))
    case FunctionDefs =>
      m.(functionDefs := Each(rows, (row: Row) requires Belongs(row, FunctionDefs) => row.functionDef))
    case FieldHandles =>
      m.(fieldHandles := Each(rows, (row: Row) requires Belongs(row, FieldHandles) => row.fieldHandle))
    case FieldInst =>
      m.(fieldInstantiations := Each(rows, (row: Row) requires Belongs(row, FieldInst) => row.fieldInst))
    case FriendDecls => m.(friendDecls := Each(rows, (row: Row) requires Belongs(row, FriendDecls) => row.moduleHandle))
  }
}
