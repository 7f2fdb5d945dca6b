/**
 The tables that types and handles refer to, in modules and in scripts alike. The bounds check comes before everything
 here; an index that it would have refused stands for a default.
 */
module Tables {
  import opened FileFormat

  datatype Tables = Tables(
    moduleHandles: seq<ModuleHandle>,
    structHandles: seq<StructHandle>,
    functionHandles: seq<FunctionHandle>,
    signatures: seq<Signature>,
    identifiers: seq<Identifier>,
    addressIdentifiers: seq<AccountAddress>)

  function ModuleTables(m: CompiledModule): Tables {
    Tables(m.moduleHandles, m.structHandles, m.functionHandles, m.signatures, m.identifiers, m.addressIdentifiers)
  }

  function ScriptTables(s: CompiledScript): Tables {
    Tables(s.moduleHandles, s.structHandles, s.functionHandles, s.signatures, s.identifiers, s.addressIdentifiers)
  }

  function Get<T>(s: seq<T>, i: nat, default: T): T {
    if i < |s| then s[i] else default
  }

  /** The module that a handle names. */
  function ModuleAt(tables: Tables, handle: nat): ModuleId {
    var h := Get(tables.moduleHandles, handle, ModuleHandle(0, 0));
    ModuleId(Get(tables.addressIdentifiers, h.address, []), Get(tables.identifiers, h.name, ""))
  }

  function StructHandleAt(tables: Tables, handle: nat): StructHandle {
    Get(tables.structHandles, handle, StructHandle(0, 0, 0, []))
  }

  function FunctionHandleAt(tables: Tables, handle: nat): FunctionHandle {
    Get(tables.functionHandles, handle, FunctionHandle(0, 0, 0, 0, []))
  }

  function StructName(tables: Tables, handle: nat): Identifier {
    Get(tables.identifiers, StructHandleAt(tables, handle).name, "")
  }

  function FunctionName(tables: Tables, handle: nat): Identifier {
    Get(tables.identifiers, FunctionHandleAt(tables, handle).name, "")
  }

  function SignatureAt(tables: Tables, i: nat): Signature {
    Get(tables.signatures, i, [])
  }
}

/** Modules without indexes into tables, which makes different modules comparable. */
module Normalized {
  import opened Abilities
  import opened FileFormat
  import opened Tables

  datatype Type =
    | BoolType
    | U8Type
    | U64Type
    | U128Type
    | AddressType
    | SignerType
    | StructType(mod: ModuleId, name: Identifier, typeArguments: seq<Type>)
    | VectorType(elem: Type)
    | ParameterType(index: nat)
    | ReferenceType(inner: Type)
    | MutableReferenceType(inner: Type)

  datatype NormalField = NormalField(name: Identifier, type_: Type)

  datatype NormalStruct = NormalStruct(
    abilities: AbilitySet, typeParameters: seq<StructTypeParameter>, fields: seq<NormalField>)

  datatype NormalFunction = NormalFunction(
    visibility: Visibility, typeParameters: seq<AbilitySet>, parameters: seq<Type>, return_: seq<Type>)

  datatype NormalModule = NormalModule(
    id: ModuleId,
    friends: seq<ModuleId>,
    structs: map<Identifier, NormalStruct>,
    exposedFunctions: map<Identifier, NormalFunction>)

  // ---------------------------------------------------------------------------------------------
  // Types
  // ---------------------------------------------------------------------------------------------

  function TypeOf(tables: Tables, t: SignatureToken): Type {
    match t
    case Struct(h) => StructType(ModuleAt(tables, StructHandleAt(tables, h).mod), StructName(tables, h), [])
    case StructInstantiation(h, args) =>
      StructType(ModuleAt(tables, StructHandleAt(tables, h).mod), StructName(tables, h), TypesOf(tables, args))
    case Bool => BoolType
    case U8 => U8Type
    case U64 => U64Type
    case U128 => U128Type
    case Address => AddressType
    case Signer => SignerType
    case Vector(elem) => VectorType(TypeOf(tables, elem))
    case TypeParameter(i) => ParameterType(i)
    case Reference(inner) => ReferenceType(TypeOf(tables, inner))
    case MutableReference(inner) => MutableReferenceType(TypeOf(tables, inner))
  }

  function TypesOf(tables: Tables, ts: seq<SignatureToken>): (r: seq<Type>)
    ensures |r| == |ts| && forall i | 0 <= i < |ts| :: r[i] == TypeOf(tables, ts[i])
  {
    if ts == [] then [] else [TypeOf(tables, ts[0])] + TypesOf(tables, ts[1..])
  }

  /** Every instantiation has arguments. */
  predicate TokenOk(t: SignatureToken) {
    match t
    case Vector(elem) => TokenOk(elem)
    case Reference(inner) => TokenOk(inner)
    case MutableReference(inner) => TokenOk(inner)
    case StructInstantiation(_, args) => args != [] && TokensOk(args)
    case _ => true
  }

  predicate TokensOk(ts: seq<SignatureToken>) {
    forall i | 0 <= i < |ts| :: TokenOk(ts[i])
  }

  /** The types of all functions are in order. */
  predicate SignaturesOk(tables: Tables) {
    forall i | 0 <= i < |tables.signatures| :: TokensOk(tables.signatures[i])
  }

  // ---------------------------------------------------------------------------------------------
  // Definitions
  // ---------------------------------------------------------------------------------------------

  function DefinedStruct(m: CompiledModule, i: nat): Identifier
    requires i < |m.structDefs|
  {
    StructName(ModuleTables(m), m.structDefs[i].structHandle)
  }

  function DefinedFunction(m: CompiledModule, i: nat): Identifier
    requires i < |m.functionDefs|
  {
    FunctionName(ModuleTables(m), m.functionDefs[i].function_)
  }

  /** What the duplication check promises: no name is defined twice. */
  predicate NamesUnique(m: CompiledModule) {
    && (forall i, j | 0 <= i < j < |m.structDefs| :: DefinedStruct(m, i) != DefinedStruct(m, j))
    && forall i, j | 0 <= i < j < |m.functionDefs| :: DefinedFunction(m, i) != DefinedFunction(m, j)
  }

  function FieldsOf(m: CompiledModule, info: StructFieldInformation): seq<NormalField> {
    match info
    case Native => []
    case Declared(fields) =>
      seq(|fields|, i requires 0 <= i < |fields| =>
        NormalField(Get(m.identifiers, fields[i].name, ""), TypeOf(ModuleTables(m), fields[i].signature)))
  }

  function StructOf(m: CompiledModule, def: StructDefinition): NormalStruct {
    var handle := StructHandleAt(ModuleTables(m), def.structHandle);
    NormalStruct(handle.abilities, handle.typeParameters, FieldsOf(m, def.fieldInformation))
  }

  function FunctionOf(m: CompiledModule, def: FunctionDefinition): NormalFunction {
    var tables := ModuleTables(m);
    var handle := FunctionHandleAt(tables, def.function_);
    NormalFunction(
      def.visibility, handle.typeParameters,
      TypesOf(tables, SignatureAt(tables, handle.parameters)), TypesOf(tables, SignatureAt(tables, handle.return_)))
  }

  function FriendsOf(m: CompiledModule): seq<ModuleId> {
    seq(|m.friendDecls|, i requires 0 <= i < |m.friendDecls| =>
      ModuleId(Get(m.addressIdentifiers, m.friendDecls[i].address, []), Get(m.identifiers, m.friendDecls[i].name, "")))
  }

  function OwnId(m: CompiledModule): ModuleId {
    ModuleAt(ModuleTables(m), m.selfHandle)
  }

  // ---------------------------------------------------------------------------------------------
  // Normalizing
  // ---------------------------------------------------------------------------------------------

  /** The first `k` structs by name. */
  function StructsOf(m: CompiledModule, k: nat): map<Identifier, NormalStruct>
    requires k <= |m.structDefs|
  {
    if k == 0 then map[] else StructsOf(m, k - 1)[DefinedStruct(m, k - 1) := StructOf(m, m.structDefs[k - 1])]
  }

  /** The first `k` functions by name, but not the private ones. */
  function ExposedFunctionsOf(m: CompiledModule, k: nat): map<Identifier, NormalFunction>
    requires k <= |m.functionDefs|
  {
    if k == 0 then map[]
    else if m.functionDefs[k - 1].visibility == Private then ExposedFunctionsOf(m, k - 1)
    else ExposedFunctionsOf(m, k - 1)[DefinedFunction(m, k - 1) := FunctionOf(m, m.functionDefs[k - 1])]
  }

  function Normalize(m: CompiledModule): NormalModule {
    NormalModule(
      OwnId(m), FriendsOf(m), StructsOf(m, |m.structDefs|), ExposedFunctionsOf(m, |m.functionDefs|))
  }

  /** A struct that the module defines is found by its name. */
  lemma {:induction false} StructFound(m: CompiledModule, k: nat, i: nat)
    requires NamesUnique(m) && i < k <= |m.structDefs|
    ensures DefinedStruct(m, i) in StructsOf(m, k)
    ensures StructsOf(m, k)[DefinedStruct(m, i)] == StructOf(m, m.structDefs[i])
    decreases k
  {
    if i < k - 1 {
      StructFound(m, k - 1, i);
    }
  }

  /** A struct that is found is defined. */
  lemma {:induction false} StructDefined(m: CompiledModule, k: nat, name: Identifier) returns (i: nat)
    requires k <= |m.structDefs| && name in StructsOf(m, k)
    ensures i < k && DefinedStruct(m, i) == name
    decreases k
  {
    if name == DefinedStruct(m, k - 1) {
      i := k - 1;
    } else {
      i := StructDefined(m, k - 1, name);
    }
  }

  /** A function that is not private is found by its name. */
  lemma {:induction false} FunctionFound(m: CompiledModule, k: nat, i: nat)
    requires NamesUnique(m) && i < k <= |m.functionDefs| && m.functionDefs[i].visibility != Private
    ensures DefinedFunction(m, i) in ExposedFunctionsOf(m, k)
    ensures ExposedFunctionsOf(m, k)[DefinedFunction(m, i)] == FunctionOf(m, m.functionDefs[i])
    decreases k
  {
    if i < k - 1 {
      FunctionFound(m, k - 1, i);
    }
  }

  /** A function that is found is defined, and is not private. */
  lemma {:induction false} FunctionDefined(m: CompiledModule, k: nat, name: Identifier) returns (i: nat)
    requires k <= |m.functionDefs| && name in ExposedFunctionsOf(m, k)
    ensures i < k && m.functionDefs[i].visibility != Private && DefinedFunction(m, i) == name
    decreases k
  {
    if m.functionDefs[k - 1].visibility != Private && name == DefinedFunction(m, k - 1) {
      i := k - 1;
    } else {
      i := FunctionDefined(m, k - 1, name);
    }
  }
}
