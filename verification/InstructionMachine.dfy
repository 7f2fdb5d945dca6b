/**
 The machine once more, instruction by instruction and straight from the tables of the module: what an instruction
 demands of its operands, and what it gives.
 */
module InstructionMachine {
  import opened Bytecodes
  import opened FileFormat
  import opened Tables
  import TypeAbilities
  import opened TypeRules
  import opened TypedMachine

  // ---------------------------------------------------------------------------------------------
  // Tables
  // ---------------------------------------------------------------------------------------------

  /** The instruction names a struct that the module defines, without type arguments. */
  predicate UsesPlain(instr: Bytecode) {
    match instr
    case Pack(_) | Unpack(_) | MutBorrowGlobal(_) | ImmBorrowGlobal(_) | Exists(_) | MoveFrom(_) | MoveTo(_) => true
    case _ => false
  }

  /** Or with type arguments. */
  predicate UsesGeneric(instr: Bytecode) {
    match instr
    case PackGeneric(_) | UnpackGeneric(_) | MutBorrowGlobalGeneric(_) | ImmBorrowGlobalGeneric(_) => true
    case ExistsGeneric(_) | MoveFromGeneric(_) | MoveToGeneric(_) => true
    case _ => false
  }

  predicate UsesStruct(instr: Bytecode) {
    UsesPlain(instr) || UsesGeneric(instr)
  }

  function UsedInst(m: CompiledModule, instr: Bytecode): StructDefInstantiation
    requires UsesGeneric(instr)
  {
    Get(m.structInstantiations, instr.defInst, StructDefInstantiation(0, 0))
  }

  /** The number of the definition that the instruction names, and the type arguments. */
  function UsedDefinition(m: CompiledModule, instr: Bytecode): nat
    requires UsesStruct(instr)
  {
    if UsesPlain(instr) then instr.def else UsedInst(m, instr).def
  }

  function UsedArguments(m: CompiledModule, instr: Bytecode): Signature
    requires UsesStruct(instr)
  {
    if UsesPlain(instr) then [] else Get(m.signatures, UsedInst(m, instr).typeParameters, [])
  }

  function DefinitionOf(m: CompiledModule, d: nat): StructDefinition {
    Get(m.structDefs, d, StructDefinition(0, Native))
  }

  function TypeOfStruct(m: CompiledModule, d: nat, args: Signature): SignatureToken {
    if args == [] then Struct(DefinitionOf(m, d).structHandle)
    else StructInstantiation(DefinitionOf(m, d).structHandle, args)
  }

  /** The type of the struct that the instruction names. */
  function UsedType(m: CompiledModule, instr: Bytecode): SignatureToken
    requires UsesStruct(instr)
  {
    TypeOfStruct(m, UsedDefinition(m, instr), UsedArguments(m, instr))
  }

  /** The field that an instruction borrows, and the type arguments of its struct. */
  predicate UsesField(instr: Bytecode) {
    instr.MutBorrowField? || instr.ImmBorrowField? || instr.MutBorrowFieldGeneric? || instr.ImmBorrowFieldGeneric?
  }

  predicate BorrowsMutably(instr: Bytecode) {
    instr.MutBorrowField? || instr.MutBorrowFieldGeneric?
  }

  function UsedField(m: CompiledModule, instr: Bytecode): FieldHandle
    requires UsesField(instr)
  {
    Get(m.fieldHandles,
        if instr.MutBorrowField? || instr.ImmBorrowField? then instr.field
        else Get(m.fieldInstantiations, instr.fieldInst, FieldInstantiation(0, 0)).handle,
        FieldHandle(0, 0))
  }

  function OwnerArguments(m: CompiledModule, instr: Bytecode): Signature
    requires UsesField(instr)
  {
    if instr.MutBorrowField? || instr.ImmBorrowField? then []
    else Get(m.signatures, Get(m.fieldInstantiations, instr.fieldInst, FieldInstantiation(0, 0)).typeParameters, [])
  }

  predicate IsCall(instr: Bytecode) {
    instr.Call? || instr.CallGeneric?
  }

  function Called(m: CompiledModule, instr: Bytecode): FunctionHandle
    requires IsCall(instr)
  {
    Get(m.functionHandles,
        if instr.Call? then instr.func
        else Get(m.functionInstantiations, instr.funcInst, FunctionInstantiation(0, 0)).handle,
        FunctionHandle(0, 0, 0, 0, []))
  }

  function CallArguments(m: CompiledModule, instr: Bytecode): Signature
    requires IsCall(instr)
  {
    if instr.Call? then []
    else
      Get(m.signatures, Get(m.functionInstantiations, instr.funcInst, FunctionInstantiation(0, 0)).typeParameters, [])
  }

  function Element(m: CompiledModule, i: nat): SignatureToken {
    Get(Get(m.signatures, i, []), 0, Bool)
  }

  /** Parameters and locals are numbered one after the other. */
  function Local(env: Env, i: nat): SignatureToken {
    Get(env.parameters + env.locals, i, Bool)
  }

  // ---------------------------------------------------------------------------------------------
  // Demands
  // ---------------------------------------------------------------------------------------------

  predicate IsNumber(v: Value) {
    v == Scalar(U8) || v == Scalar(U64) || v == Scalar(U128)
  }

  predicate PointsTo(v: Value, t: SignatureToken) {
    v == RefValue(true, t) || v == RefValue(false, t)
  }

  /** The values have the types, with the type arguments in them. */
  ghost predicate Instances(env: Env, vs: seq<Value>, ts: Signature, args: Signature) {
    |vs| == |ts| && forall i | 0 <= i < |vs| :: HasType(env, vs[i], TypeAbilities.Instantiate(ts[i], args))
  }

  ghost predicate FillFields(env: Env, vs: seq<Value>, info: StructFieldInformation, args: Signature) {
    && info.Declared? && |vs| == |info.fields|
    && forall i | 0 <= i < |vs| :: HasType(env, vs[i], TypeAbilities.Instantiate(info.fields[i].signature, args))
  }

  function CountFields(info: StructFieldInformation): nat {
    match info
    case Native => 0
    case Declared(fields) => |fields|
  }

  ghost predicate StructDemands(env: Env, instr: Bytecode, vs: seq<Value>)
    requires UsesStruct(instr)
  {
    var def, args := DefinitionOf(env.m, UsedDefinition(env.m, instr)), UsedArguments(env.m, instr);
    match instr
    case Pack(_) | PackGeneric(_) => FillFields(env, vs, def.fieldInformation, args)
    case Unpack(_) | UnpackGeneric(_) =>
      && |vs| == 1 && vs[0].StructValue? && vs[0].handle == def.structHandle && vs[0].typeArgs == args
      && |vs[0].fields| == CountFields(def.fieldInformation)
    case MoveTo(_) | MoveToGeneric(_) =>
      |vs| == 2 && vs[0] == RefValue(false, Signer) && HasType(env, vs[1], UsedType(env.m, instr))
    case _ => vs == [Scalar(Address)]
  }

  predicate FieldDemands(m: CompiledModule, instr: Bytecode, vs: seq<Value>)
    requires UsesField(instr)
  {
    var owner := UsedField(m, instr).owner;
    && |vs| == 1 && PointsTo(vs[0], TypeOfStruct(m, owner, OwnerArguments(m, instr)))
    && DefinitionOf(m, owner).fieldInformation.Declared? && (BorrowsMutably(instr) ==> vs[0].isMutable)
  }

  ghost predicate CallDemands(env: Env, instr: Bytecode, vs: seq<Value>)
    requires IsCall(instr)
  {
    Instances(env, vs, Get(env.m.signatures, Called(env.m, instr).parameters, []), CallArguments(env.m, instr))
  }

  ghost predicate VectorDemands(env: Env, instr: Bytecode, vs: seq<Value>)
    requires IsVector(instr)
  {
    var elem := Element(env.m, instr.sig);
    match instr
    case VecPack(_, count) => |vs| == count && forall k | 0 <= k < |vs| :: HasType(env, vs[k], elem)
    case VecLen(_) => |vs| == 1 && PointsTo(vs[0], Vector(elem))
    case VecImmBorrow(_) => |vs| == 2 && PointsTo(vs[0], Vector(elem)) && vs[1] == Scalar(U64)
    case VecMutBorrow(_) => vs == [RefValue(true, Vector(elem)), Scalar(U64)]
    case VecPushBack(_) => |vs| == 2 && vs[0] == RefValue(true, Vector(elem)) && HasType(env, vs[1], elem)
    case VecPopBack(_) => vs == [RefValue(true, Vector(elem))]
    case VecUnpack(_, _) => |vs| == 1 && HasType(env, vs[0], Vector(elem))
    case VecSwap(_) => vs == [RefValue(true, Vector(elem)), Scalar(U64), Scalar(U64)]
  }

  ghost predicate LocalDemands(env: Env, instr: Bytecode, vs: seq<Value>) {
    match instr
    case Pop => |vs| == 1
    case Ret => |vs| == |env.return_| && forall i | 0 <= i < |vs| :: HasType(env, vs[i], env.return_[i])
    case BrTrue(_) | BrFalse(_) => vs == [Scalar(Bool)]
    case Abort => vs == [Scalar(U64)]
    case StLoc(i) => |vs| == 1 && HasType(env, vs[0], Local(env, i))
    case ReadRef => |vs| == 1 && vs[0].RefValue?
    case WriteRef => |vs| == 2 && vs[1].RefValue? && vs[1].isMutable && HasType(env, vs[0], vs[1].target)
    case FreezeRef => |vs| == 1 && vs[0].RefValue? && vs[0].isMutable
    case _ => vs == []
  }

  /** Instructions on numbers and truth values. */
  ghost predicate PlainDemands(env: Env, instr: Bytecode, vs: seq<Value>) {
    match instr
    case CastU8 | CastU64 | CastU128 => |vs| == 1 && IsNumber(vs[0])
    case Add | Sub | Mul | Mod | Div | BitOr | BitAnd | Xor | Lt | Gt | Le | Ge =>
      |vs| == 2 && IsNumber(vs[0]) && vs[0] == vs[1]
    case Shl | Shr => |vs| == 2 && IsNumber(vs[0]) && vs[1] == Scalar(U8)
    case Or | And => vs == [Scalar(Bool), Scalar(Bool)]
    case Not => vs == [Scalar(Bool)]
    case Eq | Neq => |vs| == 2 && exists t :: HasType(env, vs[0], t) && HasType(env, vs[1], t)
    case _ => vs == []
  }

  /** What the instruction demands of its operands (the last on top). */
  ghost predicate Demands(env: Env, instr: Bytecode, vs: seq<Value>) {
    if UsesStruct(instr) then StructDemands(env, instr, vs)
    else if UsesField(instr) then FieldDemands(env.m, instr, vs)
    else if IsCall(instr) then CallDemands(env, instr, vs)
    else if IsVector(instr) then VectorDemands(env, instr, vs)
    else if IsLocalOrControl(instr) then LocalDemands(env, instr, vs)
    else PlainDemands(env, instr, vs)
  }

  // ---------------------------------------------------------------------------------------------
  // Results
  // ---------------------------------------------------------------------------------------------

  /** The type of the field that the instruction borrows, with the type arguments in it. */
  function UsedFieldType(m: CompiledModule, instr: Bytecode): SignatureToken
    requires UsesField(instr) && DefinitionOf(m, UsedField(m, instr).owner).fieldInformation.Declared?
  {
    var fields := DefinitionOf(m, UsedField(m, instr).owner).fieldInformation.fields;
    TypeAbilities.Instantiate(
      Get(fields, UsedField(m, instr).field, FieldDefinition(0, Bool)).signature, OwnerArguments(m, instr))
  }

  ghost predicate One(env: Env, rs: seq<Value>, t: SignatureToken) {
    |rs| == 1 && HasType(env, rs[0], t)
  }

  ghost predicate StructYields(env: Env, instr: Bytecode, vs: seq<Value>, rs: seq<Value>)
    requires UsesStruct(instr) && StructDemands(env, instr, vs)
  {
    var t := UsedType(env.m, instr);
    match instr
    case Pack(_) | PackGeneric(_) => rs == [StructValue(t.handle, UsedArguments(env.m, instr), vs)]
    case Unpack(_) | UnpackGeneric(_) => rs == vs[0].fields
    case MoveTo(_) | MoveToGeneric(_) => rs == []
    case MoveFrom(_) | MoveFromGeneric(_) => One(env, rs, t)
    case Exists(_) | ExistsGeneric(_) => rs == [Scalar(Bool)]
    case _ => rs == [RefValue(instr.MutBorrowGlobal? || instr.MutBorrowGlobalGeneric?, t)]
  }

  ghost predicate CallYields(env: Env, instr: Bytecode, rs: seq<Value>)
    requires IsCall(instr)
  {
    Instances(env, rs, Get(env.m.signatures, Called(env.m, instr).return_, []), CallArguments(env.m, instr))
  }

  ghost predicate VectorYields(env: Env, instr: Bytecode, vs: seq<Value>, rs: seq<Value>)
    requires IsVector(instr) && VectorDemands(env, instr, vs)
  {
    var elem := Element(env.m, instr.sig);
    match instr
    case VecPack(_, _) => rs == [VectorValue(vs)]
    case VecLen(_) => rs == [Scalar(U64)]
    case VecImmBorrow(_) => rs == [RefValue(false, elem)]
    case VecMutBorrow(_) => rs == [RefValue(true, elem)]
    case VecPopBack(_) => One(env, rs, elem)
    case VecUnpack(_, count) => |vs[0].items| == count && rs == vs[0].items
    case _ => rs == []
  }

  ghost predicate LocalYields(env: Env, instr: Bytecode, vs: seq<Value>, rs: seq<Value>)
    requires LocalDemands(env, instr, vs)
  {
    match instr
    case CopyLoc(i) => One(env, rs, Local(env, i))
    case MoveLoc(i) => One(env, rs, Local(env, i))
    case MutBorrowLoc(i) => rs == [RefValue(true, Local(env, i))]
    case ImmBorrowLoc(i) => rs == [RefValue(false, Local(env, i))]
    case LdConst(c) => One(env, rs, Get(env.m.constantPool, c, Constant(Bool, [])).type_)
    case ReadRef => One(env, rs, vs[0].target)
    case FreezeRef => rs == [RefValue(false, vs[0].target)]
    case _ => rs == []
  }

  predicate PlainYields(instr: Bytecode, vs: seq<Value>, rs: seq<Value>) {
    match instr
    case LdU8(_) | CastU8 => rs == [Scalar(U8)]
    case LdU64(_) | CastU64 => rs == [Scalar(U64)]
    case LdU128(_) | CastU128 => rs == [Scalar(U128)]
    case Add | Sub | Mul | Mod | Div | BitOr | BitAnd | Xor | Shl | Shr => |vs| > 0 && rs == [vs[0]]
    case _ => rs == [Scalar(Bool)]
  }

  /** What the instruction gives for operands that it accepts. */
  ghost predicate Yields(env: Env, instr: Bytecode, vs: seq<Value>, rs: seq<Value>)
    requires Demands(env, instr, vs)
  {
    if UsesStruct(instr) then StructYields(env, instr, vs, rs)
    else if UsesField(instr) then rs == [RefValue(BorrowsMutably(instr), UsedFieldType(env.m, instr))]
    else if IsCall(instr) then CallYields(env, instr, rs)
    else if IsVector(instr) then VectorYields(env, instr, vs, rs)
    else if IsLocalOrControl(instr) then LocalYields(env, instr, vs, rs)
    else PlainYields(instr, vs, rs)
  }

  // ---------------------------------------------------------------------------------------------
  // The same machine
  // ---------------------------------------------------------------------------------------------

  predicate IsMaking(instr: Bytecode) {
    instr.Pack? || instr.PackGeneric? || instr.Unpack? || instr.UnpackGeneric?
  }

  predicate IsBorrowGlobal(instr: Bytecode) {
    || instr.MutBorrowGlobal? || instr.MutBorrowGlobalGeneric?
    || instr.ImmBorrowGlobal? || instr.ImmBorrowGlobalGeneric?
  }

  /** The instruction neither jumps nor stores anything. */
  predicate IsLocal(instr: Bytecode) {
    match instr
    case CopyLoc(_) | MoveLoc(_) | MutBorrowLoc(_) | ImmBorrowLoc(_) | LdConst(_) | ReadRef | FreezeRef => true
    case _ => false
  }

  lemma MakingFits(env: Env, instr: Bytecode, vs: seq<Value>)
    requires IsMaking(instr)
    ensures Fits(env, Decode(env, instr), vs) <==> StructDemands(env, instr, vs)
  {
  }

  lemma MakingGives(env: Env, instr: Bytecode, vs: seq<Value>, rs: seq<Value>)
    requires IsMaking(instr)
    requires StructDemands(env, instr, vs) && Fits(env, Decode(env, instr), vs)
    ensures Gives(env, Decode(env, instr), vs, rs) <==> StructYields(env, instr, vs, rs)
  {
  }

  lemma GlobalFits(env: Env, instr: Bytecode, vs: seq<Value>)
    requires IsBorrowGlobal(instr)
    ensures Fits(env, Decode(env, instr), vs) <==> StructDemands(env, instr, vs)
  {
  }

  lemma GlobalGives(env: Env, instr: Bytecode, vs: seq<Value>, rs: seq<Value>)
    requires IsBorrowGlobal(instr)
    requires StructDemands(env, instr, vs) && Fits(env, Decode(env, instr), vs)
    ensures Gives(env, Decode(env, instr), vs, rs) <==> StructYields(env, instr, vs, rs)
  {
  }

  lemma StorageFits(env: Env, instr: Bytecode, vs: seq<Value>)
    requires UsesStruct(instr) && !IsMaking(instr) && !IsBorrowGlobal(instr)
    ensures Fits(env, Decode(env, instr), vs) <==> StructDemands(env, instr, vs)
  {
  }

  lemma StorageGives(env: Env, instr: Bytecode, vs: seq<Value>, rs: seq<Value>)
    requires UsesStruct(instr) && !IsMaking(instr) && !IsBorrowGlobal(instr)
    requires StructDemands(env, instr, vs) && Fits(env, Decode(env, instr), vs)
    ensures Gives(env, Decode(env, instr), vs, rs) <==> StructYields(env, instr, vs, rs)
  {
  }

  lemma FieldFits(env: Env, instr: Bytecode, vs: seq<Value>)
    requires UsesField(instr)
    ensures Fits(env, Decode(env, instr), vs) <==> FieldDemands(env.m, instr, vs)
  {
  }

  lemma FieldGives(env: Env, instr: Bytecode, vs: seq<Value>, rs: seq<Value>)
    requires UsesField(instr)
    requires FieldDemands(env.m, instr, vs) && Fits(env, Decode(env, instr), vs)
    ensures Gives(env, Decode(env, instr), vs, rs) <==>
            rs == [RefValue(BorrowsMutably(instr), UsedFieldType(env.m, instr))]
  {
  }

  lemma CallFits(env: Env, instr: Bytecode, vs: seq<Value>)
    requires IsCall(instr)
    ensures Fits(env, Decode(env, instr), vs) <==> CallDemands(env, instr, vs)
  {
  }

  lemma CallGives(env: Env, instr: Bytecode, vs: seq<Value>, rs: seq<Value>)
    requires IsCall(instr)
    requires CallDemands(env, instr, vs) && Fits(env, Decode(env, instr), vs)
    ensures Gives(env, Decode(env, instr), vs, rs) <==> CallYields(env, instr, rs)
  {
  }

  lemma VectorFits(env: Env, instr: Bytecode, vs: seq<Value>)
    requires IsVector(instr)
    ensures Fits(env, Decode(env, instr), vs) <==> VectorDemands(env, instr, vs)
  {
  }

  lemma VectorGives(env: Env, instr: Bytecode, vs: seq<Value>, rs: seq<Value>)
    requires IsVector(instr)
    requires VectorDemands(env, instr, vs) && Fits(env, Decode(env, instr), vs)
    ensures Gives(env, Decode(env, instr), vs, rs) <==> VectorYields(env, instr, vs, rs)
  {
  }

  lemma LocalFits(env: Env, instr: Bytecode, vs: seq<Value>)
    requires IsLocalOrControl(instr) && IsLocal(instr)
    ensures Fits(env, Decode(env, instr), vs) <==> LocalDemands(env, instr, vs)
  {
  }

  lemma LocalGives(env: Env, instr: Bytecode, vs: seq<Value>, rs: seq<Value>)
    requires IsLocalOrControl(instr) && IsLocal(instr)
    requires LocalDemands(env, instr, vs) && Fits(env, Decode(env, instr), vs)
    ensures Gives(env, Decode(env, instr), vs, rs) <==> LocalYields(env, instr, vs, rs)
  {
  }

  lemma ControlFits(env: Env, instr: Bytecode, vs: seq<Value>)
    requires IsLocalOrControl(instr) && !IsLocal(instr)
    ensures Fits(env, Decode(env, instr), vs) <==> LocalDemands(env, instr, vs)
  {
  }

  lemma ControlGives(env: Env, instr: Bytecode, vs: seq<Value>, rs: seq<Value>)
    requires IsLocalOrControl(instr) && !IsLocal(instr)
    requires LocalDemands(env, instr, vs) && Fits(env, Decode(env, instr), vs)
    ensures Gives(env, Decode(env, instr), vs, rs) <==> LocalYields(env, instr, vs, rs)
  {
  }

  lemma LogicFits(env: Env, instr: Bytecode, vs: seq<Value>)
    requires IsLogic(instr)
    ensures Fits(env, Decode(env, instr), vs) <==> PlainDemands(env, instr, vs)
  {
  }

  lemma LogicGives(env: Env, instr: Bytecode, vs: seq<Value>, rs: seq<Value>)
    requires IsLogic(instr)
    requires PlainDemands(env, instr, vs) && Fits(env, Decode(env, instr), vs)
    ensures Gives(env, Decode(env, instr), vs, rs) <==> PlainYields(instr, vs, rs)
  {
  }

  lemma ArithmeticFits(env: Env, instr: Bytecode, vs: seq<Value>)
    requires IsArithmetic(instr)
    ensures Fits(env, Decode(env, instr), vs) <==> PlainDemands(env, instr, vs)
  {
  }

  lemma ArithmeticGives(env: Env, instr: Bytecode, vs: seq<Value>, rs: seq<Value>)
    requires IsArithmetic(instr)
    requires PlainDemands(env, instr, vs) && Fits(env, Decode(env, instr), vs)
    ensures Gives(env, Decode(env, instr), vs, rs) <==> PlainYields(instr, vs, rs)
  {
  }

  lemma LoadFits(env: Env, instr: Bytecode, vs: seq<Value>)
    requires IsLoadOrCast(instr)
    ensures Fits(env, Decode(env, instr), vs) <==> PlainDemands(env, instr, vs)
  {
  }

  lemma LoadGives(env: Env, instr: Bytecode, vs: seq<Value>, rs: seq<Value>)
    requires IsLoadOrCast(instr)
    requires PlainDemands(env, instr, vs) && Fits(env, Decode(env, instr), vs)
    ensures Gives(env, Decode(env, instr), vs, rs) <==> PlainYields(instr, vs, rs)
  {
  }

  /** Instructions on numbers and truth values are of no other kind. */
  lemma PlainAlone(instr: Bytecode)
    requires IsLogic(instr) || IsArithmetic(instr) || IsLoadOrCast(instr)
    ensures !UsesStruct(instr) && !UsesField(instr) && !IsCall(instr) && !IsVector(instr) && !IsLocalOrControl(instr)
  {
  }

  lemma PlaceAlone(instr: Bytecode)
    requires IsLocalOrControl(instr)
    ensures !UsesStruct(instr) && !UsesField(instr) && !IsCall(instr) && !IsVector(instr)
  {
  }

  lemma ReferenceAlone(instr: Bytecode)
    requires UsesField(instr) || IsCall(instr)
    ensures !UsesStruct(instr) && UsesField(instr) == !IsCall(instr)
  {
  }

  lemma SequenceAlone(instr: Bytecode)
    requires IsVector(instr)
    ensures !UsesStruct(instr) && !UsesField(instr) && !IsCall(instr)
  {
  }

  lemma StructDemandsAgree(env: Env, instr: Bytecode, vs: seq<Value>)
    requires UsesStruct(instr)
    ensures Fits(env, Decode(env, instr), vs) <==> Demands(env, instr, vs)
  {
    if IsMaking(instr) {
      MakingFits(env, instr, vs);
    } else if IsBorrowGlobal(instr) {
      GlobalFits(env, instr, vs);
    } else {
      StorageFits(env, instr, vs);
    }
  }

  lemma StructResultsAgree(env: Env, instr: Bytecode, vs: seq<Value>, rs: seq<Value>)
    requires UsesStruct(instr)
    requires Demands(env, instr, vs) && Fits(env, Decode(env, instr), vs)
    ensures Gives(env, Decode(env, instr), vs, rs) <==> Yields(env, instr, vs, rs)
  {
    if IsMaking(instr) {
      MakingGives(env, instr, vs, rs);
    } else if IsBorrowGlobal(instr) {
      GlobalGives(env, instr, vs, rs);
    } else {
      StorageGives(env, instr, vs, rs);
    }
  }

  lemma ReferenceDemandsAgree(env: Env, instr: Bytecode, vs: seq<Value>)
    requires UsesField(instr) || IsCall(instr)
    ensures Fits(env, Decode(env, instr), vs) <==> Demands(env, instr, vs)
  {
    ReferenceAlone(instr);
    if UsesField(instr) {
      FieldFits(env, instr, vs);
    } else {
      CallFits(env, instr, vs);
    }
  }

  lemma ReferenceResultsAgree(env: Env, instr: Bytecode, vs: seq<Value>, rs: seq<Value>)
    requires UsesField(instr) || IsCall(instr)
    requires Demands(env, instr, vs) && Fits(env, Decode(env, instr), vs)
    ensures Gives(env, Decode(env, instr), vs, rs) <==> Yields(env, instr, vs, rs)
  {
    ReferenceAlone(instr);
    if UsesField(instr) {
      FieldGives(env, instr, vs, rs);
    } else {
      CallGives(env, instr, vs, rs);
    }
  }

  lemma SequenceDemandsAgree(env: Env, instr: Bytecode, vs: seq<Value>)
    requires IsVector(instr)
    ensures Fits(env, Decode(env, instr), vs) <==> Demands(env, instr, vs)
  {
    SequenceAlone(instr);
    VectorFits(env, instr, vs);
  }

  lemma SequenceResultsAgree(env: Env, instr: Bytecode, vs: seq<Value>, rs: seq<Value>)
    requires IsVector(instr)
    requires Demands(env, instr, vs) && Fits(env, Decode(env, instr), vs)
    ensures Gives(env, Decode(env, instr), vs, rs) <==> Yields(env, instr, vs, rs)
  {
    SequenceAlone(instr);
    VectorGives(env, instr, vs, rs);
  }

  lemma PlaceDemandsAgree(env: Env, instr: Bytecode, vs: seq<Value>)
    requires IsLocalOrControl(instr)
    ensures Fits(env, Decode(env, instr), vs) <==> Demands(env, instr, vs)
  {
    PlaceAlone(instr);
    if IsLocal(instr) {
      LocalFits(env, instr, vs);
    } else {
      ControlFits(env, instr, vs);
    }
  }

  lemma PlaceResultsAgree(env: Env, instr: Bytecode, vs: seq<Value>, rs: seq<Value>)
    requires IsLocalOrControl(instr)
    requires Demands(env, instr, vs) && Fits(env, Decode(env, instr), vs)
    ensures Gives(env, Decode(env, instr), vs, rs) <==> Yields(env, instr, vs, rs)
  {
    PlaceAlone(instr);
    if IsLocal(instr) {
      LocalGives(env, instr, vs, rs);
    } else {
      ControlGives(env, instr, vs, rs);
    }
  }

  lemma PlainDemandsAgree(env: Env, instr: Bytecode, vs: seq<Value>)
    requires IsLogic(instr) || IsArithmetic(instr) || IsLoadOrCast(instr)
    ensures Fits(env, Decode(env, instr), vs) <==> Demands(env, instr, vs)
  {
    PlainAlone(instr);
    if IsLogic(instr) {
      LogicFits(env, instr, vs);
    } else if IsArithmetic(instr) {
      ArithmeticFits(env, instr, vs);
    } else {
      LoadFits(env, instr, vs);
    }
  }

  lemma PlainResultsAgree(env: Env, instr: Bytecode, vs: seq<Value>, rs: seq<Value>)
    requires IsLogic(instr) || IsArithmetic(instr) || IsLoadOrCast(instr)
    requires Demands(env, instr, vs) && Fits(env, Decode(env, instr), vs)
    ensures Gives(env, Decode(env, instr), vs, rs) <==> Yields(env, instr, vs, rs)
  {
    PlainAlone(instr);
    if IsLogic(instr) {
      LogicGives(env, instr, vs, rs);
    } else if IsArithmetic(instr) {
      ArithmeticGives(env, instr, vs, rs);
    } else {
      LoadGives(env, instr, vs, rs);
    }
  }

  /** Decoding keeps what an instruction demands. */
  lemma DemandsAgree(env: Env, instr: Bytecode, vs: seq<Value>)
    ensures Fits(env, Decode(env, instr), vs) <==> Demands(env, instr, vs)
  {
    if UsesStruct(instr) {
      StructDemandsAgree(env, instr, vs);
    } else if UsesField(instr) || IsCall(instr) {
      ReferenceDemandsAgree(env, instr, vs);
    } else if IsVector(instr) {
      SequenceDemandsAgree(env, instr, vs);
    } else if IsLocalOrControl(instr) {
      PlaceDemandsAgree(env, instr, vs);
    } else {
      PlainDemandsAgree(env, instr, vs);
    }
  }

  /** And what it gives. */
  lemma ResultsAgree(env: Env, instr: Bytecode, vs: seq<Value>, rs: seq<Value>)
    requires Demands(env, instr, vs) && Fits(env, Decode(env, instr), vs)
    ensures Gives(env, Decode(env, instr), vs, rs) <==> Yields(env, instr, vs, rs)
  {
    if UsesStruct(instr) {
      StructResultsAgree(env, instr, vs, rs);
    } else if UsesField(instr) || IsCall(instr) {
      ReferenceResultsAgree(env, instr, vs, rs);
    } else if IsVector(instr) {
      SequenceResultsAgree(env, instr, vs, rs);
    } else if IsLocalOrControl(instr) {
      PlaceResultsAgree(env, instr, vs, rs);
    } else {
      PlainResultsAgree(env, instr, vs, rs);
    }
  }
}
