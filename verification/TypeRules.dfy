/** What every instruction does to the types of its operands. */
module TypeRules {
  import opened Abilities
  import opened Bytecodes
  import opened FileFormat
  import opened Tables
  import opened TypeAbilities
  import opened StackUsage
  import opened Wrappers

  /** The function whose body is checked: its module, and its signature. */
  datatype Env = Env(
    m: CompiledModule, parameters: Signature, locals: Signature, return_: Signature, typeParameters: seq<AbilitySet>)

  function LocalAt(env: Env, i: nat): SignatureToken {
    if i < |env.parameters| then env.parameters[i] else Get(env.locals, i - |env.parameters|, Bool)
  }

  /** Whether a type has an ability, given those of the type parameters. */
  predicate TypeHas(env: Env, t: SignatureToken, a: Ability) {
    WellFormed(env.m.structHandles, t, |env.typeParameters|) && Has(env.m.structHandles, t, env.typeParameters, a)
  }

  function SignatureOf(env: Env, i: nat): Signature {
    Get(env.m.signatures, i, [])
  }

  function ElementType(env: Env, i: nat): SignatureToken {
    Get(SignatureOf(env, i), 0, Bool)
  }

  function StructDefAt(env: Env, d: nat): StructDefinition {
    Get(env.m.structDefs, d, StructDefinition(0, Native))
  }

  /** The type of a struct with the given arguments. */
  function Materialize(handle: nat, typeArgs: Signature): SignatureToken {
    if typeArgs == [] then Struct(handle) else StructInstantiation(handle, typeArgs)
  }

  function StructType(env: Env, d: nat, typeArgs: Signature): SignatureToken {
    Materialize(StructDefAt(env, d).structHandle, typeArgs)
  }

  function InstantiateAll(ts: seq<SignatureToken>, typeArgs: Signature): (r: seq<SignatureToken>)
    ensures |r| == |ts|
  {
    seq(|ts|, i requires 0 <= i < |ts| => Instantiate(ts[i], typeArgs))
  }

  /** The types of the fields of a struct, unless it is native. */
  function FieldTypes(env: Env, d: nat, typeArgs: Signature): Option<seq<SignatureToken>> {
    match StructDefAt(env, d).fieldInformation
    case Native => None
    case Declared(fields) =>
      Some(seq(|fields|, i requires 0 <= i < |fields| => Instantiate(fields[i].signature, typeArgs)))
  }

  predicate IsInteger(t: SignatureToken) {
    t.U8? || t.U64? || t.U128?
  }

  predicate IsReference(t: SignatureToken) {
    t.Reference? || t.MutableReference?
  }

  function ReferenceTo(isMutable: bool, t: SignatureToken): SignatureToken {
    if isMutable then MutableReference(t) else Reference(t)
  }

  /** The element type behind a reference to a vector. */
  function VectorElement(t: SignatureToken, mutableOnly: bool): Option<SignatureToken> {
    if t.Reference? && !mutableOnly && t.inner.Vector? then Some(t.inner.elem)
    else if t.MutableReference? && t.inner.Vector? then Some(t.inner.elem)
    else None
  }

  // ---------------------------------------------------------------------------------------------
  // Operations
  // ---------------------------------------------------------------------------------------------

  /** Instructions with their indexes looked up; those that are treated alike fall together. */
  datatype Operation =
    | Discard
    | Condition
    | StoreLocal(local: nat)
    | Stop
    | Return
    | Skip
    | Freeze
    | BorrowField(isMutable: bool, field: nat, typeArgs: Signature)
    | Load(type_: SignatureToken)
    | LoadConstant(type_: SignatureToken)
    | CopyLocal(local: nat)
    | MoveLocal(local: nat)
    | BorrowLocal(isMutable: bool, local: nat)
    | Invoke(params: seq<SignatureToken>, results: seq<SignatureToken>)
    | Assemble(def: nat, typeArgs: Signature)
    | Dismantle(def: nat, typeArgs: Signature)
    | Read
    | Write
    | Cast(type_: SignatureToken)
    | Arithmetic
    | Shift
    | Logic
    | Negate
    | Equality
    | Compare
    | BorrowGlobal(isMutable: bool, def: nat, typeArgs: Signature)
    | CheckExists(def: nat, typeArgs: Signature)
    | TakeGlobal(def: nat, typeArgs: Signature)
    | PutGlobal(def: nat, typeArgs: Signature)
    | AssembleVector(elem: SignatureToken, count: nat)
    | Length(elem: SignatureToken)
    | BorrowElement(isMutable: bool, elem: SignatureToken)
    | PushBack(elem: SignatureToken)
    | PopBack(elem: SignatureToken)
    | DismantleVector(elem: SignatureToken, count: nat)
    | Swap(elem: SignatureToken)

  function CallTo(env: Env, f: nat, typeArgs: Signature): Operation {
    var handle := Get(env.m.functionHandles, f, FunctionHandle(0, 0, 0, 0, []));
    Invoke(
      InstantiateAll(SignatureOf(env, handle.parameters), typeArgs),
      InstantiateAll(SignatureOf(env, handle.return_), typeArgs))
  }

  function StructInst(env: Env, i: nat): StructDefInstantiation {
    Get(env.m.structInstantiations, i, StructDefInstantiation(0, 0))
  }

  function FieldInst(env: Env, i: nat): FieldInstantiation {
    Get(env.m.fieldInstantiations, i, FieldInstantiation(0, 0))
  }

  function FunctionInst(env: Env, i: nat): FunctionInstantiation {
    Get(env.m.functionInstantiations, i, FunctionInstantiation(0, 0))
  }

  function Decode(env: Env, instr: Bytecode): Operation {
    match instr
    case Pop => Discard
    case BrTrue(_) | BrFalse(_) => Condition
    case StLoc(i) => StoreLocal(i)
    case Abort => Stop
    case Ret => Return
    case Branch(_) | Nop => Skip
    case FreezeRef => Freeze
    case MutBorrowField(f) => BorrowField(true, f, [])
    case MutBorrowFieldGeneric(i) =>
      BorrowField(true, FieldInst(env, i).handle, SignatureOf(env, FieldInst(env, i).typeParameters))
    case ImmBorrowField(f) => BorrowField(false, f, [])
    case ImmBorrowFieldGeneric(i) =>
      BorrowField(false, FieldInst(env, i).handle, SignatureOf(env, FieldInst(env, i).typeParameters))
    case LdU8(_) => Load(U8)
    case LdU64(_) => Load(U64)
    case LdU128(_) => Load(U128)
    case LdConst(c) => LoadConstant(Get(env.m.constantPool, c, Constant(Bool, [])).type_)
    case LdTrue | LdFalse => Load(Bool)
    case CopyLoc(i) => CopyLocal(i)
    case MoveLoc(i) => MoveLocal(i)
    case MutBorrowLoc(i) => BorrowLocal(true, i)
    case ImmBorrowLoc(i) => BorrowLocal(false, i)
    case Call(f) => CallTo(env, f, [])
    case CallGeneric(i) =>
      CallTo(env, FunctionInst(env, i).handle, SignatureOf(env, FunctionInst(env, i).typeParameters))
    case Pack(d) => Assemble(d, [])
    case PackGeneric(i) => Assemble(StructInst(env, i).def, SignatureOf(env, StructInst(env, i).typeParameters))
    case Unpack(d) => Dismantle(d, [])
    case UnpackGeneric(i) => Dismantle(StructInst(env, i).def, SignatureOf(env, StructInst(env, i).typeParameters))
    case ReadRef => Read
    case WriteRef => Write
    case CastU8 => Cast(U8)
    case CastU64 => Cast(U64)
    case CastU128 => Cast(U128)
    case Add | Sub | Mul | Mod | Div | BitOr | BitAnd | Xor => Arithmetic
    case Shl | Shr => Shift
    case Or | And => Logic
    case Not => Negate
    case Eq | Neq => Equality
    case Lt | Gt | Le | Ge => Compare
    case MutBorrowGlobal(d) => BorrowGlobal(true, d, [])
    case MutBorrowGlobalGeneric(i) =>
      BorrowGlobal(true, StructInst(env, i).def, SignatureOf(env, StructInst(env, i).typeParameters))
    case ImmBorrowGlobal(d) => BorrowGlobal(false, d, [])
    case ImmBorrowGlobalGeneric(i) =>
      BorrowGlobal(false, StructInst(env, i).def, SignatureOf(env, StructInst(env, i).typeParameters))
    case Exists(d) => CheckExists(d, [])
    case ExistsGeneric(i) => CheckExists(StructInst(env, i).def, SignatureOf(env, StructInst(env, i).typeParameters))
    case MoveFrom(d) => TakeGlobal(d, [])
    case MoveFromGeneric(i) => TakeGlobal(StructInst(env, i).def, SignatureOf(env, StructInst(env, i).typeParameters))
    case MoveTo(d) => PutGlobal(d, [])
    case MoveToGeneric(i) => PutGlobal(StructInst(env, i).def, SignatureOf(env, StructInst(env, i).typeParameters))
    case VecPack(i, count) => AssembleVector(ElementType(env, i), count)
    case VecLen(i) => Length(ElementType(env, i))
    case VecImmBorrow(i) => BorrowElement(false, ElementType(env, i))
    case VecMutBorrow(i) => BorrowElement(true, ElementType(env, i))
    case VecPushBack(i) => PushBack(ElementType(env, i))
    case VecPopBack(i) => PopBack(ElementType(env, i))
    case VecUnpack(i, count) => DismantleVector(ElementType(env, i), count)
    case VecSwap(i) => Swap(ElementType(env, i))
  }

  /** How many operands are popped and pushed. */
  function OperationEffect(env: Env, op: Operation): Effect {
    match op
    case Discard | Condition | StoreLocal(_) | Stop => Effect(1, 0)
    case Return => Effect(|env.return_|, 0)
    case Skip => Effect(0, 0)
    case Load(_) | LoadConstant(_) | CopyLocal(_) | MoveLocal(_) | BorrowLocal(_, _) => Effect(0, 1)
    case Freeze | BorrowField(_, _, _) | Read | Cast(_) | Negate | BorrowGlobal(_, _, _) | CheckExists(_, _)
      | TakeGlobal(_, _)
      | Length(_) | PopBack(_) => Effect(1, 1)
    case Arithmetic | Shift | Logic | Equality | Compare | BorrowElement(_, _) => Effect(2, 1)
    case Write | PutGlobal(_, _) | PushBack(_) => Effect(2, 0)
    case Swap(_) => Effect(3, 0)
    case Invoke(params, results) => Effect(|params|, |results|)
    case Assemble(d, _) => Effect(FieldCount(env.m, d), 1)
    case Dismantle(d, _) => Effect(1, FieldCount(env.m, d))
    case AssembleVector(_, count) => Effect(count, 1)
    case DismantleVector(_, count) => Effect(1, count)
  }

  /** The types of the fields that an operand gives access to. */
  function FieldType(env: Env, field: nat, typeArgs: Signature): Option<SignatureToken> {
    var handle := Get(env.m.fieldHandles, field, FieldHandle(0, 0));
    match StructDefAt(env, handle.owner).fieldInformation
    case Native => None
    case Declared(fields) => Some(Instantiate(Get(fields, handle.field, FieldDefinition(0, Bool)).signature, typeArgs))
  }

  /** The types of the results, given those of the operands (the last on top), unless the operation is refused. */
  function Results(env: Env, op: Operation, ts: seq<SignatureToken>): Option<seq<SignatureToken>>
    requires |ts| == OperationEffect(env, op).pops
  {
    match op
    case Discard => if TypeHas(env, ts[0], Drop) then Some([]) else None
    case Condition => if ts[0] == Bool then Some([]) else None
    case StoreLocal(i) => if ts[0] == LocalAt(env, i) then Some([]) else None
    case Stop => if ts[0] == U64 then Some([]) else None
    case Return => if ts == env.return_ then Some([]) else None
    case Skip => Some([])
    case Freeze => if ts[0].MutableReference? then Some([Reference(ts[0].inner)]) else None
    case BorrowField(isMutable, field, typeArgs) =>
      var owner := Get(env.m.fieldHandles, field, FieldHandle(0, 0)).owner;
      if isMutable && !ts[0].MutableReference? then None
      else if !(IsReference(ts[0]) && ts[0].inner == StructType(env, owner, typeArgs)) then None
      else if FieldType(env, field, typeArgs).None? then None
      else Some([ReferenceTo(isMutable, FieldType(env, field, typeArgs).value)])
    case Load(t) => Some([t])
    case LoadConstant(t) => Some([t])
    case CopyLocal(i) => if TypeHas(env, LocalAt(env, i), Copy) then Some([LocalAt(env, i)]) else None
    case MoveLocal(i) => Some([LocalAt(env, i)])
    case BorrowLocal(isMutable, i) =>
      if IsReference(LocalAt(env, i)) then None else Some([ReferenceTo(isMutable, LocalAt(env, i))])
    case Invoke(params, results) => if ts == params then Some(results) else None
    case Assemble(d, typeArgs) =>
      if FieldTypes(env, d, typeArgs) == Some(ts) then Some([StructType(env, d, typeArgs)]) else None
    case Dismantle(d, typeArgs) => if ts[0] == StructType(env, d, typeArgs) then FieldTypes(env, d, typeArgs) else None
    case Read => if IsReference(ts[0]) && TypeHas(env, ts[0].inner, Copy) then Some([ts[0].inner]) else None
    case Write =>
      if ts[1].MutableReference? && TypeHas(env, ts[1].inner, Drop) && ts[0] == ts[1].inner then Some([]) else None
    case Cast(t) => if IsInteger(ts[0]) then Some([t]) else None
    case Arithmetic => if IsInteger(ts[1]) && ts[1] == ts[0] then Some([ts[1]]) else None
    case Shift => if IsInteger(ts[0]) && ts[1] == U8 then Some([ts[0]]) else None
    case Logic => if ts[1] == Bool && ts[0] == Bool then Some([Bool]) else None
    case Negate => if ts[0] == Bool then Some([Bool]) else None
    case Equality => if TypeHas(env, ts[1], Drop) && ts[1] == ts[0] then Some([Bool]) else None
    case Compare => if IsInteger(ts[1]) && ts[1] == ts[0] then Some([Bool]) else None
    case BorrowGlobal(isMutable, d, typeArgs) =>
      if ts[0] == Address && TypeHas(env, StructType(env, d, typeArgs), Key)
      then Some([ReferenceTo(isMutable, StructType(env, d, typeArgs))])
      else None
    case CheckExists(d, typeArgs) =>
      if TypeHas(env, StructType(env, d, typeArgs), Key) && ts[0] == Address then Some([Bool]) else None
    case TakeGlobal(d, typeArgs) =>
      if TypeHas(env, StructType(env, d, typeArgs), Key) && ts[0] == Address
      then Some([StructType(env, d, typeArgs)])
      else None
    case PutGlobal(d, typeArgs) =>
      if TypeHas(env, StructType(env, d, typeArgs), Key) && ts[1] == StructType(env, d, typeArgs)
        && ts[0] == Reference(Signer)
      then Some([])
      else None
    case AssembleVector(elem, _) => Some([Vector(elem)])
    case Length(elem) => if VectorElement(ts[0], false) == Some(elem) then Some([U64]) else None
    case BorrowElement(isMutable, elem) =>
      if ts[1] == U64 && VectorElement(ts[0], isMutable) == Some(elem)
      then Some([ReferenceTo(isMutable, elem)]) else None
    case PushBack(elem) => if elem == ts[1] && VectorElement(ts[0], true) == Some(elem) then Some([]) else None
    case PopBack(elem) => if VectorElement(ts[0], true) == Some(elem) then Some([elem]) else None
    case DismantleVector(elem, count) => if ts[0] == Vector(elem) then Some(seq(count, _ => elem)) else None
    case Swap(elem) =>
      if ts[1] == U64 && ts[2] == U64 && VectorElement(ts[0], true) == Some(elem) then Some([]) else None
  }

  predicate IsLoadOrCast(instr: Bytecode) {
    match instr
    case LdU8(_) | LdU64(_) | LdU128(_) | LdTrue | LdFalse | CastU8 | CastU64 | CastU128 => true
    case _ => false
  }

  predicate IsArithmetic(instr: Bytecode) {
    match instr
    case Add | Sub | Mul | Mod | Div | BitOr | BitAnd | Xor | Shl | Shr => true
    case _ => false
  }

  predicate IsLogic(instr: Bytecode) {
    match instr
    case Or | And | Not | Eq | Neq | Lt | Gt | Le | Ge => true
    case _ => false
  }

  predicate IsLocalOrControl(instr: Bytecode) {
    match instr
    case Pop | BrTrue(_) | BrFalse(_) | StLoc(_) | Abort | Ret | Branch(_) | Nop | FreezeRef | ReadRef | WriteRef =>
      true
    case CopyLoc(_) | MoveLoc(_) | MutBorrowLoc(_) | ImmBorrowLoc(_) | LdConst(_) => true
    case _ => false
  }

  predicate IsGlobal(instr: Bytecode) {
    match instr
    case MutBorrowGlobal(_) | MutBorrowGlobalGeneric(_) | ImmBorrowGlobal(_) | ImmBorrowGlobalGeneric(_) => true
    case Exists(_) | ExistsGeneric(_) | MoveFrom(_) | MoveFromGeneric(_) | MoveTo(_) | MoveToGeneric(_) => true
    case MutBorrowField(_) | MutBorrowFieldGeneric(_) | ImmBorrowField(_) | ImmBorrowFieldGeneric(_) => true
    case _ => false
  }

  predicate IsVector(instr: Bytecode) {
    match instr
    case VecPack(_, _) | VecLen(_) | VecImmBorrow(_) | VecMutBorrow(_) => true
    case VecPushBack(_) | VecPopBack(_) | VecUnpack(_, _) | VecSwap(_) => true
    case _ => false
  }

  predicate IsStructOrCall(instr: Bytecode) {
    match instr
    case Call(_) | CallGeneric(_) | Pack(_) | PackGeneric(_) | Unpack(_) | UnpackGeneric(_) => true
    case _ => false
  }

  predicate EffectAgrees(env: Env, instr: Bytecode)
    requires InBounds(env.m, instr)
  {
    OperationEffect(env, Decode(env, instr)) == InstructionEffect(env.m, |env.return_|, instr)
  }

  lemma LoadOrCastAgrees(env: Env, instr: Bytecode)
    requires InBounds(env.m, instr) && IsLoadOrCast(instr)
    ensures EffectAgrees(env, instr)
  {
  }

  lemma ArithmeticAgrees(env: Env, instr: Bytecode)
    requires InBounds(env.m, instr) && IsArithmetic(instr)
    ensures EffectAgrees(env, instr)
  {
  }

  lemma LogicAgrees(env: Env, instr: Bytecode)
    requires InBounds(env.m, instr) && IsLogic(instr)
    ensures EffectAgrees(env, instr)
  {
  }

  lemma VectorAgrees(env: Env, instr: Bytecode)
    requires InBounds(env.m, instr) && IsVector(instr)
    ensures EffectAgrees(env, instr)
  {
  }

  lemma LocalOrControlAgrees(env: Env, instr: Bytecode)
    requires InBounds(env.m, instr) && IsLocalOrControl(instr)
    ensures EffectAgrees(env, instr)
  {
  }

  lemma GlobalAgrees(env: Env, instr: Bytecode)
    requires InBounds(env.m, instr) && IsGlobal(instr)
    ensures EffectAgrees(env, instr)
  {
  }

  lemma StructOrCallAgrees(env: Env, instr: Bytecode)
    requires InBounds(env.m, instr) && IsStructOrCall(instr)
    ensures EffectAgrees(env, instr)
  {
    match instr {
      case Call(f) => CallAgrees(env, f, []);
      case CallGeneric(i) => {
        var inst := env.m.functionInstantiations[i];
        CallAgrees(env, inst.handle, SignatureOf(env, inst.typeParameters));
      }
      case _ =>
    }
  }

  /** The type rules pop and push as many operands as the stack-usage check counts. */
  lemma EffectsAgree(env: Env, instr: Bytecode)
    requires InBounds(env.m, instr)
    ensures OperationEffect(env, Decode(env, instr)) == InstructionEffect(env.m, |env.return_|, instr)
  {
    if IsLoadOrCast(instr) {
      LoadOrCastAgrees(env, instr);
    } else if IsArithmetic(instr) {
      ArithmeticAgrees(env, instr);
    } else if IsLogic(instr) {
      LogicAgrees(env, instr);
    } else if IsLocalOrControl(instr) {
      LocalOrControlAgrees(env, instr);
    } else if IsGlobal(instr) {
      GlobalAgrees(env, instr);
    } else if IsVector(instr) {
      VectorAgrees(env, instr);
    } else {
      StructOrCallAgrees(env, instr);
    }
  }

  lemma CallAgrees(env: Env, f: nat, typeArgs: Signature)
    requires HandleInBounds(env.m, f)
    ensures OperationEffect(env, CallTo(env, f, typeArgs)) == CallEffect(env.m, f)
  {
  }

  lemma ResultCount(env: Env, op: Operation, ts: seq<SignatureToken>)
    requires |ts| == OperationEffect(env, op).pops && Results(env, op, ts).Some?
    ensures |Results(env, op, ts).value| == OperationEffect(env, op).pushes
  {
  }
}
