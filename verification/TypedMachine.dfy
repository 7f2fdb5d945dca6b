/**
 A machine that checks the types of values whenever it runs an instruction. Everything outside the operand stack is a
 typed memory: what is stored must have the type of the place, and what is loaded has it.
 */
module TypedMachine {
  import opened Bytecodes
  import opened ControlFlow
  import opened ControlFlowGraphs
  import opened FileFormat
  import opened StackUsage
  import TypeAbilities
  import opened TypeRules
  import opened TypeSafety
  import opened TypeStacks
  import opened TypedRuns
  import opened Wrappers

  datatype Value =
    | Scalar(type_: SignatureToken)
    | Opaque(index: nat)
    | StructValue(handle: nat, typeArgs: Signature, fields: seq<Value>)
    | VectorValue(items: seq<Value>)
    | RefValue(isMutable: bool, target: SignatureToken)

  /** The value has the type, all the way down. */
  ghost predicate HasType(env: Env, v: Value, t: SignatureToken)
    decreases v, 1
  {
    match t
    case TypeParameter(i) => v == Opaque(i)
    case Reference(u) => v == RefValue(false, u)
    case MutableReference(u) => v == RefValue(true, u)
    case Vector(elem) => v.VectorValue? && forall i | 0 <= i < |v.items| :: HasType(env, v.items[i], elem)
    case Struct(h) => v.StructValue? && v.handle == h && v.typeArgs == [] && FieldsTyped(env, v)
    case StructInstantiation(h, args) =>
      args != [] && v.StructValue? && v.handle == h && v.typeArgs == args && FieldsTyped(env, v)
    case _ => v == Scalar(t)
  }

  /** The fields of a struct that the module defines have their types; those of other structs cannot be seen. */
  ghost predicate FieldsTyped(env: Env, v: Value)
    requires v.StructValue?
    decreases v, 0
  {
    forall d: nat | d < |env.m.structDefs| && env.m.structDefs[d].structHandle == v.handle ::
      var types := FieldTypes(env, d, v.typeArgs);
      types.Some? ==>
        |v.fields| == |types.value| && forall i | 0 <= i < |v.fields| :: HasType(env, v.fields[i], types.value[i])
  }

  lemma StructHasType(env: Env, v: Value, h: nat, typeArgs: Signature)
    ensures HasType(env, v, Materialize(h, typeArgs)) <==>
            v.StructValue? && v.handle == h && v.typeArgs == typeArgs && FieldsTyped(env, v)
  {
  }

  ghost predicate AllHaveType(env: Env, vs: seq<Value>, ts: seq<SignatureToken>) {
    |vs| == |ts| && forall i | 0 <= i < |vs| :: HasType(env, vs[i], ts[i])
  }

  predicate IsIntegerValue(v: Value) {
    v.Scalar? && IsInteger(v.type_)
  }

  predicate RefersTo(v: Value, isMutable: bool, t: SignatureToken) {
    v.RefValue? && v.target == t && (isMutable ==> v.isMutable)
  }

  // ---------------------------------------------------------------------------------------------
  // The machine
  // ---------------------------------------------------------------------------------------------

  /** What the machine demands of the operands (the last on top). */
  ghost predicate Fits(env: Env, op: Operation, vs: seq<Value>) {
    |vs| == OperationEffect(env, op).pops &&
    match op
    case Discard => true
    case Condition => vs[0] == Scalar(Bool)
    case StoreLocal(i) => HasType(env, vs[0], LocalAt(env, i))
    case Stop => vs[0] == Scalar(U64)
    case Return => AllHaveType(env, vs, env.return_)
    case Skip => true
    case Freeze => vs[0].RefValue? && vs[0].isMutable
    case BorrowField(isMutable, field, typeArgs) =>
      RefersTo(vs[0], isMutable, StructType(env, FieldOwner(env, field), typeArgs))
        && FieldType(env, field, typeArgs).Some?
    case Load(_) => true
    case LoadConstant(_) => true
    case CopyLocal(_) => true
    case MoveLocal(_) => true
    case BorrowLocal(_, _) => true
    case Invoke(params, _) => AllHaveType(env, vs, params)
    case Assemble(d, typeArgs) =>
      FieldTypes(env, d, typeArgs).Some? && AllHaveType(env, vs, FieldTypes(env, d, typeArgs).value)
    case Dismantle(d, typeArgs) =>
      && vs[0].StructValue? && vs[0].handle == StructDefAt(env, d).structHandle && vs[0].typeArgs == typeArgs
      && |vs[0].fields| == FieldCount(env.m, d)
    case Read => vs[0].RefValue?
    case Write => vs[1].RefValue? && vs[1].isMutable && HasType(env, vs[0], vs[1].target)
    case Cast(_) => IsIntegerValue(vs[0])
    case Arithmetic => IsIntegerValue(vs[0]) && vs[0] == vs[1]
    case Shift => IsIntegerValue(vs[0]) && vs[1] == Scalar(U8)
    case Logic => vs[0] == Scalar(Bool) && vs[1] == Scalar(Bool)
    case Negate => vs[0] == Scalar(Bool)
    case Equality => exists t :: HasType(env, vs[0], t) && HasType(env, vs[1], t)
    case Compare => IsIntegerValue(vs[0]) && vs[0] == vs[1]
    case BorrowGlobal(_, _, _) => vs[0] == Scalar(Address)
    case CheckExists(_, _) => vs[0] == Scalar(Address)
    case TakeGlobal(_, _) => vs[0] == Scalar(Address)
    case PutGlobal(d, typeArgs) => vs[0] == RefValue(false, Signer) && HasType(env, vs[1], StructType(env, d, typeArgs))
    case AssembleVector(elem, _) => forall i | 0 <= i < |vs| :: HasType(env, vs[i], elem)
    case Length(elem) => RefersTo(vs[0], false, Vector(elem))
    case BorrowElement(isMutable, elem) => RefersTo(vs[0], isMutable, Vector(elem)) && vs[1] == Scalar(U64)
    case PushBack(elem) => RefersTo(vs[0], true, Vector(elem)) && HasType(env, vs[1], elem)
    case PopBack(elem) => RefersTo(vs[0], true, Vector(elem))
    case DismantleVector(elem, _) => HasType(env, vs[0], Vector(elem))
    case Swap(elem) => RefersTo(vs[0], true, Vector(elem)) && vs[1] == Scalar(U64) && vs[2] == Scalar(U64)
  }

  function FieldOwner(env: Env, field: nat): nat {
    Tables.Get(env.m.fieldHandles, field, FieldHandle(0, 0)).owner
  }

  ghost predicate OneOfType(env: Env, rs: seq<Value>, t: SignatureToken) {
    |rs| == 1 && HasType(env, rs[0], t)
  }

  /** The results that the machine may give; what it loads from memory is any value of the type of the place. */
  ghost predicate Gives(env: Env, op: Operation, vs: seq<Value>, rs: seq<Value>) {
    Fits(env, op, vs) &&
    match op
    case Discard | Condition | StoreLocal(_) | Stop | Return | Skip | Write | PutGlobal(_, _) | PushBack(_) | Swap(_) =>
      rs == []
    case Freeze => rs == [RefValue(false, vs[0].target)]
    case BorrowField(isMutable, field, typeArgs) => rs == [RefValue(isMutable, FieldType(env, field, typeArgs).value)]
    case Load(t) => rs == [Scalar(t)]
    case LoadConstant(t) => OneOfType(env, rs, t)
    case CopyLocal(i) => OneOfType(env, rs, LocalAt(env, i))
    case MoveLocal(i) => OneOfType(env, rs, LocalAt(env, i))
    case BorrowLocal(isMutable, i) => rs == [RefValue(isMutable, LocalAt(env, i))]
    case Invoke(_, results) => AllHaveType(env, rs, results)
    case Assemble(d, typeArgs) => rs == [StructValue(StructDefAt(env, d).structHandle, typeArgs, vs)]
    case Dismantle(_, _) => rs == vs[0].fields
    case Read => OneOfType(env, rs, vs[0].target)
    case Cast(t) => rs == [Scalar(t)]
    case Arithmetic => rs == [vs[0]]
    case Shift => rs == [vs[0]]
    case Logic | Negate | Equality | Compare | CheckExists(_, _) => rs == [Scalar(Bool)]
    case BorrowGlobal(isMutable, d, typeArgs) => rs == [RefValue(isMutable, StructType(env, d, typeArgs))]
    case TakeGlobal(d, typeArgs) => OneOfType(env, rs, StructType(env, d, typeArgs))
    case AssembleVector(_, _) => rs == [VectorValue(vs)]
    case Length(_) => rs == [Scalar(U64)]
    case BorrowElement(isMutable, elem) => rs == [RefValue(isMutable, elem)]
    case PopBack(elem) => OneOfType(env, rs, elem)
    case DismantleVector(_, count) => |vs[0].items| == count && rs == vs[0].items
  }

  // ---------------------------------------------------------------------------------------------
  // Soundness of the rules
  // ---------------------------------------------------------------------------------------------

  /** What the checks before promise: a struct is defined once, and definitions that are named exist. */
  predicate DefinitionsOk(env: Env) {
    TypeAbilities.DefinedOnce(env.m.structDefs)
  }

  predicate OperationOk(env: Env, op: Operation) {
    match op
    case Assemble(d, _) => d < |env.m.structDefs|
    case Dismantle(d, _) => d < |env.m.structDefs|
    case Load(t) => t.Bool? || IsInteger(t)
    case Cast(t) => IsInteger(t)
    case _ => true
  }

  /** The operands of a new vector have its element type; the checker does not compare them. */
  predicate ElementsOk(op: Operation, ts: seq<SignatureToken>) {
    op.AssembleVector? ==> forall i | 0 <= i < |ts| :: ts[i] == op.elem
  }

  lemma AssembledHasType(env: Env, d: nat, typeArgs: Signature, vs: seq<Value>)
    requires DefinitionsOk(env) && d < |env.m.structDefs|
    requires FieldTypes(env, d, typeArgs).Some? && AllHaveType(env, vs, FieldTypes(env, d, typeArgs).value)
    ensures HasType(env, StructValue(StructDefAt(env, d).structHandle, typeArgs, vs), StructType(env, d, typeArgs))
  {
    var v := StructValue(StructDefAt(env, d).structHandle, typeArgs, vs);
    StructHasType(env, v, v.handle, typeArgs);
  }

  lemma DismantledHasTypes(env: Env, d: nat, typeArgs: Signature, v: Value)
    requires d < |env.m.structDefs| && HasType(env, v, StructType(env, d, typeArgs))
    ensures v.StructValue? && v.handle == StructDefAt(env, d).structHandle && v.typeArgs == typeArgs
    ensures FieldTypes(env, d, typeArgs).Some? ==>
              AllHaveType(env, v.fields, FieldTypes(env, d, typeArgs).value) && |v.fields| == FieldCount(env.m, d)
  {
    StructHasType(env, v, StructDefAt(env, d).structHandle, typeArgs);
  }

  /** On operands that have the types which the rule accepts, the demands of the machine are met. */
  lemma RuleFits(env: Env, op: Operation, ts: seq<SignatureToken>, vs: seq<Value>)
    requires |ts| == OperationEffect(env, op).pops && Results(env, op, ts).Some? && AllHaveType(env, vs, ts)
    requires DefinitionsOk(env) && OperationOk(env, op) && ElementsOk(op, ts)
    ensures Fits(env, op, vs)
  {
    match op {
      case Dismantle(d, typeArgs) => DismantledHasTypes(env, d, typeArgs, vs[0]);
      case Equality => assert HasType(env, vs[0], ts[0]) && HasType(env, vs[1], ts[0]);
      case _ =>
    }
  }

  /** Operations whose results are made of the operands, or loaded from memory. */
  predicate MovesValues(op: Operation) {
    match op
    case Invoke(_, _) | Assemble(_, _) | Dismantle(_, _) | Read | TakeGlobal(_, _) | LoadConstant(_) => true
    case CopyLocal(_) | MoveLocal(_) | AssembleVector(_, _) | DismantleVector(_, _) | PopBack(_) => true
    case _ => false
  }

  lemma MovedHasType(env: Env, op: Operation, ts: seq<SignatureToken>, vs: seq<Value>, rs: seq<Value>)
    requires |ts| == OperationEffect(env, op).pops && Results(env, op, ts).Some? && AllHaveType(env, vs, ts)
    requires DefinitionsOk(env) && OperationOk(env, op) && ElementsOk(op, ts) && Gives(env, op, vs, rs)
      && MovesValues(op)
    ensures AllHaveType(env, rs, Results(env, op, ts).value)
  {
    match op {
      case Assemble(d, typeArgs) => AssembledHasType(env, d, typeArgs, vs);
      case Dismantle(d, typeArgs) => DismantledHasTypes(env, d, typeArgs, vs[0]);
      case _ =>
    }
  }

  /** Operations whose result is a new reference. */
  predicate MakesReference(op: Operation) {
    op.Freeze? || op.BorrowField? || op.BorrowLocal? || op.BorrowGlobal? || op.BorrowElement?
  }

  lemma ReferenceHasType(env: Env, op: Operation, ts: seq<SignatureToken>, vs: seq<Value>, rs: seq<Value>)
    requires |ts| == OperationEffect(env, op).pops && Results(env, op, ts).Some? && AllHaveType(env, vs, ts)
    requires Gives(env, op, vs, rs) && MakesReference(op)
    ensures AllHaveType(env, rs, Results(env, op, ts).value)
  {
  }

  lemma MadeHasType(env: Env, op: Operation, ts: seq<SignatureToken>, vs: seq<Value>, rs: seq<Value>)
    requires |ts| == OperationEffect(env, op).pops && Results(env, op, ts).Some? && AllHaveType(env, vs, ts)
    requires OperationOk(env, op) && Gives(env, op, vs, rs) && !MovesValues(op) && !MakesReference(op)
    ensures AllHaveType(env, rs, Results(env, op, ts).value)
  {
  }

  /** And its results have the types of the rule. */
  lemma RuleGives(env: Env, op: Operation, ts: seq<SignatureToken>, vs: seq<Value>, rs: seq<Value>)
    requires |ts| == OperationEffect(env, op).pops && Results(env, op, ts).Some? && AllHaveType(env, vs, ts)
    requires DefinitionsOk(env) && OperationOk(env, op) && ElementsOk(op, ts) && Gives(env, op, vs, rs)
    ensures AllHaveType(env, rs, Results(env, op, ts).value)
  {
    if MovesValues(op) {
      MovedHasType(env, op, ts, vs, rs);
    } else if MakesReference(op) {
      ReferenceHasType(env, op, ts, vs, rs);
    } else {
      MadeHasType(env, op, ts, vs, rs);
    }
  }

  // ---------------------------------------------------------------------------------------------
  // Whole runs
  // ---------------------------------------------------------------------------------------------

  ghost function ActionOf(env: Env, op: Operation): Action<Value> {
    Action((vs: seq<Value>) => Fits(env, op, vs), (vs: seq<Value>, rs: seq<Value>) => Gives(env, op, vs, rs))
  }

  ghost function ActionsOf(env: Env, code: seq<Bytecode>): (actions: seq<Action<Value>>)
    ensures |actions| == |code| && forall i | 0 <= i < |code| :: actions[i] == ActionOf(env, Decode(env, code[i]))
  {
    seq(|code|, i requires 0 <= i < |code| => ActionOf(env, Decode(env, code[i])))
  }

  ghost function Typing(env: Env): (Value, SignatureToken) -> bool {
    (v: Value, t: SignatureToken) => HasType(env, v, t)
  }

  lemma DecodedOk(env: Env, instr: Bytecode)
    requires InBounds(env.m, instr)
    ensures OperationOk(env, Decode(env, instr))
  {
  }

  lemma RuleIsSound(env: Env, op: Operation, ts: seq<SignatureToken>)
    requires |ts| == OperationEffect(env, op).pops && DefinitionsOk(env) && OperationOk(env, op) && ElementsOk(op, ts)
    ensures SoundOn(Typing(env), RuleOf(env, op), ActionOf(env, op), ts)
  {
    if Results(env, op, ts).Some? {
      forall vs | TypedBy(Typing(env), vs, ts)
        ensures Fits(env, op, vs)
        ensures forall rs | Gives(env, op, vs, rs) :: TypedBy(Typing(env), rs, Results(env, op, ts).value)
      {
        RuleFits(env, op, ts, vs);
        forall rs | Gives(env, op, vs, rs) ensures TypedBy(Typing(env), rs, Results(env, op, ts).value) {
          RuleGives(env, op, ts, vs, rs);
        }
      }
    }
  }

  /** Wherever a vector is made, its operands have its element type. */
  ghost predicate VectorsOk(env: Env, code: seq<Bytecode>, blocks: map<BlockId, BasicBlock>) {
    forall b, pc | b in blocks && b <= pc <= blocks[b].exit < |code| :: VectorOk(env, code, b, pc)
  }

  ghost predicate VectorOk(env: Env, code: seq<Bytecode>, b: nat, pc: nat)
    requires b <= pc < |code|
  {
    MadeOf(env, StackAt(TypeRulesOf(env, code), b, pc), Decode(env, code[pc]))
  }

  /** If a vector is made, then of operands on this stack that have its element type. */
  ghost predicate MadeOf(env: Env, ts: Option<seq<SignatureToken>>, op: Operation) {
    ts.Some? && OperationEffect(env, op).pops <= |ts.value| ==>
      ElementsOk(op, Operands(ts.value, OperationEffect(env, op).pops))
  }

  lemma RulesAt(env: Env, code: seq<Bytecode>, pc: nat)
    requires pc < |code|
    ensures TypeRulesOf(env, code)[pc] == RuleOf(env, Decode(env, code[pc]))
    ensures ActionsOf(env, code)[pc] == ActionOf(env, Decode(env, code[pc]))
  {
    assert RuleFor(env)(code[pc]) == RuleOf(env, Decode(env, code[pc]));
    assert TypeRulesOf(env, code)[pc] == RuleFor(env)(code[pc]);
  }

  lemma {:induction false} InstructionIsSound(env: Env, code: seq<Bytecode>, b: nat, pc: nat)
    requires CodeInBounds(env.m, code) && DefinitionsOk(env) && b <= pc < |code| && VectorOk(env, code, b, pc)
    ensures SoundAt(Typing(env), TypeRulesOf(env, code), ActionsOf(env, code), b, pc)
  {
    var op := Decode(env, code[pc]);
    var ts := StackAt(TypeRulesOf(env, code), b, pc);
    DecodedOk(env, code[pc]);
    RulesAt(env, code, pc);
    if ts.Some? && OperationEffect(env, op).pops <= |ts.value| {
      RuleIsSound(env, op, Operands(ts.value, OperationEffect(env, op).pops));
    }
  }

  lemma {:induction false} CodeIsSound(env: Env, code: seq<Bytecode>, blocks: map<BlockId, BasicBlock>)
    requires CodeInBounds(env.m, code) && DefinitionsOk(env) && VectorsOk(env, code, blocks)
    ensures AllSound(Typing(env), TypeRulesOf(env, code), ActionsOf(env, code), blocks)
  {
    forall b, pc | b in blocks && b <= pc <= blocks[b].exit < |code|
      ensures SoundAt(Typing(env), TypeRulesOf(env, code), ActionsOf(env, code), b, pc)
    {
      assert VectorOk(env, code, b, pc);
      InstructionIsSound(env, code, b, pc);
    }
  }

  /**
   Type safety: for code that passed the stack-usage and the type check, along every path from the entry, the values on
   the machine's stack have the types that the checker found, and no check of the machine ever fails. This needs vectors
   to be made of elements of their type, which the checker does not ensure.
   */
  lemma {:induction false} TypeSafe(
    env: Env, code: seq<Bytecode>, blocks: map<BlockId, BasicBlock>, path: seq<nat>, stacks: seq<seq<Value>>, k: nat)
    requires CodeInBounds(env.m, code) && BlocksOf(code, blocks) && DefinitionsOk(env)
    requires AllBalanced(EffectsOf(env.m, |env.return_|, code), blocks) && AllTyped(TypeRulesOf(env, code), blocks)
    requires VectorsOk(env, code, blocks)
    requires Path(code, path) && Run(EffectsOf(env.m, |env.return_|, code), ActionsOf(env, code), path, stacks)
    requires k < |path|
    ensures StackTyped(Typing(env), TypeRulesOf(env, code), blocks, path[k], stacks[k])
    ensures MeetsDemands(env, Decode(env, code[path[k]]), stacks[k])
  {
    RulesAreLawful(env, code);
    CodeIsSound(env, code, blocks);
    RunsAreTyped(Typing(env), code, blocks, TypeRulesOf(env, code), ActionsOf(env, code), path, stacks, k);
    TypedFits(Typing(env), blocks, TypeRulesOf(env, code), ActionsOf(env, code), path[k], stacks[k]);
  }

  /** There are enough operands on the stack, and they are what the machine demands. */
  ghost predicate MeetsDemands(env: Env, op: Operation, stack: seq<Value>) {
    && OperationEffect(env, op).pops <= |stack|
    && Fits(env, op, Operands(stack, OperationEffect(env, op).pops))
  }
}
