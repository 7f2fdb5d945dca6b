/** What the abilities of types mean for values: what is dropped, copied or stored may be, all the way down. */
module ValueAbilities {
  import opened Abilities
  import opened Bytecodes
  import opened ControlFlow
  import opened ControlFlowGraphs
  import opened FileFormat
  import opened StackUsage
  import opened TypeRules
  import opened TypeSafety
  import opened TypeStacks
  import opened TypedRuns
  import opened TypedMachine
  import opened Wrappers
  import TypeAbilities

  /**
   The value has a type with ability `a`, and every value in it, at any depth, has one with the ability that `a`
   requires; as far as the module can see its fields.
   */
  ghost predicate AllTheWay(env: Env, v: Value, t: SignatureToken, a: Ability)
    decreases v
  {
    && HasType(env, v, t) && TypeHas(env, t, a)
    && match v
       case VectorValue(items) =>
         forall i | 0 <= i < |items| :: t.Vector? && AllTheWay(env, items[i], t.elem, Requires(a))
       case StructValue(h, args, fields) =>
         forall d: nat, i | IsField(env, d, h, args, i) ::
           i < |fields| && AllTheWay(env, fields[i], FieldTypes(env, d, args).value[i], Requires(a))
       case _ => true
  }

  /** Definition `d` is that of the struct, and has a field number `i`. */
  ghost predicate IsField(env: Env, d: nat, handle: nat, args: Signature, i: int) {
    && d < |env.m.structDefs| && env.m.structDefs[d].structHandle == handle
    && FieldTypes(env, d, args).Some? && 0 <= i < |FieldTypes(env, d, args).value|
  }

  ghost predicate Holds(env: Env, v: Value, a: Ability) {
    exists t :: AllTheWay(env, v, t, a)
  }

  /** The checks on the fields of the module were passed. */
  predicate FieldsChecked(m: CompiledModule) {
    && TypeAbilities.DefinitionsWellFormed(m) && TypeAbilities.DefinedOnce(m.structDefs)
    && TypeAbilities.VerifyFieldAbilities(m) && TypeAbilities.VerifyPhantoms(m)
  }

  lemma ItemHas(env: Env, elem: SignatureToken, a: Ability)
    requires TypeHas(env, Vector(elem), a)
    ensures TypeHas(env, elem, Requires(a))
  {
    TypeAbilities.VectorHas(env.m.structHandles, elem, env.typeParameters, a);
  }

  lemma FieldHas(env: Env, t: SignatureToken, d: nat, h: nat, args: Signature, i: nat, a: Ability)
    requires FieldsChecked(env.m) && IsField(env, d, h, args, i) && TypeHas(env, t, a)
    requires (t == Struct(h) && args == []) || t == StructInstantiation(h, args)
    ensures TypeHas(env, FieldTypes(env, d, args).value[i], Requires(a))
  {
    var table := TypeAbilities.ModuleTable(env.m);
    var inner := FieldTypes(env, d, args).value[i];
    TypeAbilities.ModuleFieldsOk(env.m);
    TypeAbilities.DeclaredAt(env.m.structDefs, |env.m.structDefs|, d);
    assert inner == TypeAbilities.Instantiate(table.fields[h][i], TypeAbilities.TypeArguments(t));
    TypeAbilities.ContainedHas(table, t, inner, env.typeParameters, a);
  }

  /** A value of a type with an ability holds nothing, at any depth, that lacks what the ability requires. */
  lemma {:induction false} HasAllTheWay(env: Env, v: Value, t: SignatureToken, a: Ability)
    requires FieldsChecked(env.m) && HasType(env, v, t) && TypeHas(env, t, a)
    ensures AllTheWay(env, v, t, a)
    decreases v
  {
    match v
    case VectorValue(items) =>
      forall i | 0 <= i < |items| ensures t.Vector? && AllTheWay(env, items[i], t.elem, Requires(a)) {
        ItemHas(env, t.elem, a);
        HasAllTheWay(env, items[i], t.elem, Requires(a));
      }
    case StructValue(h, args, fields) =>
      forall d: nat, i | IsField(env, d, h, args, i)
        ensures i < |fields| && AllTheWay(env, fields[i], FieldTypes(env, d, args).value[i], Requires(a))
      {
        FieldHas(env, t, d, h, args, i, a);
        assert FieldsTyped(env, v);
        HasAllTheWay(env, fields[i], FieldTypes(env, d, args).value[i], Requires(a));
      }
    case _ =>
  }

  // ---------------------------------------------------------------------------------------------
  // Operations
  // ---------------------------------------------------------------------------------------------

  /** What is discarded or overwritten may be dropped, and what is put into storage may be stored. */
  ghost predicate OperandsHold(env: Env, op: Operation, vs: seq<Value>) {
    |vs| == OperationEffect(env, op).pops &&
    match op
    case Discard => Holds(env, vs[0], Drop)
    case Equality => Holds(env, vs[0], Drop) && Holds(env, vs[1], Drop)
    case Write => vs[1].RefValue? && forall was | HasType(env, was, vs[1].target) :: Holds(env, was, Drop)
    case PutGlobal(_, _) => Holds(env, vs[1], Key)
    case _ => true
  }

  /** What is copied may be copied, and what is taken from storage may be stored. */
  ghost predicate ResultsHold(env: Env, op: Operation, rs: seq<Value>) {
    match op
    case CopyLocal(_) => |rs| == 1 && Holds(env, rs[0], Copy)
    case Read => |rs| == 1 && Holds(env, rs[0], Copy)
    case TakeGlobal(_, _) => |rs| == 1 && Holds(env, rs[0], Key)
    case _ => true
  }

  lemma RuleHoldsOperands(env: Env, op: Operation, ts: seq<SignatureToken>, vs: seq<Value>)
    requires FieldsChecked(env.m) && |ts| == OperationEffect(env, op).pops
    requires Results(env, op, ts).Some? && AllHaveType(env, vs, ts)
    ensures OperandsHold(env, op, vs)
  {
    match op {
      case Discard => HasAllTheWay(env, vs[0], ts[0], Drop);
      case Equality => {
        HasAllTheWay(env, vs[0], ts[0], Drop);
        HasAllTheWay(env, vs[1], ts[1], Drop);
      }
      case Write => {
        forall was | HasType(env, was, vs[1].target) ensures Holds(env, was, Drop) {
          HasAllTheWay(env, was, ts[1].inner, Drop);
        }
      }
      case PutGlobal(_, _) => HasAllTheWay(env, vs[1], ts[1], Key);
      case _ =>
    }
  }

  lemma RuleHoldsResults(env: Env, op: Operation, ts: seq<SignatureToken>, vs: seq<Value>, rs: seq<Value>)
    requires FieldsChecked(env.m) && |ts| == OperationEffect(env, op).pops
    requires Results(env, op, ts).Some? && AllHaveType(env, vs, ts) && TypedMachine.Gives(env, op, vs, rs)
    ensures ResultsHold(env, op, rs)
  {
    match op {
      case CopyLocal(i) => HasAllTheWay(env, rs[0], LocalAt(env, i), Copy);
      case Read => HasAllTheWay(env, rs[0], ts[0].inner, Copy);
      case TakeGlobal(d, typeArgs) => HasAllTheWay(env, rs[0], StructType(env, d, typeArgs), Key);
      case _ =>
    }
  }

  // ---------------------------------------------------------------------------------------------
  // Whole runs
  // ---------------------------------------------------------------------------------------------

  /** The types of the operands that the checker found, and accepted. */
  lemma OperandTypes(env: Env, code: seq<Bytecode>, blocks: map<BlockId, BasicBlock>, pc: nat, stack: seq<Value>)
    returns (ts: seq<SignatureToken>)
    requires CodeInBounds(env.m, code)
    requires AllBalanced(EffectsOf(env.m, |env.return_|, code), blocks) && AllTyped(TypeRulesOf(env, code), blocks)
    requires StackTyped(Typing(env), TypeRulesOf(env, code), blocks, pc, stack)
    ensures pc < |code|
    ensures var op := Decode(env, code[pc]);
            var pops := OperationEffect(env, op).pops;
            && |ts| == pops <= |stack| && Results(env, op, ts).Some?
            && AllHaveType(env, Operands(stack, pops), ts)
  {
    RulesAreLawful(env, code);
    ts := AcceptedOperands(Typing(env), blocks, TypeRulesOf(env, code), pc, stack);
    RulesAt(env, code, pc);
    RuleAccepts(env, Decode(env, code[pc]), ts);
  }

  lemma RuleAccepts(env: Env, op: Operation, ts: seq<SignatureToken>)
    requires |ts| == RuleOf(env, op).effect.pops && RuleOf(env, op).results(ts).Some?
    ensures |ts| == OperationEffect(env, op).pops && Results(env, op, ts).Some?
  {
  }

  /**
   Along every run of accepted code: no value that is discarded or overwritten holds one without Drop, no value that is
   copied one without Copy, and no value that is moved to or from storage one without Store, at any depth.
   */
  lemma {:induction false} AbilitiesAreKept(
    env: Env, code: seq<Bytecode>, blocks: map<BlockId, BasicBlock>, path: seq<nat>, stacks: seq<seq<Value>>, k: nat)
    requires CodeInBounds(env.m, code) && BlocksOf(code, blocks) && FieldsChecked(env.m)
    requires AllBalanced(EffectsOf(env.m, |env.return_|, code), blocks) && AllTyped(TypeRulesOf(env, code), blocks)
    requires VectorsOk(env, code, blocks)
    requires Path(code, path) && Run(EffectsOf(env.m, |env.return_|, code), ActionsOf(env, code), path, stacks)
    requires k < |path|
    ensures var op := Decode(env, code[path[k]]);
            var pops := OperationEffect(env, op).pops;
            && pops <= |stacks[k]| && OperandsHold(env, op, Operands(stacks[k], pops))
            && (k + 1 < |path| ==>
                  && |stacks[k]| - pops <= |stacks[k + 1]|
                  && ResultsHold(env, op, stacks[k + 1][|stacks[k]| - pops..]))
  {
    TypeSafe(env, code, blocks, path, stacks, k);
    var ts := OperandTypes(env, code, blocks, path[k], stacks[k]);
    var op := Decode(env, code[path[k]]);
    var vs := Operands(stacks[k], OperationEffect(env, op).pops);
    RuleHoldsOperands(env, op, ts, vs);
    if k + 1 < |path| {
      var rs := StepResults(env, code, path, stacks, k + 1);
      RuleHoldsResults(env, op, ts, vs, rs);
    }
  }

  lemma StepResults(env: Env, code: seq<Bytecode>, path: seq<nat>, stacks: seq<seq<Value>>, k: nat)
    returns (rs: seq<Value>)
    requires CodeInBounds(env.m, code) && Path(code, path)
    requires Run(EffectsOf(env.m, |env.return_|, code), ActionsOf(env, code), path, stacks) && 0 < k < |path|
    ensures var op := Decode(env, code[path[k - 1]]);
            var pops := OperationEffect(env, op).pops;
            && pops <= |stacks[k - 1]| && |stacks[k - 1]| - pops <= |stacks[k]|
            && rs == stacks[k][|stacks[k - 1]| - pops..]
            && TypedMachine.Gives(env, op, Operands(stacks[k - 1], pops), rs)
  {
    var effects, actions := EffectsOf(env.m, |env.return_|, code), ActionsOf(env, code);
    var pc := path[k - 1];
    assert RunStep(effects, actions, path, stacks, k);
    RulesAreLawful(env, code);
    RulesAt(env, code, pc);
    rs :| TypedRuns.Gives(effects[pc], actions[pc], stacks[k - 1], stacks[k], rs);
    assert effects[pc] == TypeRulesOf(env, code)[pc].effect;
  }
}
