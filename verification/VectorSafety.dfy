/** The one instruction for which the type checker is not sound: it does not compare the elements of a new vector. */
module VectorSafety {
  import opened Abilities
  import opened Bytecodes
  import opened ControlFlow
  import opened ControlFlowGraphs
  import opened FileFormat
  import opened StackUsage
  import opened TypeAbilities
  import opened TypeRules
  import opened TypeSafety
  import opened TypeStacks
  import opened TypedMachine
  import opened TypedRuns
  import opened Wrappers

  // ---------------------------------------------------------------------------------------------
  // Types and their values
  // ---------------------------------------------------------------------------------------------

  /** There are values of the type; for a vector, with elements. */
  ghost predicate Populated(env: Env, t: SignatureToken) {
    match t
    case Vector(elem) => Populated(env, elem)
    case _ => exists v :: HasType(env, v, t)
  }

  lemma {:induction false} SomeValue(env: Env, t: SignatureToken) returns (v: Value)
    requires Populated(env, t)
    ensures HasType(env, v, t)
  {
    if t.Vector? {
      v := VectorValue([]);
    } else {
      v :| HasType(env, v, t);
    }
  }

  lemma {:induction false} SomeValues(env: Env, ts: seq<SignatureToken>) returns (vs: seq<Value>)
    requires forall i | 0 <= i < |ts| :: Populated(env, ts[i])
    ensures AllHaveType(env, vs, ts)
    decreases |ts|
  {
    if ts == [] {
      vs := [];
    } else {
      var v := SomeValue(env, ts[0]);
      var rest := SomeValues(env, ts[1..]);
      vs := [v] + rest;
    }
  }

  /** Every value of the one type has the other. */
  ghost predicate Included(env: Env, t: SignatureToken, u: SignatureToken) {
    forall v | HasType(env, v, t) :: HasType(env, v, u)
  }

  lemma OneType(env: Env, v: Value, t: SignatureToken, u: SignatureToken)
    requires HasType(env, v, t) && HasType(env, v, u) && !t.Vector?
    ensures t == u
  {
  }

  /** A type is included in no other. */
  lemma {:induction false} IncludedIsEqual(env: Env, t: SignatureToken, u: SignatureToken)
    requires Populated(env, t) && Included(env, t, u)
    ensures t == u
    decreases t
  {
    if t.Vector? {
      var w := SomeValue(env, t.elem);
      assert HasType(env, VectorValue([w]), t) && HasType(env, VectorValue([w]), u);
      forall v | HasType(env, v, t.elem) ensures HasType(env, v, u.elem) {
        assert HasType(env, VectorValue([v]), t) && HasType(env, VectorValue([v]), u);
        assert VectorValue([v]).items[0] == v;
      }
      IncludedIsEqual(env, t.elem, u.elem);
    } else {
      var v := SomeValue(env, t);
      OneType(env, v, t, u);
    }
  }

  /** A value of a type that does not have the other. */
  lemma Stranger(env: Env, t: SignatureToken, u: SignatureToken) returns (v: Value)
    requires Populated(env, t) && t != u
    ensures HasType(env, v, t) && !HasType(env, v, u)
  {
    if Included(env, t, u) {
      IncludedIsEqual(env, t, u);
    }
    v :| HasType(env, v, t) && !HasType(env, v, u);
  }

  // ---------------------------------------------------------------------------------------------
  // The exact condition
  // ---------------------------------------------------------------------------------------------

  /** A new vector has its type exactly if all its elements have theirs. */
  lemma VectorHasTypeIff(env: Env, vs: seq<Value>, elem: SignatureToken)
    ensures HasType(env, VectorValue(vs), Vector(elem)) <==> forall i | 0 <= i < |vs| :: HasType(env, vs[i], elem)
  {
  }

  lemma Unfit(env: Env, elem: SignatureToken, vs: seq<Value>, i: nat)
    requires i < |vs| && !HasType(env, vs[i], elem)
    ensures !Fits(env, AssembleVector(elem, |vs|), vs)
  {
  }

  /** Operands of other types than the element type, and values of them that the machine refuses. */
  lemma Refused(env: Env, elem: SignatureToken, ts: seq<SignatureToken>, i: nat) returns (vs: seq<Value>)
    requires (forall i | 0 <= i < |ts| :: Populated(env, ts[i])) && i < |ts| && ts[i] != elem
    ensures AllHaveType(env, vs, ts) && !Fits(env, AssembleVector(elem, |ts|), vs)
  {
    vs := SomeValues(env, ts);
    var v := Stranger(env, ts[i], elem);
    vs := vs[i := v];
    Unfit(env, elem, vs, i);
  }

  /** The rule for new vectors is sound exactly on operands that have the element type. */
  lemma VectorSoundIff(env: Env, elem: SignatureToken, ts: seq<SignatureToken>)
    requires forall i | 0 <= i < |ts| :: Populated(env, ts[i])
    ensures var op := AssembleVector(elem, |ts|);
            SoundOn(Typing(env), RuleOf(env, op), ActionOf(env, op), ts) <==> forall i | 0 <= i < |ts| :: ts[i] == elem
  {
    var op := AssembleVector(elem, |ts|);
    if i :| 0 <= i < |ts| && ts[i] != elem {
      var vs := Refused(env, elem, ts, i);
      assert TypedBy(Typing(env), vs, ts) && !ActionOf(env, op).fits(vs);
      assert RuleOf(env, op).results(ts) == Some([Vector(elem)]);
    } else {
      forall vs | TypedBy(Typing(env), vs, ts)
        ensures Fits(env, op, vs)
        ensures forall rs | TypedMachine.Gives(env, op, vs, rs) :: TypedBy(Typing(env), rs, [Vector(elem)])
      {
        assert forall i | 0 <= i < |vs| :: Typing(env)(vs[i], ts[i]);
        VectorHasTypeIff(env, vs, elem);
      }
    }
  }

  /** All types that the checker finds on the stack are populated. */
  ghost predicate StacksPopulated(env: Env, code: seq<Bytecode>, blocks: map<BlockId, BasicBlock>) {
    forall b, pc | b in blocks && b <= pc <= blocks[b].exit < |code| :: StackPopulated(env, code, b, pc)
  }

  ghost predicate StackPopulated(env: Env, code: seq<Bytecode>, b: nat, pc: nat)
    requires b <= pc < |code|
  {
    var ts := StackAt(TypeRulesOf(env, code), b, pc);
    ts.Some? ==> forall i | 0 <= i < |ts.value| :: Populated(env, ts.value[i])
  }

  /** What the machine demands at an instruction is met. */
  ghost predicate MetAt(env: Env, code: seq<Bytecode>, pc: nat, stack: seq<Value>) {
    pc < |code| && MeetsDemands(env, Decode(env, code[pc]), stack)
  }

  ghost predicate FoundAt(
    env: Env, code: seq<Bytecode>, blocks: map<BlockId, BasicBlock>, b: BlockId, pc: nat, stack: seq<Value>)
  {
    TypedAt(Typing(env), TypeRulesOf(env, code), blocks, b, pc, stack)
  }

  /** On every stack that has the types which the checker found, the demands of the machine are met. */
  ghost predicate DemandsMet(env: Env, code: seq<Bytecode>, blocks: map<BlockId, BasicBlock>) {
    forall b, pc, stack | FoundAt(env, code, blocks, b, pc, stack) :: MetAt(env, code, pc, stack)
  }

  lemma AllHaveTypes(
    env: Env, vs: seq<Value>, ts: seq<SignatureToken>, vs': seq<Value>, ts': seq<SignatureToken>)
    requires AllHaveType(env, vs, ts) && AllHaveType(env, vs', ts')
    ensures AllHaveType(env, vs + vs', ts + ts')
  {
  }

  lemma NotMet(env: Env, op: Operation, below: seq<Value>, above: seq<Value>)
    requires |above| == OperationEffect(env, op).pops && !Fits(env, op, above)
    ensures !MeetsDemands(env, op, below + above)
  {
    assert Operands(below + above, |above|) == above;
  }

  lemma NotMade(env: Env, op: Operation, ts: seq<SignatureToken>) returns (i: nat)
    requires !MadeOf(env, Some(ts), op)
    ensures op.AssembleVector? && i < op.count <= |ts| && Operands(ts, op.count)[i] != op.elem
  {
    i :| 0 <= i < op.count && Operands(ts, op.count)[i] != op.elem;
  }

  /** Where an operand of a new vector has another type, there is a stack that the machine refuses. */
  lemma RefusedOn(env: Env, elem: SignatureToken, count: nat, ts: seq<SignatureToken>, i: nat)
    returns (stack: seq<Value>)
    requires i < count <= |ts| && Operands(ts, count)[i] != elem && forall i | 0 <= i < |ts| :: Populated(env, ts[i])
    ensures AllHaveType(env, stack, ts) && !MeetsDemands(env, AssembleVector(elem, count), stack)
  {
    var rest, operands := ts[..|ts| - count], Operands(ts, count);
    var below := SomeValues(env, rest);
    var above := Refused(env, elem, operands, i);
    AllHaveTypes(env, below, rest, above, operands);
    NotMet(env, AssembleVector(elem, count), below, above);
    assert ts == rest + operands;
    stack := below + above;
  }

  lemma RefusedStack(env: Env, op: Operation, ts: seq<SignatureToken>) returns (stack: seq<Value>)
    requires !MadeOf(env, Some(ts), op) && forall i | 0 <= i < |ts| :: Populated(env, ts[i])
    ensures AllHaveType(env, stack, ts) && !MeetsDemands(env, op, stack)
  {
    var i := NotMade(env, op, ts);
    stack := RefusedOn(env, op.elem, op.count, ts, i);
  }

  lemma {:induction false} RefusedAt(env: Env, code: seq<Bytecode>, b: nat, pc: nat) returns (stack: seq<Value>)
    requires b <= pc < |code| && StackPopulated(env, code, b, pc) && !VectorOk(env, code, b, pc)
    ensures StackAt(TypeRulesOf(env, code), b, pc).Some?
    ensures AllHaveType(env, stack, StackAt(TypeRulesOf(env, code), b, pc).value) && !MetAt(env, code, pc, stack)
  {
    stack := RefusedStack(env, Decode(env, code[pc]), StackAt(TypeRulesOf(env, code), b, pc).value);
  }

  lemma {:induction false} StackIsFound(
    env: Env, code: seq<Bytecode>, blocks: map<BlockId, BasicBlock>, b: BlockId, pc: nat, stack: seq<Value>)
    requires b in blocks && b <= pc <= blocks[b].exit < |code|
    requires StackAt(TypeRulesOf(env, code), b, pc).Some?
    requires AllHaveType(env, stack, StackAt(TypeRulesOf(env, code), b, pc).value)
    ensures FoundAt(env, code, blocks, b, pc, stack)
  {
  }

  lemma {:induction false} VectorNeededAt(
    env: Env, code: seq<Bytecode>, blocks: map<BlockId, BasicBlock>, b: BlockId, pc: nat)
    requires b in blocks && b <= pc <= blocks[b].exit < |code|
    requires StackPopulated(env, code, b, pc) && DemandsMet(env, code, blocks)
    ensures VectorOk(env, code, b, pc)
  {
    if !VectorOk(env, code, b, pc) {
      var stack := RefusedAt(env, code, b, pc);
      StackIsFound(env, code, blocks, b, pc, stack);
    }
  }

  lemma {:induction false} VectorsNeeded(env: Env, code: seq<Bytecode>, blocks: map<BlockId, BasicBlock>)
    requires StacksPopulated(env, code, blocks) && DemandsMet(env, code, blocks)
    ensures VectorsOk(env, code, blocks)
  {
    forall b, pc | b in blocks && b <= pc <= blocks[b].exit < |code| ensures VectorOk(env, code, b, pc) {
      assert StackPopulated(env, code, b, pc);
      VectorNeededAt(env, code, blocks, b, pc);
    }
  }

  lemma {:induction false} VectorsSuffice(env: Env, code: seq<Bytecode>, blocks: map<BlockId, BasicBlock>)
    requires CodeInBounds(env.m, code) && DefinitionsOk(env)
    requires AllBalanced(EffectsOf(env.m, |env.return_|, code), blocks) && AllTyped(TypeRulesOf(env, code), blocks)
    requires VectorsOk(env, code, blocks)
    ensures DemandsMet(env, code, blocks)
  {
    RulesAreLawful(env, code);
    CodeIsSound(env, code, blocks);
    forall b, pc, stack | FoundAt(env, code, blocks, b, pc, stack) ensures MetAt(env, code, pc, stack) {
      FoundIsMet(env, code, blocks, b, pc, stack);
    }
  }

  /**
   The exact condition for accepted code: the machine never refuses operands that have the types which the checker
   found, if and only if every new vector is made of operands of its element type.
   */
  lemma {:induction false} DemandsMetIff(env: Env, code: seq<Bytecode>, blocks: map<BlockId, BasicBlock>)
    requires CodeInBounds(env.m, code) && DefinitionsOk(env)
    requires AllBalanced(EffectsOf(env.m, |env.return_|, code), blocks) && AllTyped(TypeRulesOf(env, code), blocks)
    requires StacksPopulated(env, code, blocks)
    ensures DemandsMet(env, code, blocks) <==> VectorsOk(env, code, blocks)
  {
    if VectorsOk(env, code, blocks) {
      VectorsSuffice(env, code, blocks);
    } else if DemandsMet(env, code, blocks) {
      VectorsNeeded(env, code, blocks);
    }
  }

  lemma {:induction false} FoundIsMet(
    env: Env, code: seq<Bytecode>, blocks: map<BlockId, BasicBlock>, b: BlockId, pc: nat, stack: seq<Value>)
    requires TypedRuns.Accepted(Typing(env), TypeRulesOf(env, code), ActionsOf(env, code), blocks)
    requires FoundAt(env, code, blocks, b, pc, stack)
    ensures MetAt(env, code, pc, stack)
  {
    TypedFits(Typing(env), blocks, TypeRulesOf(env, code), ActionsOf(env, code), pc, stack);
    RulesAt(env, code, pc);
  }

  // ---------------------------------------------------------------------------------------------
  // Accepted code that goes wrong
  // ---------------------------------------------------------------------------------------------

  /** Makes a vector of truth values out of a number, and drops it. */
  const MIXED := [LdU8(0), VecPack(0, 1), Pop, Ret]

  const MIXED_BLOCKS: map<BlockId, BasicBlock> := map[0 := BasicBlock(3, [])]

  /** A function that returns nothing, in a module whose first signature is that of truth values. */
  ghost predicate ForMixed(env: Env) {
    env.return_ == [] && ElementType(env, 0) == Bool && DefinitionsOk(env)
  }

  lemma MixedBlocks()
    ensures BlocksOf(MIXED, MIXED_BLOCKS)
  {
  }

  lemma MixedEffects(m: CompiledModule)
    ensures CodeInBounds(m, MIXED)
    ensures var effects := EffectsOf(m, 0, MIXED);
            && |effects| == 4 && effects[0] == Effect(0, 1) && effects[1] == Effect(1, 1)
            && effects[2] == Effect(1, 0) && effects[3] == Effect(0, 0)
  {
  }

  lemma MixedBalanced(effects: seq<Effect>)
    requires |effects| == 4 && effects[0] == Effect(0, 1) && effects[1] == Effect(1, 1)
    requires effects[2] == Effect(1, 0) && effects[3] == Effect(0, 0)
    ensures AllBalanced(effects, MIXED_BLOCKS)
  {
    HeightNext(effects, 0, 0, 0);
    HeightNext(effects, 0, 1, 1);
    HeightNext(effects, 0, 2, 1);
    HeightNext(effects, 0, 3, 0);
    assert BalancedAt(effects, MIXED_BLOCKS, 0);
  }

  lemma VectorsCanBeDropped(env: Env)
    ensures TypeHas(env, Vector(Bool), Drop)
  {
    VectorHas(env.m.structHandles, Bool, env.typeParameters, Drop);
  }

  /** The next stack, when all of the stack are operands. */
  lemma MixedNext(
    env: Env, rules: seq<Rule<SignatureToken>>, pc: nat, op: Operation, before: Signature, after: Signature)
    requires pc < |rules| && StackAt(rules, 0, pc) == Some(before) && rules[pc] == RuleOf(env, op)
    requires |before| == OperationEffect(env, op).pops && Results(env, op, before) == Some(after)
    ensures StackAt(rules, 0, pc + 1) == Some(after)
  {
    assert before[0..] == before && before[..0] + after == after;
  }

  lemma FirstStacks(env: Env, rules: seq<Rule<SignatureToken>>)
    requires |rules| == 4 && rules[0] == RuleOf(env, Load(U8)) && rules[1] == RuleOf(env, AssembleVector(Bool, 1))
    ensures StackAt(rules, 0, 2) == Some([Vector(Bool)])
  {
    MixedNext(env, rules, 0, Load(U8), [], [U8]);
    MixedNext(env, rules, 1, AssembleVector(Bool, 1), [U8], [Vector(Bool)]);
  }

  lemma LastStacks(env: Env, rules: seq<Rule<SignatureToken>>)
    requires |rules| == 4 && rules[2] == RuleOf(env, Discard) && rules[3] == RuleOf(env, Return) && env.return_ == []
    requires StackAt(rules, 0, 2) == Some([Vector(Bool)])
    ensures StackAt(rules, 0, 4) == Some([])
  {
    VectorsCanBeDropped(env);
    MixedNext(env, rules, 2, Discard, [Vector(Bool)], []);
    MixedNext(env, rules, 3, Return, [], []);
  }

  /** The rules of the four instructions. */
  ghost predicate MixedRules(env: Env, rules: seq<Rule<SignatureToken>>) {
    && |rules| == 4
    && rules[0] == RuleOf(env, Load(U8)) && rules[1] == RuleOf(env, AssembleVector(Bool, 1))
    && rules[2] == RuleOf(env, Discard) && rules[3] == RuleOf(env, Return)
  }

  lemma MixedTypedBy(env: Env, rules: seq<Rule<SignatureToken>>)
    requires MixedRules(env, rules) && env.return_ == []
    ensures AllTyped(rules, MIXED_BLOCKS)
  {
    FirstStacks(env, rules);
    LastStacks(env, rules);
    assert TypedBlock(rules, MIXED_BLOCKS, 0);
  }

  lemma RuleAt(env: Env, code: seq<Bytecode>, pc: nat, op: Operation)
    requires pc < |code| && Decode(env, code[pc]) == op
    ensures |TypeRulesOf(env, code)| == |code| && TypeRulesOf(env, code)[pc] == RuleOf(env, op)
    ensures ActionsOf(env, code)[pc] == ActionOf(env, op)
  {
    RulesAt(env, code, pc);
  }

  lemma MixedDecoded(env: Env, code: seq<Bytecode>)
    requires code == MIXED && ForMixed(env)
    ensures Decode(env, code[0]) == Load(U8) && Decode(env, code[1]) == AssembleVector(Bool, 1)
    ensures Decode(env, code[2]) == Discard && Decode(env, code[3]) == Return
  {
  }

  lemma MixedRulesAre(env: Env, code: seq<Bytecode>)
    requires |code| == 4
    requires Decode(env, code[0]) == Load(U8) && Decode(env, code[1]) == AssembleVector(Bool, 1)
    requires Decode(env, code[2]) == Discard && Decode(env, code[3]) == Return
    ensures MixedRules(env, TypeRulesOf(env, code)) && ActionsOf(env, code)[0] == ActionOf(env, Load(U8))
  {
    RuleAt(env, code, 0, Load(U8));
    RuleAt(env, code, 1, AssembleVector(Bool, 1));
    RuleAt(env, code, 2, Discard);
    RuleAt(env, code, 3, Return);
  }

  /** The run that loads the number. */
  const MIXED_PATH := [0, 1]
  const MIXED_STACKS: seq<seq<Value>> := [[], [Scalar(U8)]]

  lemma LoadsNumber(env: Env)
    ensures MachineStep(Effect(0, 1), ActionOf(env, Load(U8)), [], [Scalar(U8)])
  {
    var action, none: seq<Value> := ActionOf(env, Load(U8)), [];
    assert Operands(none, 0) == none && action.gives(none, [Scalar(U8)]);
    assert TypedRuns.Gives(Effect(0, 1), action, none, [Scalar(U8)], [Scalar(U8)]);
  }

  lemma MixedRun(effects: seq<Effect>, actions: seq<Action<Value>>)
    requires |effects| == |actions| == 4 && MachineStep(effects[0], actions[0], [], [Scalar(U8)])
    ensures Path(MIXED, MIXED_PATH) && Run(effects, actions, MIXED_PATH, MIXED_STACKS)
  {
    assert Edge(MIXED, 0, 1);
    assert RunStep(effects, actions, MIXED_PATH, MIXED_STACKS, 1);
  }

  lemma MixedRefused(env: Env, vs: seq<Value>)
    requires vs == [Scalar(U8)]
    ensures !MeetsDemands(env, AssembleVector(Bool, 1), vs)
  {
    NoBool(env);
    Unfit(env, Bool, vs, 0);
    AllAreOperands(env, AssembleVector(Bool, 1), vs);
  }

  lemma AllAreOperands(env: Env, op: Operation, vs: seq<Value>)
    requires |vs| == OperationEffect(env, op).pops && !Fits(env, op, vs)
    ensures !MeetsDemands(env, op, vs)
  {
    assert Operands(vs, |vs|) == vs;
  }

  lemma NoBool(env: Env)
    ensures !HasType(env, Scalar(U8), Bool)
  {
  }

  /** The code passes the stack-usage and the type check. */
  ghost predicate Passes(env: Env, code: seq<Bytecode>, blocks: map<BlockId, BasicBlock>) {
    && BlocksOf(code, blocks) && CodeInBounds(env.m, code)
    && AllBalanced(EffectsOf(env.m, |env.return_|, code), blocks) && AllTyped(TypeRulesOf(env, code), blocks)
  }

  ghost predicate Runs(env: Env, code: seq<Bytecode>, path: seq<nat>, stacks: seq<seq<Value>>) {
    CodeInBounds(env.m, code) && Path(code, path)
      && Run(EffectsOf(env.m, |env.return_|, code), ActionsOf(env, code), path, stacks)
  }

  /** The code passes the checks, and has a run that comes to an instruction which is refused. */
  lemma ElementsAreNotChecked(env: Env, code: seq<Bytecode>)
    requires code == MIXED && ForMixed(env)
    ensures Passes(env, code, MIXED_BLOCKS) && Runs(env, code, MIXED_PATH, MIXED_STACKS)
    ensures !MetAt(env, code, 1, MIXED_STACKS[1])
  {
    MixedBlocks();
    MixedEffects(env.m);
    MixedBalanced(EffectsOf(env.m, 0, code));
    MixedDecoded(env, code);
    MixedRulesAre(env, code);
    MixedTypedBy(env, TypeRulesOf(env, code));
    LoadsNumber(env);
    MixedRun(EffectsOf(env.m, 0, code), ActionsOf(env, code));
    MixedRefused(env, MIXED_STACKS[1]);
  }

  /** There is such a function. */
  lemma MixedExists()
    ensures exists env :: ForMixed(env)
  {
    var m := CompiledModule(5, 0, [], [], [], [], [], [], [], [], [[Bool]], [], [], [], [], []);
    assert ForMixed(Env(m, [], [], [], []));
  }
}
