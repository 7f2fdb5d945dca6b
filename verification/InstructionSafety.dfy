/** Type safety of whole runs, instruction by instruction. */
module InstructionSafety {
  import opened Abilities
  import opened Bytecodes
  import opened ControlFlow
  import opened ControlFlowGraphs
  import opened FileFormat
  import opened InstructionMachine
  import opened RuleMeaning
  import opened StackUsage
  import opened TypeRules
  import opened TypeSafety
  import opened TypeStacks
  import opened TypedMachine
  import opened TypedRuns
  import opened ValueAbilities
  import TypeAbilities

  // ---------------------------------------------------------------------------------------------
  // Runs
  // ---------------------------------------------------------------------------------------------

  /** The instruction takes the top `n` of the stack, and puts the results in their place. */
  ghost predicate StepBy(
    env: Env, instr: Bytecode, stack: seq<Value>, stack': seq<Value>, n: nat, rs: seq<Value>)
  {
    && n <= |stack| && Demands(env, instr, stack[|stack| - n..])
    && Yields(env, instr, stack[|stack| - n..], rs) && stack' == stack[..|stack| - n] + rs
  }

  ghost predicate Step(env: Env, instr: Bytecode, stack: seq<Value>, stack': seq<Value>) {
    exists n, rs :: StepBy(env, instr, stack, stack', n, rs)
  }

  /** The instruction can be run: the operands on top of the stack are what it demands. */
  ghost predicate Ready(env: Env, instr: Bytecode, stack: seq<Value>) {
    exists n: nat :: ReadyWith(env, instr, stack, n)
  }

  ghost predicate ReadyWith(env: Env, instr: Bytecode, stack: seq<Value>, n: nat) {
    n <= |stack| && Demands(env, instr, stack[|stack| - n..])
  }

  /** A run along a path, from the empty stack. */
  ghost predicate RunsAlong(env: Env, code: seq<Bytecode>, path: seq<nat>, stacks: seq<seq<Value>>)
    requires Path(code, path)
  {
    && |stacks| == |path| && stacks[0] == []
    && forall k | 0 < k < |path| :: Step(env, code[path[k - 1]], stacks[k - 1], stacks[k])
  }

  lemma StepIsStep(
    env: Env, instr: Bytecode, effect: Effect, action: Action<Value>, stack: seq<Value>, stack': seq<Value>)
    requires effect == OperationEffect(env, Decode(env, instr)) && action == ActionOf(env, Decode(env, instr))
    requires Step(env, instr, stack, stack')
    ensures MachineStep(effect, action, stack, stack')
  {
    var n, rs :| StepBy(env, instr, stack, stack', n, rs);
    var vs := stack[|stack| - n..];
    DemandsAgree(env, instr, vs);
    ResultsAgree(env, instr, vs, rs);
    FitsTakes(env, Decode(env, instr), vs);
    assert Operands(stack, effect.pops) == vs;
    assert TypedRuns.Gives(effect, action, stack, stack', rs);
  }

  lemma FitsTakes(env: Env, op: Operation, vs: seq<Value>)
    requires Fits(env, op, vs)
    ensures |vs| == OperationEffect(env, op).pops
  {
  }

  lemma RunIsRun(env: Env, code: seq<Bytecode>, path: seq<nat>, stacks: seq<seq<Value>>)
    requires CodeInBounds(env.m, code) && Path(code, path) && RunsAlong(env, code, path, stacks)
    ensures Run(EffectsOf(env.m, |env.return_|, code), ActionsOf(env, code), path, stacks)
  {
    var effects, actions := EffectsOf(env.m, |env.return_|, code), ActionsOf(env, code);
    forall k | 0 < k < |path| ensures RunStep(effects, actions, path, stacks, k) {
      EffectsAgree(env, code[path[k - 1]]);
      StepIsStep(env, code[path[k - 1]], effects[path[k - 1]], actions[path[k - 1]], stacks[k - 1], stacks[k]);
    }
  }

  // ---------------------------------------------------------------------------------------------
  // Safety
  // ---------------------------------------------------------------------------------------------

  /** The code passed the checks; vectors, which the checker does not compare, are made of their elements. */
  ghost predicate Checked(env: Env, code: seq<Bytecode>, blocks: map<BlockId, BasicBlock>) {
    && CodeInBounds(env.m, code) && BlocksOf(code, blocks) && FieldsChecked(env.m)
    && AllBalanced(EffectsOf(env.m, |env.return_|, code), blocks) && AllTyped(TypeRulesOf(env, code), blocks)
    && VectorsOk(env, code, blocks)
  }

  lemma MetIsReady(env: Env, instr: Bytecode, stack: seq<Value>)
    requires MeetsDemands(env, Decode(env, instr), stack)
    ensures Ready(env, instr, stack)
  {
    var n := OperationEffect(env, Decode(env, instr)).pops;
    DemandsAgree(env, instr, Operands(stack, n));
    assert ReadyWith(env, instr, stack, n);
  }

  lemma AcceptedIsAllowed(env: Env, instr: Bytecode, ts: seq<SignatureToken>)
    requires |ts| == OperationEffect(env, Decode(env, instr)).pops && Results(env, Decode(env, instr), ts).Some?
    ensures PlaceAllowed(env, instr)
  {
    AcceptedUses(env, Decode(env, instr), ts);
    UsesAgree(env, instr, ts);
  }

  /**
   Along every run of accepted code: no instruction ever meets operands that it cannot take; whatever is put into, taken
   from, borrowed from or looked for in the storage has Key, what is copied Copy, and no reference is borrowed.
   */
  lemma {:induction false} InstructionsAreSafe(
    env: Env, code: seq<Bytecode>, blocks: map<BlockId, BasicBlock>, path: seq<nat>, stacks: seq<seq<Value>>, k: nat)
    requires Checked(env, code, blocks) && Path(code, path) && RunsAlong(env, code, path, stacks) && k < |path|
    ensures Ready(env, code[path[k]], stacks[k]) && PlaceAllowed(env, code[path[k]])
  {
    RunIsRun(env, code, path, stacks);
    TypeSafe(env, code, blocks, path, stacks, k);
    MetIsReady(env, code[path[k]], stacks[k]);
    var ts := OperandTypes(env, code, blocks, path[k], stacks[k]);
    AcceptedIsAllowed(env, code[path[k]], ts);
  }

  // ---------------------------------------------------------------------------------------------
  // Signers and references
  // ---------------------------------------------------------------------------------------------

  /** The one value holds the other, at any depth, as far as the module can see its fields. */
  ghost predicate Within(env: Env, v: Value, w: Value)
    decreases v
  {
    || v == w
    || match v
       case VectorValue(items) => exists i | 0 <= i < |items| :: Within(env, items[i], w)
       case StructValue(h, args, fields) =>
         exists d: nat, i | IsField(env, d, h, args, i) && i < |fields| :: Within(env, fields[i], w)
       case _ => false
  }

  /** The value holds no signer. */
  ghost predicate WithoutSigner(env: Env, v: Value) {
    !Within(env, v, Scalar(Signer))
  }

  /** And no reference. */
  ghost predicate Storable(env: Env, v: Value) {
    WithoutSigner(env, v) && forall w | Within(env, v, w) :: !w.RefValue?
  }

  lemma LeafAbilities(env: Env, v: Value, t: SignatureToken, a: Ability)
    requires HasType(env, v, t) && TypeHas(env, t, a)
    ensures v == Scalar(Signer) ==> a == Drop
    ensures v.RefValue? ==> a == Copy || a == Drop
  {
    TypeAbilities.HasIff(env.m.structHandles, t, env.typeParameters, a);
  }

  lemma {:induction false} NothingInside(env: Env, v: Value, t: SignatureToken, a: Ability, w: Value)
    requires AllTheWay(env, v, t, a) && Within(env, v, w)
    ensures w == Scalar(Signer) ==> a == Drop
    ensures w.RefValue? ==> a == Copy || a == Drop
    decreases v
  {
    LeafAbilities(env, v, t, a);
    if v != w {
      match v
      case VectorValue(items) =>
        var i :| 0 <= i < |items| && Within(env, items[i], w);
        NothingInside(env, items[i], t.elem, Requires(a), w);
      case StructValue(h, args, fields) =>
        var d: nat, i :| IsField(env, d, h, args, i) && i < |fields| && Within(env, fields[i], w);
        NothingInside(env, fields[i], FieldTypes(env, d, args).value[i], Requires(a), w);
      case _ =>
    }
  }

  lemma HoldsNoSigner(env: Env, v: Value, a: Ability)
    requires Holds(env, v, a) && a != Drop
    ensures WithoutSigner(env, v)
    ensures a != Copy ==> Storable(env, v)
  {
    var t :| AllTheWay(env, v, t, a);
    forall w | Within(env, v, w) ensures w != Scalar(Signer) && (a != Copy ==> !w.RefValue?) {
      NothingInside(env, v, t, a, w);
    }
  }

  function Top(stack: seq<Value>): Value
    requires stack != []
  {
    stack[|stack| - 1]
  }

  lemma CopiesHaveNoSigner(env: Env, instr: Bytecode, rs: seq<Value>)
    requires instr.CopyLoc? || instr.ReadRef?
    requires ResultsHold(env, Decode(env, instr), rs)
    ensures |rs| == 1 && WithoutSigner(env, rs[0])
  {
    HoldsNoSigner(env, rs[0], Copy);
  }

  lemma TakenIsStorable(env: Env, instr: Bytecode, rs: seq<Value>)
    requires instr.MoveFrom? || instr.MoveFromGeneric?
    requires ResultsHold(env, Decode(env, instr), rs)
    ensures |rs| == 1 && Storable(env, rs[0])
  {
    HoldsNoSigner(env, rs[0], Key);
  }

  lemma PutIsStorable(env: Env, instr: Bytecode, vs: seq<Value>)
    requires instr.MoveTo? || instr.MoveToGeneric?
    requires OperandsHold(env, Decode(env, instr), vs)
    ensures |vs| == 2 && Storable(env, vs[1])
  {
    HoldsNoSigner(env, vs[1], Key);
  }

  /** If the instruction puts the top of the stack into the storage, then it may. */
  ghost predicate PutIsClean(env: Env, instr: Bytecode, stack: seq<Value>) {
    instr.MoveTo? || instr.MoveToGeneric? ==> stack != [] && Storable(env, Top(stack))
  }

  /** The operands on the stack have the abilities that the instruction uses. */
  ghost predicate OperandsKept(env: Env, instr: Bytecode, stack: seq<Value>, pops: nat) {
    pops <= |stack| && OperandsHold(env, Decode(env, instr), stack[|stack| - pops..])
  }

  lemma OperandsAreClean(env: Env, instr: Bytecode, stack: seq<Value>, pops: nat)
    requires OperandsKept(env, instr, stack, pops)
    ensures PutIsClean(env, instr, stack)
  {
    if instr.MoveTo? || instr.MoveToGeneric? {
      PutIsStorable(env, instr, stack[|stack| - pops..]);
    }
  }

  /** What the instruction copied, or took from the storage, is now on top. */
  ghost predicate TopIsClean(env: Env, instr: Bytecode, stack: seq<Value>) {
    && (instr.CopyLoc? || instr.ReadRef? ==> stack != [] && WithoutSigner(env, Top(stack)))
    && (instr.MoveFrom? || instr.MoveFromGeneric? ==> stack != [] && Storable(env, Top(stack)))
  }

  /** And so have the results, above what was left. */
  ghost predicate ResultsKept(env: Env, instr: Bytecode, stack: seq<Value>, below: nat) {
    below <= |stack| && ResultsHold(env, Decode(env, instr), stack[below..])
  }

  lemma ResultsAreClean(env: Env, instr: Bytecode, stack: seq<Value>, below: nat)
    requires ResultsKept(env, instr, stack, below)
    ensures TopIsClean(env, instr, stack)
  {
    if instr.CopyLoc? || instr.ReadRef? {
      CopiesHaveNoSigner(env, instr, stack[below..]);
    } else if instr.MoveFrom? || instr.MoveFromGeneric? {
      TakenIsStorable(env, instr, stack[below..]);
    }
  }

  lemma {:induction false} RunKeeps(
    env: Env, code: seq<Bytecode>, blocks: map<BlockId, BasicBlock>, path: seq<nat>, stacks: seq<seq<Value>>, k: nat)
    returns (pops: nat)
    requires Checked(env, code, blocks) && Path(code, path) && RunsAlong(env, code, path, stacks) && k < |path|
    ensures OperandsKept(env, code[path[k]], stacks[k], pops)
    ensures k + 1 < |path| ==> ResultsKept(env, code[path[k]], stacks[k + 1], |stacks[k]| - pops)
  {
    RunIsRun(env, code, path, stacks);
    AbilitiesAreKept(env, code, blocks, path, stacks, k);
    pops := OperationEffect(env, Decode(env, code[path[k]])).pops;
  }

  /**
   Along every run of accepted code: no value that is copied or read holds a signer, and none that is put into the
   storage or taken from it a signer or a reference, at any depth.
   */
  lemma {:induction false} SignersStay(
    env: Env, code: seq<Bytecode>, blocks: map<BlockId, BasicBlock>, path: seq<nat>, stacks: seq<seq<Value>>, k: nat)
    requires Checked(env, code, blocks) && Path(code, path) && RunsAlong(env, code, path, stacks) && k < |path|
    ensures PutIsClean(env, code[path[k]], stacks[k])
    ensures k + 1 < |path| ==> TopIsClean(env, code[path[k]], stacks[k + 1])
  {
    var pops := RunKeeps(env, code, blocks, path, stacks, k);
    OperandsAreClean(env, code[path[k]], stacks[k], pops);
    if k + 1 < |path| {
      ResultsAreClean(env, code[path[k]], stacks[k + 1], |stacks[k]| - pops);
    }
  }
}
