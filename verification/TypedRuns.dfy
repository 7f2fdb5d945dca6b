/** Runs of a machine whose instructions keep to the type rules, along every path through the code. */
module TypedRuns {
  import opened Bytecodes
  import opened ControlFlow
  import opened ControlFlowGraphs
  import opened StackUsage
  import opened TypeStacks
  import opened Wrappers

  /** What a machine does for an instruction: what it demands of its operands, and which results it may give. */
  datatype Action<!V> = Action(fits: seq<V> -> bool, gives: (seq<V>, seq<V>) -> bool)

  ghost predicate TypedBy<V, T>(typed: (V, T) -> bool, vs: seq<V>, ts: seq<T>) {
    |vs| == |ts| && forall i | 0 <= i < |vs| :: typed(vs[i], ts[i])
  }

  /** On operands of the given types the machine's demands are met, and its results have the types of the rule. */
  ghost predicate SoundOn<V(!new), T>(typed: (V, T) -> bool, rule: Rule<T>, action: Action<V>, ts: seq<T>) {
    rule.results(ts).Some? ==>
      forall vs | TypedBy(typed, vs, ts) ::
        action.fits(vs) && forall rs | action.gives(vs, rs) :: TypedBy(typed, rs, rule.results(ts).value)
  }

  /** The operands of an instruction, on top of the stack. */
  function Operands<X>(stack: seq<X>, pops: nat): seq<X>
    requires pops <= |stack|
  {
    stack[|stack| - pops..]
  }

  ghost predicate MachineStep<V(!new)>(effect: Effect, action: Action<V>, stack: seq<V>, stack': seq<V>) {
    && effect.pops <= |stack|
    && action.fits(Operands(stack, effect.pops))
    && exists results :: Gives(effect, action, stack, stack', results)
  }

  ghost predicate Gives<V>(effect: Effect, action: Action<V>, stack: seq<V>, stack': seq<V>, results: seq<V>)
    requires effect.pops <= |stack|
  {
    action.gives(Operands(stack, effect.pops), results) && stack' == stack[..|stack| - effect.pops] + results
  }

  lemma TypedSplit<V, T>(typed: (V, T) -> bool, vs: seq<V>, ts: seq<T>, pops: nat)
    requires TypedBy(typed, vs, ts) && pops <= |ts|
    ensures TypedBy(typed, Operands(vs, pops), Operands(ts, pops))
    ensures TypedBy(typed, vs[..|vs| - pops], ts[..|ts| - pops])
  {
  }

  lemma TypedJoin<V, T>(typed: (V, T) -> bool, vs: seq<V>, ts: seq<T>, vs': seq<V>, ts': seq<T>)
    requires TypedBy(typed, vs, ts) && TypedBy(typed, vs', ts')
    ensures TypedBy(typed, vs + vs', ts + ts')
  {
  }

  /** One step keeps the types of the stack. */
  lemma {:induction false} StepKeepsTypes<V(!new), T>(
    typed: (V, T) -> bool, rule: Rule<T>, action: Action<V>, ts: seq<T>, vs: seq<V>, vs': seq<V>)
    requires rule.effect.pops <= |ts| && TypedBy(typed, vs, ts) && Step(rule, ts).Some?
    requires SoundOn(typed, rule, action, Operands(ts, rule.effect.pops)) && MachineStep(rule.effect, action, vs, vs')
    ensures TypedBy(typed, vs', Step(rule, ts).value)
  {
    var pops := rule.effect.pops;
    TypedSplit(typed, vs, ts, pops);
    var results :| Gives(rule.effect, action, vs, vs', results);
    assert action.gives(Operands(vs, pops), results);
    TypedJoin(typed, vs[..|vs| - pops], ts[..|ts| - pops], results, rule.results(Operands(ts, pops)).value);
  }

  /** On a typed stack the machine's demands for the next instruction are met. */
  lemma {:induction false} NextFits<V(!new), T>(
    typed: (V, T) -> bool, rule: Rule<T>, action: Action<V>, ts: seq<T>, vs: seq<V>)
    requires rule.effect.pops <= |ts| && TypedBy(typed, vs, ts) && Step(rule, ts).Some?
    requires SoundOn(typed, rule, action, Operands(ts, rule.effect.pops))
    ensures action.fits(Operands(vs, rule.effect.pops))
  {
    TypedSplit(typed, vs, ts, rule.effect.pops);
  }

  /** In every block every instruction is sound on the types that it finds. */
  ghost predicate AllSound<V(!new), T>(
    typed: (V, T) -> bool, rules: seq<Rule<T>>, actions: seq<Action<V>>, blocks: map<BlockId, BasicBlock>)
  {
    && |actions| == |rules|
    && forall b, pc | b in blocks && b <= pc <= blocks[b].exit < |rules| :: SoundAt(typed, rules, actions, b, pc)
  }

  ghost predicate SoundAt<V(!new), T>(
    typed: (V, T) -> bool, rules: seq<Rule<T>>, actions: seq<Action<V>>, b: nat, pc: nat)
    requires b <= pc < |rules| == |actions|
  {
    var ts := StackAt(rules, b, pc);
    ts.Some? && rules[pc].effect.pops <= |ts.value| ==>
      SoundOn(typed, rules[pc], actions[pc], Operands(ts.value, rules[pc].effect.pops))
  }

  /** A run: the stack at every instruction of the path, from the empty one. */
  ghost predicate Run<V(!new)>(effects: seq<Effect>, actions: seq<Action<V>>, path: seq<nat>, stacks: seq<seq<V>>) {
    && |stacks| == |path| > 0 && |effects| == |actions| && (forall k | 0 <= k < |path| :: path[k] < |effects|)
    && stacks[0] == []
    && forall k | 0 < k < |path| :: RunStep(effects, actions, path, stacks, k)
  }

  ghost predicate RunStep<V(!new)>(
    effects: seq<Effect>, actions: seq<Action<V>>, path: seq<nat>, stacks: seq<seq<V>>, k: nat)
    requires 0 < k < |path| == |stacks| && path[k - 1] < |effects| == |actions|
  {
    MachineStep(effects[path[k - 1]], actions[path[k - 1]], stacks[k - 1], stacks[k])
  }

  /** The values on the stack have the types that the checker found at this instruction. */
  ghost predicate TypedAt<V(!new), T(!new)>(
    typed: (V, T) -> bool, rules: seq<Rule<T>>, blocks: map<BlockId, BasicBlock>, b: BlockId, pc: nat, stack: seq<V>)
  {
    && b in blocks && b <= pc <= blocks[b].exit < |rules|
    && StackAt(rules, b, pc).Some? && TypedBy(typed, stack, StackAt(rules, b, pc).value)
  }

  /** The code was accepted, and its instructions are sound. */
  ghost predicate Accepted<V(!new), T(!new)>(
    typed: (V, T) -> bool, rules: seq<Rule<T>>, actions: seq<Action<V>>, blocks: map<BlockId, BasicBlock>)
  {
    && AllLawful(rules) && AllBalanced(Effects(rules), blocks) && AllTyped(rules, blocks)
    && AllSound(typed, rules, actions, blocks)
  }

  /** What holds at the entry and is kept by every step holds at every instruction of every run. */
  lemma {:induction false} RunInduction<V(!new)>(
    holds: (nat, seq<V>) -> bool, code: seq<Bytecode>, effects: seq<Effect>, actions: seq<Action<V>>,
    path: seq<nat>, stacks: seq<seq<V>>, k: nat)
    requires Path(code, path) && Run(effects, actions, path, stacks) && |effects| == |code| && k < |path|
    requires holds(0, []) && forall pc, next, vs, vs' :: Keeps(holds, code, effects, actions, pc, next, vs, vs')
    ensures holds(path[k], stacks[k])
    decreases k
  {
    if k > 0 {
      RunInduction(holds, code, effects, actions, path, stacks, k - 1);
      assert RunStep(effects, actions, path, stacks, k) && PathStep(code, path, k);
      assert Keeps(holds, code, effects, actions, path[k - 1], path[k], stacks[k - 1], stacks[k]);
    }
  }

  ghost predicate Keeps<V(!new)>(
    holds: (nat, seq<V>) -> bool, code: seq<Bytecode>, effects: seq<Effect>, actions: seq<Action<V>>,
    pc: nat, next: nat, vs: seq<V>, vs': seq<V>)
  {
    && holds(pc, vs) && pc < |code| == |effects| == |actions| && next < |code| && Edge(code, pc, next)
    && MachineStep(effects[pc], actions[pc], vs, vs')
    ==> holds(next, vs')
  }

  /** The values on the stack have the types that the checker found at this instruction, in some block. */
  ghost predicate StackTyped<V(!new), T(!new)>(
    typed: (V, T) -> bool, rules: seq<Rule<T>>, blocks: map<BlockId, BasicBlock>, pc: nat, stack: seq<V>)
  {
    exists b: BlockId :: TypedAt(typed, rules, blocks, b, pc, stack)
  }

  /** Along every path, at every instruction, the values on the stack have the types that the checker found there. */
  lemma {:induction false} RunsAreTyped<V(!new), T(!new)>(
    typed: (V, T) -> bool, code: seq<Bytecode>, blocks: map<BlockId, BasicBlock>, rules: seq<Rule<T>>,
    actions: seq<Action<V>>, path: seq<nat>, stacks: seq<seq<V>>, k: nat)
    requires BlocksOf(code, blocks) && |rules| == |code| && Accepted(typed, rules, actions, blocks)
    requires Path(code, path) && Run(Effects(rules), actions, path, stacks) && k < |path|
    ensures StackTyped(typed, rules, blocks, path[k], stacks[k])
  {
    var holds := (pc: nat, vs: seq<V>) => StackTyped(typed, rules, blocks, pc, vs);
    EntryIsTyped(typed, code, blocks, rules, []);
    forall pc, next, vs, vs' ensures Keeps(holds, code, Effects(rules), actions, pc, next, vs, vs') {
      StepKeepsTyped(typed, code, blocks, rules, actions, pc, next, vs, vs');
    }
    RunInduction(holds, code, Effects(rules), actions, path, stacks, k);
  }

  lemma {:induction false} StepKeepsTyped<V(!new), T(!new)>(
    typed: (V, T) -> bool, code: seq<Bytecode>, blocks: map<BlockId, BasicBlock>, rules: seq<Rule<T>>,
    actions: seq<Action<V>>, pc: nat, next: nat, vs: seq<V>, vs': seq<V>)
    requires BlocksOf(code, blocks) && |rules| == |code| && Accepted(typed, rules, actions, blocks)
    ensures Keeps(
              (pc: nat, vs: seq<V>) => StackTyped(typed, rules, blocks, pc, vs),
              code, Effects(rules), actions, pc, next, vs, vs')
  {
    if StackTyped(typed, rules, blocks, pc, vs) && pc < |code| == |actions| && next < |code| && Edge(code, pc, next)
       && MachineStep(Effects(rules)[pc], actions[pc], vs, vs')
    {
      var a: BlockId :| TypedAt(typed, rules, blocks, a, pc, vs);
      var b := NextIsTyped(typed, code, blocks, rules, actions, a, pc, next, vs, vs');
    }
  }

  lemma {:induction false} EntryIsTyped<V(!new), T(!new)>(
    typed: (V, T) -> bool, code: seq<Bytecode>, blocks: map<BlockId, BasicBlock>, rules: seq<Rule<T>>, stack: seq<V>)
    requires BlocksOf(code, blocks) && |rules| == |code| > 0 && stack == []
    ensures TypedAt(typed, rules, blocks, ENTRY_BLOCK_ID, 0, stack)
  {
  }

  /** The next instruction, in the same block or at the start of another one, finds a typed stack again. */
  lemma {:induction false} NextIsTyped<V(!new), T(!new)>(
    typed: (V, T) -> bool, code: seq<Bytecode>, blocks: map<BlockId, BasicBlock>, rules: seq<Rule<T>>,
    actions: seq<Action<V>>, a: BlockId, pc: nat, next: nat, vs: seq<V>, vs': seq<V>)
    returns (b: BlockId)
    requires BlocksOf(code, blocks) && |rules| == |code| && Accepted(typed, rules, actions, blocks)
    requires TypedAt(typed, rules, blocks, a, pc, vs) && next < |code| && Edge(code, pc, next)
    requires MachineStep(rules[pc].effect, actions[pc], vs, vs')
    ensures TypedAt(typed, rules, blocks, b, next, vs')
  {
    b := StepToBlock(code, blocks, a, pc, next);
    StepStaysTyped(typed, blocks, rules, actions, a, pc, vs, vs');
  }

  /** The types of the operands that the checker found, and accepted. */
  lemma {:induction false} AcceptedOperands<V(!new), T(!new)>(
    typed: (V, T) -> bool, blocks: map<BlockId, BasicBlock>, rules: seq<Rule<T>>, pc: nat, stack: seq<V>)
    returns (ts: seq<T>)
    requires AllLawful(rules) && AllBalanced(Effects(rules), blocks) && AllTyped(rules, blocks)
    requires StackTyped(typed, rules, blocks, pc, stack)
    ensures pc < |rules| && |ts| == rules[pc].effect.pops <= |stack| && rules[pc].results(ts).Some?
    ensures TypedBy(typed, Operands(stack, rules[pc].effect.pops), ts)
  {
    var b: BlockId :| TypedAt(typed, rules, blocks, b, pc, stack);
    assert TypedBlock(rules, blocks, b);
    TypedInside(rules, b, blocks[b], pc);
    EnoughTypes(rules, blocks, b, pc);
    var all := StackAt(rules, b, pc).value;
    StackNext(rules, b, pc, all);
    ts := Operands(all, rules[pc].effect.pops);
    TypedSplit(typed, stack, all, rules[pc].effect.pops);
  }

  /** Where the values have the types that the checker found, they meet what the machine demands of the operands. */
  lemma {:induction false} TypedFits<V(!new), T(!new)>(
    typed: (V, T) -> bool, blocks: map<BlockId, BasicBlock>, rules: seq<Rule<T>>, actions: seq<Action<V>>,
    pc: nat, stack: seq<V>)
    requires Accepted(typed, rules, actions, blocks) && StackTyped(typed, rules, blocks, pc, stack)
    ensures pc < |rules| == |actions|
    ensures rules[pc].effect.pops <= |stack| && actions[pc].fits(Operands(stack, rules[pc].effect.pops))
  {
    var b: BlockId :| TypedAt(typed, rules, blocks, b, pc, stack);
    assert TypedBlock(rules, blocks, b);
    TypedInside(rules, b, blocks[b], pc);
    EnoughTypes(rules, blocks, b, pc);
    assert SoundAt(typed, rules, actions, b, pc);
    NextFits(typed, rules[pc], actions[pc], StackAt(rules, b, pc).value, stack);
  }

  lemma {:induction false} StepStaysTyped<V(!new), T(!new)>(
    typed: (V, T) -> bool, blocks: map<BlockId, BasicBlock>, rules: seq<Rule<T>>, actions: seq<Action<V>>,
    b: BlockId, pc: nat, vs: seq<V>, vs': seq<V>)
    requires Accepted(typed, rules, actions, blocks) && TypedAt(typed, rules, blocks, b, pc, vs)
    requires MachineStep(rules[pc].effect, actions[pc], vs, vs')
    ensures StackAt(rules, b, pc + 1).Some? && TypedBy(typed, vs', StackAt(rules, b, pc + 1).value)
    ensures pc == blocks[b].exit ==> vs' == []
  {
    assert TypedBlock(rules, blocks, b);
    TypedInside(rules, b, blocks[b], pc);
    EnoughTypes(rules, blocks, b, pc);
    assert SoundAt(typed, rules, actions, b, pc);
    StepKeepsTypes(typed, rules[pc], actions[pc], StackAt(rules, b, pc).value, vs, vs');
    if pc == blocks[b].exit {
      BlockEnds(rules, blocks, b);
    }
  }
}
