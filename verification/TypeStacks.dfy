/** Stacks of types under straight-line code, for any rules that say what an instruction does to its operands. */
module TypeStacks {
  import opened Bytecodes
  import opened ControlFlowGraphs
  import opened StackUsage
  import opened Wrappers

  /** An instruction: how many operands it takes, how many results it gives, and which types of results, if any. */
  datatype Rule<!T> = Rule(effect: Effect, results: seq<T> -> Option<seq<T>>)

  /** The rule gives as many results as it says. */
  ghost predicate Lawful<T(!new)>(rule: Rule<T>) {
    forall ts | |ts| == rule.effect.pops && rule.results(ts).Some? :: |rule.results(ts).value| == rule.effect.pushes
  }

  ghost predicate AllLawful<T(!new)>(rules: seq<Rule<T>>) {
    forall i | 0 <= i < |rules| :: Lawful(rules[i])
  }

  function Effects<T>(rules: seq<Rule<T>>): (effects: seq<Effect>)
    ensures |effects| == |rules| && forall i | 0 <= i < |rules| :: effects[i] == rules[i].effect
  {
    seq(|rules|, i requires 0 <= i < |rules| => rules[i].effect)
  }

  /** The stack after an instruction, unless it is refused. */
  function Step<T>(rule: Rule<T>, stack: seq<T>): Option<seq<T>>
    requires rule.effect.pops <= |stack|
  {
    var n := |stack| - rule.effect.pops;
    match rule.results(stack[n..])
    case None => None
    case Some(results) => Some(stack[..n] + results)
  }

  lemma {:induction false} StepHeight<T(!new)>(rule: Rule<T>, stack: seq<T>)
    requires Lawful(rule) && rule.effect.pops <= |stack| && Step(rule, stack).Some?
    ensures |Step(rule, stack).value| == |stack| - rule.effect.pops + rule.effect.pushes
  {
    assert rule.results(stack[|stack| - rule.effect.pops..]).Some?;
  }

  /** The stack when straight-line execution from `b` reaches `pc`, unless an instruction is refused. */
  function StackAt<T>(rules: seq<Rule<T>>, b: nat, pc: nat): Option<seq<T>>
    requires b <= pc <= |rules|
    decreases pc
  {
    if pc == b then Some([])
    else
      var before := StackAt(rules, b, pc - 1);
      if before.None? || |before.value| < rules[pc - 1].effect.pops then None
      else Step(rules[pc - 1], before.value)
  }

  lemma {:induction false} RefusalPersists<T>(rules: seq<Rule<T>>, b: nat, pc: nat, pc': nat)
    requires b <= pc <= pc' <= |rules| && StackAt(rules, b, pc).None?
    ensures StackAt(rules, b, pc').None?
  {
    if pc < pc' {
      RefusalPersists(rules, b, pc, pc' - 1);
    }
  }

  /** The stack of types is as high as the counter of the stack-usage check says, at every instruction. */
  lemma {:induction false} HeightsAgree<T(!new)>(rules: seq<Rule<T>>, b: nat, pc: nat)
    requires AllLawful(rules) && b <= pc <= |rules| && StackAt(rules, b, pc).Some?
    ensures Height(Effects(rules), b, pc) == Some(|StackAt(rules, b, pc).value|)
    decreases pc
  {
    if pc > b {
      HeightsAgree(rules, b, pc - 1);
      assert Lawful(rules[pc - 1]);
      NextHeightAgrees(rules, b, pc - 1);
    }
  }

  lemma {:induction false} NextHeightAgrees<T(!new)>(rules: seq<Rule<T>>, b: nat, pc: nat)
    requires b <= pc < |rules| && Lawful(rules[pc])
    requires StackAt(rules, b, pc).Some? && StackAt(rules, b, pc + 1).Some?
    requires Height(Effects(rules), b, pc) == Some(|StackAt(rules, b, pc).value|)
    ensures Height(Effects(rules), b, pc + 1) == Some(|StackAt(rules, b, pc + 1).value|)
  {
    var before := StackAt(rules, b, pc).value;
    StepHeight(rules[pc], before);
    HeightNext(Effects(rules), b, pc, |before|);
  }

  /** In a balanced block there are enough types to pop. */
  lemma {:induction false} EnoughTypes<T(!new)>(rules: seq<Rule<T>>, blocks: map<BlockId, BasicBlock>, b: BlockId,
                                                pc: nat)
    requires AllLawful(rules) && AllBalanced(Effects(rules), blocks)
    requires b in blocks && b <= pc <= blocks[b].exit < |rules| && StackAt(rules, b, pc).Some?
    ensures rules[pc].effect.pops <= |StackAt(rules, b, pc).value|
  {
    HeightsAgree(rules, b, pc);
    BlockStep(Effects(rules), blocks, b, pc);
  }

  /** At the end of a balanced block no types are left. */
  lemma {:induction false} BlockEnds<T(!new)>(rules: seq<Rule<T>>, blocks: map<BlockId, BasicBlock>, b: BlockId)
    requires AllLawful(rules) && AllBalanced(Effects(rules), blocks) && b in blocks
    requires b <= blocks[b].exit < |rules| && StackAt(rules, b, blocks[b].exit + 1).Some?
    ensures StackAt(rules, b, blocks[b].exit + 1).value == []
  {
    HeightsAgree(rules, b, blocks[b].exit + 1);
    assert BalancedAt(Effects(rules), blocks, b);
  }

  /** No instruction of the block is refused. */
  predicate BlockTyped<T>(rules: seq<Rule<T>>, b: BlockId, block: BasicBlock)
    requires b <= block.exit < |rules|
  {
    StackAt(rules, b, block.exit + 1).Some?
  }

  ghost predicate AllTyped<T>(rules: seq<Rule<T>>, blocks: map<BlockId, BasicBlock>) {
    forall b {:trigger TypedBlock(rules, blocks, b)} | b in blocks :: TypedBlock(rules, blocks, b)
  }

  ghost predicate TypedBlock<T>(rules: seq<Rule<T>>, blocks: map<BlockId, BasicBlock>, b: BlockId)
    requires b in blocks
  {
    b <= blocks[b].exit < |rules| && BlockTyped(rules, b, blocks[b])
  }

  /** In a block that is typed the stack is known at every instruction. */
  lemma {:induction false} TypedInside<T>(rules: seq<Rule<T>>, b: BlockId, block: BasicBlock, pc: nat)
    requires b <= pc <= block.exit < |rules| && BlockTyped(rules, b, block)
    ensures StackAt(rules, b, pc).Some? && StackAt(rules, b, pc + 1).Some?
  {
    if StackAt(rules, b, pc + 1).None? {
      RefusalPersists(rules, b, pc + 1, block.exit + 1);
    }
  }

  /** The rules of a piece of code. */
  function RulesOf<T>(rule: Bytecode -> Rule<T>, code: seq<Bytecode>): (rules: seq<Rule<T>>)
    ensures |rules| == |code| && forall i | 0 <= i < |code| :: rules[i] == rule(code[i])
  {
    seq(|code|, i requires 0 <= i < |code| => rule(code[i]))
  }

  /** There are enough types to pop. */
  ghost predicate EnoughAt<T>(rules: seq<Rule<T>>, b: nat, pc: nat)
    requires b <= pc < |rules|
  {
    StackAt(rules, b, pc).Some? ==> rules[pc].effect.pops <= |StackAt(rules, b, pc).value|
  }

  ghost predicate Enough<T>(rules: seq<Rule<T>>, b: BlockId, block: BasicBlock)
    requires b <= block.exit < |rules|
  {
    forall pc: nat | b <= pc <= block.exit :: EnoughAt(rules, b, pc)
  }

  lemma StackNext<T>(rules: seq<Rule<T>>, b: nat, pc: nat, stack: seq<T>)
    requires b <= pc < |rules| && StackAt(rules, b, pc) == Some(stack) && rules[pc].effect.pops <= |stack|
    ensures StackAt(rules, b, pc + 1) == Step(rules[pc], stack)
  {
  }

  /** The checker: one stack of types for all blocks, which are checked one after the other. */
  class TypeSafetyChecker<T(!new)> {
    const rule: Bytecode -> Rule<T>
    var stack: seq<T>

    constructor (rule: Bytecode -> Rule<T>)
      ensures this.rule == rule && stack == []
    {
      this.rule := rule;
      stack := [];
    }

    /** Checks an instruction, for which there are enough types to pop. */
    method VerifyInstr(instr: Bytecode) returns (ok: bool)
      requires rule(instr).effect.pops <= |stack|
      modifies this`stack
      ensures Step(rule(instr), old(stack)) == if ok then Some(stack) else None
    {
      var n := |stack| - rule(instr).effect.pops;
      var operands := stack[n..];
      stack := stack[..n];
      var results := rule(instr).results(operands);
      if results.None? {
        return false;
      }
      stack := stack + results.value;
      ok := true;
    }

    /** Checks the instructions of a block one after the other. */
    method VerifyInstrs(code: seq<Bytecode>, b: BlockId, block: BasicBlock, ghost rules: seq<Rule<T>>)
      returns (ok: bool)
      requires |rules| == |code| && forall i | 0 <= i < |code| :: rules[i] == rule(code[i])
      requires b <= block.exit < |code| && stack == [] && Enough(rules, b, block)
      modifies this`stack
      ensures ok <==> BlockTyped(rules, b, block)
      ensures ok ==> StackAt(rules, b, block.exit + 1) == Some(stack)
    {
      for i := b to block.exit + 1
        invariant StackAt(rules, b, i) == Some(stack)
      {
        assert EnoughAt(rules, b, i);
        StackNext(rules, b, i, stack);
        var accepted := VerifyInstr(code[i]);
        if !accepted {
          RefusalPersists(rules, b, i + 1, block.exit + 1);
          return false;
        }
      }
      ok := true;
    }

    /** Checks a block that finds the stack empty, and leaves it empty. */
    method VerifyBlock(code: seq<Bytecode>, b: BlockId, block: BasicBlock, ghost blocks: map<BlockId, BasicBlock>)
      returns (ok: bool)
      requires AllLawful(RulesOf(rule, code)) && AllBalanced(Effects(RulesOf(rule, code)), blocks)
      requires b in blocks && blocks[b] == block && b <= block.exit < |code| && stack == []
      modifies this`stack
      ensures ok <==> BlockTyped(RulesOf(rule, code), b, block)
      ensures ok ==> stack == []
    {
      ghost var rules := RulesOf(rule, code);
      forall i: nat | b <= i <= block.exit ensures EnoughAt(rules, b, i) {
        if StackAt(rules, b, i).Some? {
          EnoughTypes(rules, blocks, b, i);
        }
      }
      ok := VerifyInstrs(code, b, block, rules);
      if ok {
        BlockEnds(rules, blocks, b);
      }
    }

    /**
     Checks all blocks. After the stack-usage check there are always enough types to pop, and the one stack that all
     blocks share is empty at the start of each.
     */
    method Verify(code: seq<Bytecode>, blocks: map<BlockId, BasicBlock>) returns (ok: bool)
      requires AllLawful(RulesOf(rule, code)) && AllBalanced(Effects(RulesOf(rule, code)), blocks) && stack == []
      modifies this`stack
      ensures ok <==> AllTyped(RulesOf(rule, code), blocks)
    {
      ghost var rules := RulesOf(rule, code);
      var todo := blocks.Keys;
      while todo != {}
        invariant todo <= blocks.Keys && stack == []
        invariant forall b {:trigger TypedBlock(rules, blocks, b)} | b in blocks && b !in todo ::
          TypedBlock(rules, blocks, b)
      {
        var b :| b in todo;
        assert BalancedAt(Effects(rules), blocks, b);
        var typed := VerifyBlock(code, b, blocks[b], blocks);
        if !typed {
          assert !TypedBlock(rules, blocks, b);
          return false;
        }
        todo := todo - {b};
      }
      ok := true;
    }
  }
}
