/** The checks of a code unit, one after the other. */
module CodeUnits {
  import opened AbstractInterpreter
  import opened Bytecodes
  import opened ControlFlow
  import opened ControlFlowGraphs
  import opened StackUsage
  import opened TypeRules
  import opened TypeStacks
  import opened Wrappers
  import TypeSafety

  // ---------------------------------------------------------------------------------------------
  // The blocks are determined by the code
  // ---------------------------------------------------------------------------------------------

  /** A block does not end earlier in one graph than in another. */
  lemma EndsNoEarlier(
    code: seq<Bytecode>, blocks: map<BlockId, BasicBlock>, others: map<BlockId, BasicBlock>, b: BlockId)
    requires BlocksOf(code, blocks) && BlocksOf(code, others) && b in blocks && b in others
    ensures blocks[b].exit >= others[b].exit
  {
    var next := blocks[b].exit + 1;
    assert IsExit(blocks, blocks[b].exit);
    assert next < |code| ==> next in blocks && Starts(code, next) && next in others;
  }

  lemma SameBlocks(code: seq<Bytecode>, blocks: map<BlockId, BasicBlock>, others: map<BlockId, BasicBlock>)
    requires BlocksOf(code, blocks) && BlocksOf(code, others)
    ensures blocks.Keys == others.Keys && forall b | b in blocks :: blocks[b].exit == others[b].exit
  {
    forall b | b in blocks ensures b in others && blocks[b].exit == others[b].exit {
      assert Starts(code, b);
      EndsNoEarlier(code, blocks, others, b);
      EndsNoEarlier(code, others, blocks, b);
    }
    forall b | b in others ensures b in blocks {
      assert Starts(code, b);
    }
  }

  // ---------------------------------------------------------------------------------------------
  // Structure, stack usage and types
  // ---------------------------------------------------------------------------------------------

  /** What the checks of structure, stack usage and types together establish. */
  ghost predicate CodeOk(env: Env, code: seq<Bytecode>)
    requires CodeInBounds(env.m, code)
  {
    && Structured(code)
    && forall blocks | BlocksOf(code, blocks) :: BlocksOk(env, code, blocks)
  }

  ghost predicate BlocksOk(env: Env, code: seq<Bytecode>, blocks: map<BlockId, BasicBlock>)
    requires CodeInBounds(env.m, code)
  {
    AllBalanced(EffectsOf(env.m, |env.return_|, code), blocks) && AllTyped(TypeSafety.TypeRulesOf(env, code), blocks)
  }

  lemma {:induction false} SameBalance(
    effects: seq<Effect>, blocks: map<BlockId, BasicBlock>, others: map<BlockId, BasicBlock>)
    requires blocks.Keys == others.Keys && forall b | b in blocks :: blocks[b].exit == others[b].exit
    requires AllBalanced(effects, blocks)
    ensures AllBalanced(effects, others)
  {
    forall b | b in others ensures BalancedAt(effects, others, b) {
      assert BalancedAt(effects, blocks, b);
    }
  }

  lemma {:induction false} SameTypes<T>(
    rules: seq<Rule<T>>, blocks: map<BlockId, BasicBlock>, others: map<BlockId, BasicBlock>)
    requires blocks.Keys == others.Keys && forall b | b in blocks :: blocks[b].exit == others[b].exit
    requires AllTyped(rules, blocks)
    ensures AllTyped(rules, others)
  {
    forall b | b in others ensures TypedBlock(rules, others, b) {
      assert TypedBlock(rules, blocks, b);
    }
  }

  lemma AllBlocksOk(env: Env, code: seq<Bytecode>, blocks: map<BlockId, BasicBlock>)
    requires CodeInBounds(env.m, code) && BlocksOf(code, blocks) && BlocksOk(env, code, blocks)
    ensures forall others | BlocksOf(code, others) :: BlocksOk(env, code, others)
  {
    forall others | BlocksOf(code, others) ensures BlocksOk(env, code, others) {
      SameBlocks(code, blocks, others);
      SameBalance(EffectsOf(env.m, |env.return_|, code), blocks, others);
      SameTypes(TypeSafety.TypeRulesOf(env, code), blocks, others);
    }
  }

  /** Checks structure, then stack usage, then types. */
  method VerifyCommon(env: Env, code: seq<Bytecode>) returns (ok: bool)
    requires CodeInBounds(env.m, code) && OffsetsInRange(code) && |code| <= MAX_CODE_LENGTH
    ensures ok <==> CodeOk(env, code)
  {
    var status := ControlFlow.Verify(code);
    if status != Accepted {
      return false;
    }
    var cfg := New(code);
    var balanced := StackUsage.Verify(env.m, |env.return_|, code, cfg);
    if !balanced {
      return false;
    }
    ok := TypeSafety.Verify(env, code, cfg);
    if ok {
      AllBlocksOk(env, code, cfg.blocks);
    }
  }

  // ---------------------------------------------------------------------------------------------
  // Analyses
  // ---------------------------------------------------------------------------------------------

  /** Whatever run the machine makes, each configuration is described by the invariant of its block. */
  ghost predicate CoversRuns<S(!new), E, C(!new)>(
    code: seq<Bytecode>, cfg: VMControlFlowGraph, execute: Transfer<S, E>, init: S, inv: InvariantMap<S, E>,
    describes: (S, C) -> bool, step: AbstractInterpreter.Step<C>)
  {
    forall run: seq<Config<C>>, k: nat |
      IsRun(code, step, run) && describes(init, run[0].state) && AvoidsErrors(cfg, inv, run) && k < |run| ::
      DescribedAt(code, cfg, execute, describes, inv, run[k])
  }

  ghost predicate DescribedAt<S(!new), E, C(!new)>(
    code: seq<Bytecode>, cfg: VMControlFlowGraph, execute: Transfer<S, E>, describes: (S, C) -> bool,
    inv: InvariantMap<S, E>, config: Config<C>)
  {
    exists b: BlockId :: Describes(code, cfg, execute, describes, inv, config, b)
  }

  /**
   Analyzes the code if its structure is accepted. The analysis ends, and its result covers all runs of every machine
   that the transfer function describes.
   */
  method Analyze<S(!new), E, C(!new)>(
    code: seq<Bytecode>, ghost ok: S -> bool, join: Join<S>, execute: Transfer<S, E>,
    ghost leq: (S, S) -> bool, ghost rank: S -> nat, init: S,
    ghost describes: (S, C) -> bool, ghost step: AbstractInterpreter.Step<C>)
    returns (r: Option<(VMControlFlowGraph, InvariantMap<S, E>)>)
    requires OffsetsInRange(code) && |code| <= MAX_CODE_LENGTH
    requires FiniteHeight(ok, join, leq, rank) && StaysOk(ok, execute) && ok(init)
    ensures r.Some? <==> Structured(code)
    ensures r.Some? ==>
              && IsGraph(code, r.value.0) && Fixpoint(code, r.value.0, execute, leq, init, r.value.1)
              && AllMade(code, r.value.0, join, execute, init, r.value.1)
              && (LocallySound(code, ok, execute, leq, describes, step) ==>
                    CoversRuns(code, r.value.0, execute, init, r.value.1, describes, step))
  {
    var status := ControlFlow.Verify(code);
    if status != Accepted {
      return None;
    }
    var cfg := New(code);
    var inv := AnalyzeFunction(code, cfg, ok, join, execute, leq, rank, init);
    if LocallySound(code, ok, execute, leq, describes, step) {
      forall run: seq<Config<C>>, k: nat |
        IsRun(code, step, run) && describes(init, run[0].state) && AvoidsErrors(cfg, inv, run) && k < |run|
        ensures DescribedAt(code, cfg, execute, describes, inv, run[k])
      {
        var b := RunsStayInside(code, cfg, ok, execute, leq, init, inv, describes, step, run, k);
      }
    }
    r := Some((cfg, inv));
  }
}
