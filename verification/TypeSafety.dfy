/** The type checker: one stack of types for all blocks, which it checks one after the other. */
module TypeSafety {
  import opened Bytecodes
  import opened ControlFlowGraphs
  import opened FileFormat
  import opened StackUsage
  import opened TypeRules
  import opened TypeStacks
  import opened Wrappers

  function RuleOf(env: Env, op: Operation): Rule<SignatureToken> {
    Rule(
      OperationEffect(env, op),
      (ts: seq<SignatureToken>) => if |ts| == OperationEffect(env, op).pops then Results(env, op, ts) else None)
  }

  lemma RuleIsLawful(env: Env, op: Operation)
    ensures Lawful(RuleOf(env, op))
  {
    var rule := RuleOf(env, op);
    forall ts | |ts| == rule.effect.pops && rule.results(ts).Some?
      ensures |rule.results(ts).value| == rule.effect.pushes
    {
      ResultCount(env, op, ts);
    }
  }

  /** The rule of every instruction. */
  function RuleFor(env: Env): Bytecode -> Rule<SignatureToken> {
    (instr: Bytecode) => RuleOf(env, Decode(env, instr))
  }

  function TypeRulesOf(env: Env, code: seq<Bytecode>): seq<Rule<SignatureToken>> {
    RulesOf(RuleFor(env), code)
  }

  /** The rules give as many results as they say, and take and give as many as the stack-usage check counts. */
  lemma RulesAreLawful(env: Env, code: seq<Bytecode>)
    requires CodeInBounds(env.m, code)
    ensures AllLawful(TypeRulesOf(env, code))
      && Effects(TypeRulesOf(env, code)) == EffectsOf(env.m, |env.return_|, code)
  {
    forall i | 0 <= i < |code|
      ensures Lawful(TypeRulesOf(env, code)[i])
      ensures Effects(TypeRulesOf(env, code))[i] == EffectsOf(env.m, |env.return_|, code)[i]
    {
      RuleIsLawful(env, Decode(env, code[i]));
      EffectsAgree(env, code[i]);
    }
  }

  /** Checks the types of a function that passed the stack-usage check. */
  method Verify(env: Env, code: seq<Bytecode>, cfg: VMControlFlowGraph) returns (ok: bool)
    requires CodeInBounds(env.m, code) && AllBalanced(EffectsOf(env.m, |env.return_|, code), cfg.blocks)
    ensures ok <==> AllTyped(TypeRulesOf(env, code), cfg.blocks)
  {
    RulesAreLawful(env, code);
    var checker := new TypeSafetyChecker(RuleFor(env));
    ok := checker.Verify(code, cfg.blocks);
  }
}
