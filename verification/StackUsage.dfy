/** The check that basic blocks use the operand stack in a balanced manner. */
module StackUsage {
  import opened Bytecodes
  import opened ControlFlow
  import opened ControlFlowGraphs
  import opened FileFormat
  import opened Tables
  import opened Wrappers

  /** The number of operands an instruction pops and the number it pushes. */
  datatype Effect = Effect(pops: nat, pushes: nat)

  /** What the bounds checker guarantees of the tables behind the indices of an instruction. */
  predicate InBounds(m: CompiledModule, instr: Bytecode) {
    match instr
    case Call(f) => HandleInBounds(m, f)
    case CallGeneric(i) => i < |m.functionInstantiations| && HandleInBounds(m, m.functionInstantiations[i].handle)
    case Pack(d) => d < |m.structDefs|
    case Unpack(d) => d < |m.structDefs|
    case PackGeneric(i) => i < |m.structInstantiations| && m.structInstantiations[i].def < |m.structDefs|
    case UnpackGeneric(i) => i < |m.structInstantiations| && m.structInstantiations[i].def < |m.structDefs|
    case _ => true
  }

  predicate HandleInBounds(m: CompiledModule, f: nat) {
    && f < |m.functionHandles|
    && m.functionHandles[f].parameters < |m.signatures| && m.functionHandles[f].return_ < |m.signatures|
  }

  predicate CodeInBounds(m: CompiledModule, code: seq<Bytecode>) {
    forall i | 0 <= i < |code| :: InBounds(m, code[i])
  }

  function CallEffect(m: CompiledModule, f: nat): Effect
    requires HandleInBounds(m, f)
  {
    Effect(|m.signatures[m.functionHandles[f].parameters]|, |m.signatures[m.functionHandles[f].return_]|)
  }

  function FieldCount(m: CompiledModule, d: nat): nat {
    match Get(m.structDefs, d, StructDefinition(0, Native)).fieldInformation
    case Native => 0
    case Declared(fields) => |fields|
  }

  /** The effect of an instruction of a function that returns `returnCount` values. */
  function InstructionEffect(m: CompiledModule, returnCount: nat, instr: Bytecode): Effect
    requires InBounds(m, instr)
  {
    match instr
    case Pop | BrTrue(_) | BrFalse(_) | StLoc(_) | Abort => Effect(1, 0)
    case LdU8(_) | LdU64(_) | LdU128(_) | LdTrue | LdFalse | LdConst(_) | CopyLoc(_) | MoveLoc(_)
      | MutBorrowLoc(_) | ImmBorrowLoc(_) => Effect(0, 1)
    case Not | FreezeRef | ReadRef | Exists(_) | ExistsGeneric(_) | MutBorrowGlobal(_) | MutBorrowGlobalGeneric(_)
      | ImmBorrowGlobal(_) | ImmBorrowGlobalGeneric(_) | MutBorrowField(_) | MutBorrowFieldGeneric(_)
      | ImmBorrowField(_) | ImmBorrowFieldGeneric(_) | MoveFrom(_) | MoveFromGeneric(_)
      | CastU8 | CastU64 | CastU128 | VecLen(_) | VecPopBack(_) => Effect(1, 1)
    case Add | Sub | Mul | Mod | Div | BitOr | BitAnd | Xor | Shl | Shr | Or | And
      | Eq | Neq | Lt | Gt | Le | Ge => Effect(2, 1)
    case VecPack(_, count) => Effect(count, 1)
    case VecUnpack(_, count) => Effect(1, count)
    case VecImmBorrow(_) | VecMutBorrow(_) => Effect(2, 1)
    case MoveTo(_) | MoveToGeneric(_) | WriteRef | VecPushBack(_) => Effect(2, 0)
    case VecSwap(_) => Effect(3, 0)
    case Branch(_) | Nop => Effect(0, 0)
    case Ret => Effect(returnCount, 0)
    case Call(f) => CallEffect(m, f)
    case CallGeneric(i) => CallEffect(m, m.functionInstantiations[i].handle)
    case Pack(d) => Effect(FieldCount(m, d), 1)
    case PackGeneric(i) => Effect(FieldCount(m, m.structInstantiations[i].def), 1)
    case Unpack(d) => Effect(1, FieldCount(m, d))
    case UnpackGeneric(i) => Effect(1, FieldCount(m, m.structInstantiations[i].def))
  }

  function EffectAt(m: CompiledModule, returnCount: nat, code: seq<Bytecode>, i: nat): Effect
    requires CodeInBounds(m, code) && i < |code|
  {
    InstructionEffect(m, returnCount, code[i])
  }

  /** The effects of all instructions. */
  function EffectsOf(m: CompiledModule, returnCount: nat, code: seq<Bytecode>): (effects: seq<Effect>)
    requires CodeInBounds(m, code)
    ensures |effects| == |code|
    ensures forall i | 0 <= i < |code| :: effects[i] == EffectAt(m, returnCount, code, i)
  {
    seq(|code|, i requires 0 <= i < |code| => EffectAt(m, returnCount, code, i))
  }

  /**
   The height of the stack above that at offset `b` when straight-line execution from `b` reaches `pc`, or nothing if
   some instruction on the way pops below the height at `b`.
   */
  function Height(effects: seq<Effect>, b: nat, pc: nat): Option<nat>
    requires b <= pc <= |effects|
    decreases pc
  {
    if pc == b then Some(0)
    else
      var before := Height(effects, b, pc - 1);
      if before.None? then None else Apply(before.value, effects[pc - 1])
  }

  /** The height after an instruction, unless it pops too much. */
  function Apply(height: nat, effect: Effect): Option<nat> {
    if height < effect.pops then None else Some(height - effect.pops + effect.pushes)
  }

  lemma {:induction false} DipPersists(effects: seq<Effect>, b: nat, pc: nat, pc': nat)
    requires b <= pc <= pc' <= |effects| && Height(effects, b, pc).None?
    ensures Height(effects, b, pc').None?
  {
    if pc < pc' {
      DipPersists(effects, b, pc, pc' - 1);
    }
  }

  lemma HeightNext(effects: seq<Effect>, b: nat, pc: nat, height: nat)
    requires b <= pc < |effects| && Height(effects, b, pc) == Some(height)
    ensures Height(effects, b, pc + 1) == Apply(height, effects[pc])
  {
  }

  lemma DipIsFinal(effects: seq<Effect>, b: nat, pc: nat, end: nat, height: nat)
    requires b <= pc < end <= |effects| && Height(effects, b, pc) == Some(height) && Apply(height, effects[pc]).None?
    ensures Height(effects, b, end).None?
  {
    DipPersists(effects, b, pc + 1, end);
  }

  /** Carries out the effect of an instruction on the height. */
  method ApplyInstruction(m: CompiledModule, returnCount: nat, code: seq<Bytecode>, i: nat, height: nat)
    returns (r: Option<nat>)
    requires CodeInBounds(m, code) && i < |code|
    ensures r == Apply(height, EffectsOf(m, returnCount, code)[i])
  {
    var effect := EffectAt(m, returnCount, code, i);
    if height < effect.pops {
      return None;
    }
    var left := height - effect.pops;
    r := Some(left + effect.pushes);
  }

  /** The block pops only what it pushed, and leaves nothing. */
  predicate Balanced(effects: seq<Effect>, b: BlockId, block: BasicBlock)
    requires b <= block.exit < |effects|
  {
    Height(effects, b, block.exit + 1) == Some(0)
  }

  method VerifyBlock(m: CompiledModule, returnCount: nat, code: seq<Bytecode>, b: BlockId, block: BasicBlock)
    returns (ok: bool)
    requires CodeInBounds(m, code) && b <= block.exit < |code|
    ensures ok <==> Balanced(EffectsOf(m, returnCount, code), b, block)
  {
    ghost var effects := EffectsOf(m, returnCount, code);
    var stackSizeIncrement := 0;
    for i := b to block.exit + 1
      invariant Height(effects, b, i) == Some(stackSizeIncrement)
    {
      var next := ApplyInstruction(m, returnCount, code, i, stackSizeIncrement);
      if next.None? {
        DipIsFinal(effects, b, i, block.exit + 1, stackSizeIncrement);
        return false;
      }
      HeightNext(effects, b, i, stackSizeIncrement);
      stackSizeIncrement := next.value;
    }
    return stackSizeIncrement == 0;
  }

  /** Every block of the code is balanced. */
  ghost predicate AllBalanced(effects: seq<Effect>, blocks: map<BlockId, BasicBlock>) {
    forall b {:trigger BalancedAt(effects, blocks, b)} | b in blocks :: BalancedAt(effects, blocks, b)
  }

  ghost predicate BalancedAt(effects: seq<Effect>, blocks: map<BlockId, BasicBlock>, b: BlockId)
    requires b in blocks
  {
    b <= blocks[b].exit < |effects| && Balanced(effects, b, blocks[b])
  }

  method Verify(m: CompiledModule, returnCount: nat, code: seq<Bytecode>, cfg: VMControlFlowGraph) returns (ok: bool)
    requires CodeInBounds(m, code) && BlocksOf(code, cfg.blocks)
    ensures ok <==> AllBalanced(EffectsOf(m, returnCount, code), cfg.blocks)
  {
    ghost var effects := EffectsOf(m, returnCount, code);
    var todo := cfg.blocks.Keys;
    while todo != {}
      invariant todo <= cfg.blocks.Keys
      invariant forall b {:trigger BalancedAt(effects, cfg.blocks, b)} | b in cfg.blocks && b !in todo ::
                  BalancedAt(effects, cfg.blocks, b)
    {
      var b :| b in todo;
      var balanced := VerifyBlock(m, returnCount, code, b, cfg.blocks[b]);
      if !balanced {
        assert !BalancedAt(effects, cfg.blocks, b);
        return false;
      }
      todo := todo - {b};
    }
    return true;
  }

  // ---------------------------------------------------------------------------------------------
  // Whole paths
  // ---------------------------------------------------------------------------------------------

  /** The height of the operand stack when execution along `path` reaches its instruction number `k`. */
  function HeightAlong(effects: seq<Effect>, base: nat, path: seq<nat>, k: nat): int
    requires k < |path| && forall i | 0 <= i < |path| :: path[i] < |effects|
  {
    if k == 0 then base
    else HeightAlong(effects, base, path, k - 1) - effects[path[k - 1]].pops + effects[path[k - 1]].pushes
  }

  /** The height that straight-line execution from block `b` gives at `pc`. */
  ghost predicate LocalHeight(effects: seq<Effect>, blocks: map<BlockId, BasicBlock>, b: BlockId, pc: nat,
                              height: int) {
    && b in blocks && b <= pc <= blocks[b].exit < |effects|
    && Height(effects, b, pc).Some? && Height(effects, b, pc).value == height
  }

  /** Along every path the stack is as high as the straight-line height of the current block says. */
  lemma {:induction false} HeightIsLocal(
    effects: seq<Effect>, code: seq<Bytecode>, blocks: map<BlockId, BasicBlock>, base: nat, path: seq<nat>, k: nat)
    returns (b: BlockId)
    requires |effects| == |code| && BlocksOf(code, blocks) && AllBalanced(effects, blocks) && Path(code, path)
      && k < |path|
    ensures LocalHeight(effects, blocks, b, path[k], HeightAlong(effects, base, path, k) - base)
    decreases k
  {
    if k == 0 {
      b := ENTRY_BLOCK_ID;
    } else {
      assert PathStep(code, path, k);
      var a := HeightIsLocal(effects, code, blocks, base, path, k - 1);
      b := HeightStep(effects, code, blocks, a, path[k - 1], path[k], HeightAlong(effects, base, path, k - 1) - base);
    }
  }

  lemma {:induction false} HeightStep(
    effects: seq<Effect>, code: seq<Bytecode>, blocks: map<BlockId, BasicBlock>, a: BlockId, pc: nat, next: nat,
    height: int)
    returns (b: BlockId)
    requires |effects| == |code| && BlocksOf(code, blocks) && AllBalanced(effects, blocks)
    requires LocalHeight(effects, blocks, a, pc, height) && next < |code| && Edge(code, pc, next)
    ensures LocalHeight(effects, blocks, b, next, height - effects[pc].pops + effects[pc].pushes)
  {
    BlockStep(effects, blocks, a, pc);
    b := StepToBlock(code, blocks, a, pc, next);
  }

  /** A step stays in its block, or leads from the last instruction to the start of a block. */
  lemma StepToBlock(code: seq<Bytecode>, blocks: map<BlockId, BasicBlock>, b: BlockId, pc: nat, next: nat)
    returns (b': BlockId)
    requires BlocksOf(code, blocks) && b in blocks && b <= pc <= blocks[b].exit && next < |code| && Edge(code, pc, next)
    ensures b' in blocks && b' <= next <= blocks[b'].exit
    ensures pc < blocks[b].exit ==> b' == b && next == pc + 1
    ensures pc == blocks[b].exit ==> b' == next
  {
    if pc < blocks[b].exit {
      InsideBlock(code, blocks, b, pc, next);
      b' := b;
    } else {
      NextIsBlock(code, blocks, pc, next);
      b' := next;
    }
  }

  /** An edge out of the last instruction of a block leads to a block. */
  lemma NextIsBlock(code: seq<Bytecode>, blocks: map<BlockId, BasicBlock>, pc: nat, next: nat)
    requires BlocksOf(code, blocks) && pc < |code| && next < |code|
    requires IsExit(blocks, pc) && Edge(code, pc, next)
    ensures next in blocks
  {
    if HasOffset(code[pc]) && next == code[pc].offset {
      assert Starts(code, next);
    }
  }

  /** Inside a balanced block no instruction pops below the height at its start. */
  lemma {:induction false} BlockStep(effects: seq<Effect>, blocks: map<BlockId, BasicBlock>, b: BlockId, pc: nat)
    requires AllBalanced(effects, blocks) && b in blocks && b <= pc <= blocks[b].exit < |effects|
    ensures var h := Height(effects, b, pc);
            && h.Some?
            && effects[pc].pops <= h.value
            && Height(effects, b, pc + 1) == Some(h.value - effects[pc].pops + effects[pc].pushes)
    ensures pc == blocks[b].exit ==> Height(effects, b, pc + 1) == Some(0)
  {
    assert BalancedAt(effects, blocks, b);
    if Height(effects, b, pc + 1).None? {
      DipPersists(effects, b, pc + 1, blocks[b].exit + 1);
    }
  }

  /**
   The stack discipline of accepted code, at every instruction of every path from the entry: it does not pop below the
   height at entry, at the start of every block the height is that at entry, and a return finds exactly the declared
   values above it.
   */
  lemma {:induction false} StackDiscipline(
    m: CompiledModule, returnCount: nat, code: seq<Bytecode>, blocks: map<BlockId, BasicBlock>, base: nat,
    path: seq<nat>, k: nat)
    requires CodeInBounds(m, code) && BlocksOf(code, blocks) && AllBalanced(EffectsOf(m, returnCount, code), blocks)
    requires Path(code, path) && k < |path|
    ensures var pc := path[k];
            var height := HeightAlong(EffectsOf(m, returnCount, code), base, path, k);
            && height - InstructionEffect(m, returnCount, code[pc]).pops >= base
            && (pc in blocks ==> height == base)
            && (code[pc].Ret? ==> height == base + returnCount)
  {
    var effects := EffectsOf(m, returnCount, code);
    var pc := path[k];
    var b := HeightIsLocal(effects, code, blocks, base, path, k);
    BlockStep(effects, blocks, b, pc);
    if code[pc].Ret? && pc < blocks[b].exit {
      assert Starts(code, pc + 1);
    }
    if pc in blocks {
      assert pc == b;
    }
  }
}
