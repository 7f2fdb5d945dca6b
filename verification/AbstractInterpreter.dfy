/** The fixpoint engine that the safety analyses of the bytecode verifier share. */
module AbstractInterpreter {
  import opened Bytecodes
  import opened ControlFlow
  import opened ControlFlowGraphs
  import opened Wrappers

  datatype JoinResult = Changed | Unchanged

  datatype BlockPostcondition<+E> = Unprocessed | Success | Error(error: E)

  datatype BlockInvariant<+S, +E> = BlockInvariant(pre: S, post: BlockPostcondition<E>)

  type InvariantMap<+S, +E> = map<BlockId, BlockInvariant<S, E>>

  /** Joins the second state into the first. */
  type Join<!S> = (S, S) -> (S, JoinResult)

  /** Executes one instruction: state, instruction, its offset, and the last offset of its block. */
  type Transfer<!S, !E> = (S, Bytecode, nat, nat) -> Result<S, E>

  // ---------------------------------------------------------------------------------------------
  // The contract of an analysis
  // ---------------------------------------------------------------------------------------------

  ghost predicate Preorder<S(!new)>(leq: (S, S) -> bool) {
    && (forall x :: leq(x, x))
    && (forall x, y, z | leq(x, y) && leq(y, z) :: leq(x, z))
  }

  /** A join of two states of the domain bounds both, and lowers a rank unless it changes nothing. */
  ghost predicate JoinOk<S(!new)>(
    ok: S -> bool, join: Join<S>, leq: (S, S) -> bool, rank: S -> nat, x: S, y: S)
  {
    && ok(join(x, y).0) && leq(x, join(x, y).0) && leq(y, join(x, y).0)
    && (join(x, y).1.Unchanged? ==> join(x, y).0 == x)
    && (join(x, y).1.Changed? ==> rank(join(x, y).0) < rank(x))
  }

  /** A domain of finite height: the states that are `ok`. */
  ghost predicate FiniteHeight<S(!new)>(ok: S -> bool, join: Join<S>, leq: (S, S) -> bool, rank: S -> nat) {
    Preorder(leq) && forall x, y | ok(x) && ok(y) :: JoinOk(ok, join, leq, rank, x, y)
  }

  /** The transfer function stays inside the domain. */
  ghost predicate StaysOk<S(!new), E>(ok: S -> bool, execute: Transfer<S, E>) {
    forall s, instr, pc, last | ok(s) && execute(s, instr, pc, last).Ok? :: ok(execute(s, instr, pc, last).value)
  }

  ghost predicate AllOk<S(!new), E>(ok: S -> bool, inv: InvariantMap<S, E>) {
    forall b | b in inv :: ok(inv[b].pre)
  }

  // ---------------------------------------------------------------------------------------------
  // Blocks
  // ---------------------------------------------------------------------------------------------

  /** The state after the instructions from `first` up to, not including, `pc`. */
  function RunTo<S, E>(
    code: seq<Bytecode>, execute: Transfer<S, E>, pre: S, first: nat, pc: nat, last: nat): Result<S, E>
    requires first <= pc <= |code|
    decreases pc
  {
    if pc == first then Ok(pre)
    else
      match RunTo(code, execute, pre, first, pc - 1, last)
      case Err(e) => Err(e)
      case Ok(state) => execute(state, code[pc - 1], pc - 1, last)
  }

  /** The state after a whole block. */
  function RunBlock<S, E>(
    code: seq<Bytecode>, cfg: VMControlFlowGraph, execute: Transfer<S, E>, b: BlockId, pre: S): Result<S, E>
    requires b in cfg.blocks && b <= cfg.blocks[b].exit < |code|
  {
    RunTo(code, execute, pre, b, cfg.blocks[b].exit + 1, cfg.blocks[b].exit)
  }

  lemma {:induction false} ErrorPersists<S, E>(
    code: seq<Bytecode>, execute: Transfer<S, E>, pre: S, first: nat, pc: nat, pc': nat, last: nat)
    requires first <= pc <= pc' <= |code|
    requires RunTo(code, execute, pre, first, pc, last).Err?
    ensures RunTo(code, execute, pre, first, pc', last) == RunTo(code, execute, pre, first, pc, last)
  {
    if pc < pc' {
      ErrorPersists(code, execute, pre, first, pc, pc' - 1, last);
    }
  }

  lemma {:induction false} RunIsOk<S(!new), E>(
    code: seq<Bytecode>, ok: S -> bool, execute: Transfer<S, E>, pre: S, first: nat, pc: nat, last: nat)
    requires first <= pc <= |code| && StaysOk(ok, execute) && ok(pre)
    requires RunTo(code, execute, pre, first, pc, last).Ok?
    ensures ok(RunTo(code, execute, pre, first, pc, last).value)
    decreases pc
  {
    if pc > first {
      RunIsOk(code, ok, execute, pre, first, pc - 1, last);
    }
  }

  /** Runs the instructions of a block one after the other and stops at the first error. */
  method ExecuteBlock<S, E>(
    code: seq<Bytecode>, cfg: VMControlFlowGraph, execute: Transfer<S, E>, b: BlockId, pre: S)
    returns (r: Result<S, E>)
    requires b in cfg.blocks && b <= cfg.blocks[b].exit < |code|
    ensures r == RunBlock(code, cfg, execute, b, pre)
  {
    var acc := pre;
    var end := cfg.blocks[b].exit;
    for offset := b to end + 1
      invariant RunTo(code, execute, pre, b, offset, end) == Ok(acc)
    {
      var step := execute(acc, code[offset], offset, end);
      if step.Err? {
        ErrorPersists(code, execute, pre, b, offset + 1, end + 1, end);
        return step;
      }
      acc := step.value;
    }
    return Ok(acc);
  }

  // ---------------------------------------------------------------------------------------------
  // What the result of an analysis means
  // ---------------------------------------------------------------------------------------------

  /** The entry of a block matches its execution from the recorded state, and the successors cover its result. */
  ghost predicate Settled<S(!new), E>(
    code: seq<Bytecode>, cfg: VMControlFlowGraph, execute: Transfer<S, E>, leq: (S, S) -> bool,
    inv: InvariantMap<S, E>, b: BlockId)
    requires b in inv && b in cfg.blocks && b <= cfg.blocks[b].exit < |code|
  {
    match RunBlock(code, cfg, execute, b, inv[b].pre)
    case Err(e) => inv[b].post == Error(e)
    case Ok(state) =>
      && inv[b].post == Success
      && forall c | c in cfg.blocks[b].successors :: c in inv && leq(state, inv[c].pre)
  }

  /** A fixpoint of the analysis that covers the initial state. */
  ghost predicate Fixpoint<S(!new), E>(
    code: seq<Bytecode>, cfg: VMControlFlowGraph, execute: Transfer<S, E>, leq: (S, S) -> bool,
    init: S, inv: InvariantMap<S, E>)
    requires BlocksOf(code, cfg.blocks)
  {
    && ENTRY_BLOCK_ID in inv && leq(init, inv[ENTRY_BLOCK_ID].pre)
    && forall b | b in inv :: b in cfg.blocks && Settled(code, cfg, execute, leq, inv, b)
  }

  /** How a state comes to be recorded: it is the initial one, the outcome of a block, or a join of two others. */
  datatype Origin =
    | Given
    | OutcomeOf(block: BlockId, before: Origin)
    | Both(one: Origin, other: Origin)

  /** The state for block `c` that comes about in this way, if one does. */
  ghost function StateOf<S, E>(
    code: seq<Bytecode>, cfg: VMControlFlowGraph, join: Join<S>, execute: Transfer<S, E>, init: S, origin: Origin,
    c: BlockId): Option<S>
  {
    match origin
    case Given => if c == ENTRY_BLOCK_ID then Some(init) else None
    case OutcomeOf(b, before) =>
      var pre := StateOf(code, cfg, join, execute, init, before, b);
      if pre.None? || !LeadsTo(code, cfg, b, c) then None
      else
        var r := RunBlock(code, cfg, execute, b, pre.value);
        if r.Ok? then Some(r.value) else None
    case Both(one, other) =>
      var x, y := StateOf(code, cfg, join, execute, init, one, c), StateOf(code, cfg, join, execute, init, other, c);
      if x.None? || y.None? then None else Some(join(x.value, y.value).0)
  }

  ghost predicate LeadsTo(code: seq<Bytecode>, cfg: VMControlFlowGraph, b: BlockId, c: BlockId) {
    b in cfg.blocks && b <= cfg.blocks[b].exit < |code| && c in cfg.blocks[b].successors
  }

  /** The state is made of the initial one and outcomes of blocks, and of nothing else. */
  ghost predicate Made<S, E>(
    code: seq<Bytecode>, cfg: VMControlFlowGraph, join: Join<S>, execute: Transfer<S, E>, init: S, c: BlockId, x: S)
  {
    exists origin :: StateOf(code, cfg, join, execute, init, origin, c) == Some(x)
  }

  ghost predicate AllMade<S, E>(
    code: seq<Bytecode>, cfg: VMControlFlowGraph, join: Join<S>, execute: Transfer<S, E>, init: S,
    inv: InvariantMap<S, E>)
  {
    forall b | b in inv :: Made(code, cfg, join, execute, init, b, inv[b].pre)
  }

  lemma MadeAtEntry<S, E>(
    code: seq<Bytecode>, cfg: VMControlFlowGraph, join: Join<S>, execute: Transfer<S, E>, init: S)
    ensures Made(code, cfg, join, execute, init, ENTRY_BLOCK_ID, init)
  {
    assert StateOf(code, cfg, join, execute, init, Given, ENTRY_BLOCK_ID) == Some(init);
  }

  lemma MadeByBlock<S, E>(
    code: seq<Bytecode>, cfg: VMControlFlowGraph, join: Join<S>, execute: Transfer<S, E>, init: S, b: BlockId, pre: S,
    state: S, c: BlockId)
    requires Made(code, cfg, join, execute, init, b, pre) && LeadsTo(code, cfg, b, c)
    requires RunBlock(code, cfg, execute, b, pre) == Ok(state)
    ensures Made(code, cfg, join, execute, init, c, state)
  {
    var o :| StateOf(code, cfg, join, execute, init, o, b) == Some(pre);
    assert StateOf(code, cfg, join, execute, init, OutcomeOf(b, o), c) == Some(state);
  }

  lemma MadeByJoin<S, E>(
    code: seq<Bytecode>, cfg: VMControlFlowGraph, join: Join<S>, execute: Transfer<S, E>, init: S, c: BlockId, x: S,
    y: S)
    requires Made(code, cfg, join, execute, init, c, x) && Made(code, cfg, join, execute, init, c, y)
    ensures Made(code, cfg, join, execute, init, c, join(x, y).0)
  {
    var o :| StateOf(code, cfg, join, execute, init, o, c) == Some(x);
    var o' :| StateOf(code, cfg, join, execute, init, o', c) == Some(y);
    assert StateOf(code, cfg, join, execute, init, Both(o, o'), c) == Some(join(x, y).0);
  }

  // ---------------------------------------------------------------------------------------------
  // Termination measure
  // ---------------------------------------------------------------------------------------------

  ghost function Elements(order: seq<BlockId>): set<BlockId> {
    set b | b in order
  }

  /** The summed rank of the recorded pre-states. */
  ghost function RankSum<S, E>(order: seq<BlockId>, inv: InvariantMap<S, E>, rank: S -> nat): nat {
    if order == [] then 0
    else (if order[0] in inv then rank(inv[order[0]].pre) else 0) + RankSum(order[1..], inv, rank)
  }

  lemma {:induction false} RankSumDrops<S, E>(
    order: seq<BlockId>, inv: InvariantMap<S, E>, inv': InvariantMap<S, E>, rank: S -> nat)
    requires inv.Keys == inv'.Keys
    requires forall b | b in inv :: rank(inv'[b].pre) <= rank(inv[b].pre)
    ensures RankSum(order, inv', rank) <= RankSum(order, inv, rank)
    ensures (exists b :: b in order && b in inv && rank(inv'[b].pre) < rank(inv[b].pre)) ==>
              RankSum(order, inv', rank) < RankSum(order, inv, rank)
  {
    if order != [] {
      RankSumDrops(order[1..], inv, inv', rank);
      assert order == [order[0]] + order[1..];
    }
  }

  // ---------------------------------------------------------------------------------------------
  // Propagation to the successors
  // ---------------------------------------------------------------------------------------------

  /** The state of an entry was joined with something new, which lowered its rank. */
  ghost predicate Raised<S(!new), E>(
    leq: (S, S) -> bool, rank: S -> nat, before: BlockInvariant<S, E>, after: BlockInvariant<S, E>)
  {
    leq(before.pre, after.pre) && rank(after.pre) < rank(before.pre)
  }

  /** What propagating `state` along the edges of `b` to the first `n` successors does to the map. */
  ghost predicate Propagated<S(!new), E>(
    leq: (S, S) -> bool, rank: S -> nat, succs: seq<BlockId>, n: nat, state: S,
    inv: InvariantMap<S, E>, inv': InvariantMap<S, E>)
    requires n <= |succs|
  {
    && (forall c :: c in inv' <==> c in inv || Among(succs, n, c))
    && (forall k | 0 <= k < n :: succs[k] in inv' && leq(state, inv'[succs[k]].pre))
    && (forall c | c in inv :: c in inv' && (inv'[c] == inv[c] || Raised(leq, rank, inv[c], inv'[c])))
    && (forall c | c in inv && inv'[c] != inv[c] :: Among(succs, n, c))
  }

  /** One of the first `n` successors. */
  ghost predicate Among(succs: seq<BlockId>, n: nat, c: BlockId) {
    exists k :: 0 <= k < n <= |succs| && succs[k] == c
  }

  lemma AmongNext(succs: seq<BlockId>, n: nat, c: BlockId)
    requires n < |succs|
    ensures Among(succs, n + 1, c) <==> Among(succs, n, c) || succs[n] == c
  {
    if Among(succs, n + 1, c) && succs[n] != c {
      var k :| 0 <= k < n + 1 && succs[k] == c;
      assert 0 <= k < n;
    }
  }

  /** The state of the back edge target `h` was raised. */
  ghost predicate Reopened<S(!new), E>(
    cfg: VMControlFlowGraph, b: BlockId, inv: InvariantMap<S, E>, inv': InvariantMap<S, E>, h: BlockId)
  {
    RecordsBackEdge(cfg, b, h) && h in inv && h in inv' && inv'[h] != inv[h]
  }

  /** The next block is the candidate, or a reopened loop head; it is one if there is one. */
  ghost predicate NextOk<S(!new), E>(
    cfg: VMControlFlowGraph, b: BlockId, inv: InvariantMap<S, E>, inv': InvariantMap<S, E>,
    candidate: Option<BlockId>, next: Option<BlockId>)
  {
    || (next == candidate && forall h :: !Reopened(cfg, b, inv, inv', h))
    || (next.Some? && Reopened(cfg, b, inv, inv', next.value))
  }

  /** The map after the state at the end of a block is joined into one successor. */
  function JoinInto<S, E>(join: Join<S>, inv: InvariantMap<S, E>, c: BlockId, state: S): InvariantMap<S, E> {
    if c !in inv then inv[c := BlockInvariant(state, Success)]
    else
      var (pre, result) := join(inv[c].pre, state);
      if result.Changed? then inv[c := BlockInvariant(pre, Unprocessed)] else inv
  }

  /** The map after the state is joined into the first `n` successors. */
  ghost function JoinAll<S, E>(
    join: Join<S>, inv: InvariantMap<S, E>, succs: seq<BlockId>, n: nat, state: S): InvariantMap<S, E>
    requires n <= |succs|
  {
    if n == 0 then inv else JoinInto(join, JoinAll(join, inv, succs, n - 1, state), succs[n - 1], state)
  }

  /** One entry covers the state now, and the others are as they were. */
  ghost predicate Covered<S(!new), E>(
    leq: (S, S) -> bool, rank: S -> nat, state: S, was: InvariantMap<S, E>, inv': InvariantMap<S, E>, c: BlockId)
  {
    && inv'.Keys == was.Keys + {c} && leq(state, inv'[c].pre)
    && (c in was ==> inv'[c] == was[c] || Raised(leq, rank, was[c], inv'[c]))
    && forall d | d in was && d != c :: inv'[d] == was[d]
  }

  lemma JoinCovers<S(!new), E>(
    ok: S -> bool, join: Join<S>, leq: (S, S) -> bool, rank: S -> nat, was: InvariantMap<S, E>, c: BlockId, state: S)
    requires FiniteHeight(ok, join, leq, rank) && ok(state) && AllOk(ok, was)
    ensures Covered(leq, rank, state, was, JoinInto(join, was, c, state), c)
  {
    assert c in was ==> JoinOk(ok, join, leq, rank, was[c].pre, state);
    assert leq(state, state);
  }

  lemma PropagatedStep<S(!new), E>(
    leq: (S, S) -> bool, rank: S -> nat, succs: seq<BlockId>, n: nat, state: S,
    inv: InvariantMap<S, E>, was: InvariantMap<S, E>, inv': InvariantMap<S, E>)
    requires forall i, j | 0 <= i < j < |succs| :: succs[i] != succs[j]
    requires n < |succs| && Propagated(leq, rank, succs, n, state, inv, was)
    requires Covered(leq, rank, state, was, inv', succs[n])
    ensures succs[n] in was <==> succs[n] in inv
    ensures succs[n] in inv ==> was[succs[n]] == inv[succs[n]]
    ensures Propagated(leq, rank, succs, n + 1, state, inv, inv')
  {
    var c := succs[n];
    assert !Among(succs, n, c);
    forall d ensures Among(succs, n + 1, d) <==> Among(succs, n, d) || c == d {
      AmongNext(succs, n, d);
    }
  }

  lemma JoinedIsOk<S(!new), E>(
    ok: S -> bool, join: Join<S>, leq: (S, S) -> bool, rank: S -> nat, inv: InvariantMap<S, E>, c: BlockId, state: S)
    requires FiniteHeight(ok, join, leq, rank) && ok(state) && AllOk(ok, inv)
    ensures AllOk(ok, JoinInto(join, inv, c, state))
  {
    assert c in inv ==> JoinOk(ok, join, leq, rank, inv[c].pre, state);
  }

  lemma NextStep<S(!new), E>(
    cfg: VMControlFlowGraph, b: BlockId, inv: InvariantMap<S, E>, was: InvariantMap<S, E>, inv': InvariantMap<S, E>,
    c: BlockId, candidate: Option<BlockId>, next: Option<BlockId>)
    requires NextOk(cfg, b, inv, was, candidate, next)
    requires c in inv ==> c in was && c in inv' && was[c] == inv[c]
    requires forall d | d != c :: (d in inv' <==> d in was) && (d in was ==> inv'[d] == was[d])
    ensures NextOk(cfg, b, inv, inv', candidate, if Reopened(cfg, b, inv, inv', c) then Some(c) else next)
  {
    forall h | h != c ensures Reopened(cfg, b, inv, inv', h) <==> Reopened(cfg, b, inv, was, h) {
    }
  }

  /** A join that changes an entry reopens it if it is the target of a back edge. */
  lemma JoinReopens<S(!new), E>(
    cfg: VMControlFlowGraph, ok: S -> bool, join: Join<S>, leq: (S, S) -> bool, rank: S -> nat, b: BlockId,
    inv: InvariantMap<S, E>, was: InvariantMap<S, E>, c: BlockId, state: S)
    requires FiniteHeight(ok, join, leq, rank) && ok(state) && AllOk(ok, was)
    requires (c in was <==> c in inv) && (c in inv ==> was[c] == inv[c])
    ensures Reopened(cfg, b, inv, JoinInto(join, was, c, state), c) <==>
            c in was && RecordsBackEdge(cfg, b, c) && join(was[c].pre, state).1.Changed?
  {
    assert c in was ==> JoinOk(ok, join, leq, rank, was[c].pre, state);
  }

  /** The block to go to after the state was joined into one successor. */
  ghost function NextAfter<S, E>(
    cfg: VMControlFlowGraph, join: Join<S>, b: BlockId, c: BlockId, state: S, inv: InvariantMap<S, E>,
    next: Option<BlockId>): Option<BlockId>
  {
    if c in inv && RecordsBackEdge(cfg, b, c) && join(inv[c].pre, state).1.Changed? then Some(c) else next
  }

  /** Joins the state at the end of a block into one successor. */
  method JoinSuccessor<S(!new), E>(
    cfg: VMControlFlowGraph, join: Join<S>, b: BlockId, c: BlockId, state: S, inv: InvariantMap<S, E>,
    next: Option<BlockId>)
    returns (inv': InvariantMap<S, E>, next': Option<BlockId>)
    ensures inv' == JoinInto(join, inv, c, state)
    ensures next' == NextAfter(cfg, join, b, c, state, inv, next)
  {
    inv', next' := inv, next;
    if c in inv {
      var (pre, result) := join(inv[c].pre, state);
      match result
      case Unchanged =>
      case Changed =>
        if RecordsBackEdge(cfg, b, c) {
          next' := Some(c);
        }
        inv' := inv[c := BlockInvariant(pre, Unprocessed)];
    } else {
      inv' := inv[c := BlockInvariant(state, Success)];
    }
  }

  lemma PropagateOne<S(!new), E>(
    cfg: VMControlFlowGraph, ok: S -> bool, join: Join<S>, leq: (S, S) -> bool, rank: S -> nat, b: BlockId,
    succs: seq<BlockId>, n: nat, state: S, inv: InvariantMap<S, E>, was: InvariantMap<S, E>,
    candidate: Option<BlockId>, next: Option<BlockId>)
    requires FiniteHeight(ok, join, leq, rank) && ok(state) && AllOk(ok, was)
    requires forall i, j | 0 <= i < j < |succs| :: succs[i] != succs[j]
    requires n < |succs| && Propagated(leq, rank, succs, n, state, inv, was)
    requires NextOk(cfg, b, inv, was, candidate, next)
    ensures var inv' := JoinInto(join, was, succs[n], state);
            && Propagated(leq, rank, succs, n + 1, state, inv, inv') && AllOk(ok, inv')
            && NextOk(cfg, b, inv, inv', candidate, NextAfter(cfg, join, b, succs[n], state, was, next))
  {
    var c, inv' := succs[n], JoinInto(join, was, succs[n], state);
    JoinCovers(ok, join, leq, rank, was, c, state);
    PropagatedStep(leq, rank, succs, n, state, inv, was, inv');
    JoinedIsOk(ok, join, leq, rank, was, c, state);
    JoinReopens(cfg, ok, join, leq, rank, b, inv, was, c, state);
    NextStep(cfg, b, inv, was, inv', c, candidate, next);
  }

  /**
   Joins the state at the end of a block into its successors. The next block is `candidate`, except that
   a changed back edge leads back to its target.
   */
  method Propagate<S(!new), E>(
    cfg: VMControlFlowGraph, ghost ok: S -> bool, join: Join<S>, ghost leq: (S, S) -> bool, ghost rank: S -> nat,
    b: BlockId, succs: seq<BlockId>, state: S, inv: InvariantMap<S, E>, candidate: Option<BlockId>)
    returns (inv': InvariantMap<S, E>, next: Option<BlockId>)
    requires FiniteHeight(ok, join, leq, rank) && ok(state) && AllOk(ok, inv)
    requires forall i, j | 0 <= i < j < |succs| :: succs[i] != succs[j]
    ensures Propagated(leq, rank, succs, |succs|, state, inv, inv') && AllOk(ok, inv')
    ensures NextOk(cfg, b, inv, inv', candidate, next)
    ensures inv' == JoinAll(join, inv, succs, |succs|, state)
  {
    inv', next := inv, candidate;
    for i := 0 to |succs|
      invariant Propagated(leq, rank, succs, i, state, inv, inv') && AllOk(ok, inv')
      invariant inv' == JoinAll(join, inv, succs, i, state)
      invariant NextOk(cfg, b, inv, inv', candidate, next)
    {
      PropagateOne(cfg, ok, join, leq, rank, b, succs, i, state, inv, inv', candidate, next);
      inv', next := JoinSuccessor(cfg, join, b, succs[i], state, inv', next);
    }
  }

  // ---------------------------------------------------------------------------------------------
  // The analysis
  // ---------------------------------------------------------------------------------------------

  /** Loop heads are recorded before the blocks of their loops. */
  ghost predicate HeadsFirst<S(!new), E>(code: seq<Bytecode>, inv: InvariantMap<S, E>) {
    forall h: nat, l: nat, b | IsLoop(code, h, l) && b in inv && h <= b <= l :: h in inv
  }

  /** The state of the analysis when the block at position `pos` of the traversal is next. */
  ghost predicate Progress<S(!new), E>(
    code: seq<Bytecode>, cfg: VMControlFlowGraph, order: seq<BlockId>, execute: Transfer<S, E>, leq: (S, S) -> bool,
    init: S, inv: InvariantMap<S, E>, pos: nat)
    requires BlocksOf(code, cfg.blocks)
  {
    && ENTRY_BLOCK_ID in inv && leq(init, inv[ENTRY_BLOCK_ID].pre)
    && (forall b | b in inv :: b in order && b in cfg.blocks)
    && HeadsFirst(code, inv)
    && (forall k | 0 <= k < pos && k < |order| && order[k] in inv :: Settled(code, cfg, execute, leq, inv, order[k]))
  }

  /** A settled block stays settled when its successors grow. */
  lemma SettledKept<S(!new), E>(
    code: seq<Bytecode>, cfg: VMControlFlowGraph, execute: Transfer<S, E>, leq: (S, S) -> bool,
    inv: InvariantMap<S, E>, inv': InvariantMap<S, E>, b: BlockId)
    requires BlocksOf(code, cfg.blocks) && Preorder(leq)
    requires b in inv && b in inv' && b in cfg.blocks && inv'[b] == inv[b]
    requires forall c | c in inv :: c in inv' && leq(inv[c].pre, inv'[c].pre)
    requires Settled(code, cfg, execute, leq, inv, b)
    ensures Settled(code, cfg, execute, leq, inv', b)
  {
  }

  /** Executing the block at `pos` with an error settles it. */
  lemma ErrorStep<S(!new), E>(
    code: seq<Bytecode>, cfg: VMControlFlowGraph, order: seq<BlockId>, execute: Transfer<S, E>, leq: (S, S) -> bool,
    init: S, inv: InvariantMap<S, E>, pos: nat, e: E)
    requires BlocksOf(code, cfg.blocks) && Preorder(leq)
    requires Progress(code, cfg, order, execute, leq, init, inv, pos)
    requires pos < |order| && order[pos] in inv && forall k | 0 <= k < pos :: order[k] != order[pos]
    requires RunBlock(code, cfg, execute, order[pos], inv[order[pos]].pre) == Err(e)
    ensures Progress(
      code, cfg, order, execute, leq, init, inv[order[pos] := inv[order[pos]].(post := Error(e))], pos + 1)
  {
    var inv' := inv[order[pos] := inv[order[pos]].(post := Error(e))];
    forall k | 0 <= k < pos && order[k] in inv' ensures Settled(code, cfg, execute, leq, inv', order[k]) {
      SettledKept(code, cfg, execute, leq, inv, inv', order[k]);
    }
  }

  /** A block without an entry is passed over. */
  lemma SkipStep<S(!new), E>(
    code: seq<Bytecode>, cfg: VMControlFlowGraph, order: seq<BlockId>, execute: Transfer<S, E>, leq: (S, S) -> bool,
    init: S, inv: InvariantMap<S, E>, pos: nat)
    requires Schedule(code, cfg, order)
    requires Progress(code, cfg, order, execute, leq, init, inv, pos)
    requires pos < |order| && order[pos] !in inv
    ensures Progress(code, cfg, order, execute, leq, init, inv, pos + 1)
    ensures NextBlock(cfg, order[pos]) == if pos + 1 < |order| then Some(order[pos + 1]) else None
  {
    assert Follows(cfg, order, pos);
  }

  /** The map after the block at `pos` was executed and its result propagated. */
  ghost predicate Processed<S(!new), E>(
    code: seq<Bytecode>, cfg: VMControlFlowGraph, order: seq<BlockId>, execute: Transfer<S, E>, leq: (S, S) -> bool,
    rank: S -> nat, inv: InvariantMap<S, E>, inv': InvariantMap<S, E>, pos: nat)
    requires Schedule(code, cfg, order)
  {
    && pos < |order| && order[pos] in inv && order[pos] in cfg.blocks
    && var b := order[pos];
    && var r := RunBlock(code, cfg, execute, b, inv[b].pre);
    && var succs := cfg.blocks[b].successors;
    && r.Ok?
    && Propagated(leq, rank, succs, |succs|, r.value, Marked(inv, b), inv')
  }

  /** The map with block `b` marked as analyzed. */
  function Marked<S, E>(inv: InvariantMap<S, E>, b: BlockId): InvariantMap<S, E>
    requires b in inv
  {
    inv[b := inv[b].(post := Success)]
  }

  /** A block has at most one back edge. */
  lemma OneBackEdge(code: seq<Bytecode>, blocks: map<BlockId, BasicBlock>, b: BlockId, h: BlockId, h': BlockId)
    requires BlocksOf(code, blocks)
    requires BlockEdge(blocks, b, h) && IsBackEdge(b, h) && BlockEdge(blocks, b, h') && IsBackEdge(b, h')
    ensures h == h'
  {
    assert Edge(code, blocks[b].exit, h) && Edge(code, blocks[b].exit, h');
  }

  /** Only later blocks are new in the map: a back edge finds its target recorded. */
  lemma NewIsLater<S(!new), E>(
    code: seq<Bytecode>, cfg: VMControlFlowGraph, order: seq<BlockId>, execute: Transfer<S, E>, leq: (S, S) -> bool,
    rank: S -> nat, init: S, inv: InvariantMap<S, E>, inv': InvariantMap<S, E>, pos: nat, k: nat)
    requires Schedule(code, cfg, order)
    requires Progress(code, cfg, order, execute, leq, init, inv, pos)
    requires Processed(code, cfg, order, execute, leq, rank, inv, inv', pos)
    requires k < |order| && order[k] in inv' && order[k] !in inv
    ensures pos < k
  {
    var b := order[pos];
    assert BlockEdge(cfg.blocks, b, order[k]);
    if IsBackEdge(b, order[k]) {
      var l := BackEdgeLoop(code, cfg.blocks, b, order[k]);
      assert false;
    }
    assert After(order, pos, order[k]);
  }

  /** A changed entry belongs to a later block or to the target of the back edge. */
  lemma ChangedIsLater<S(!new), E>(
    code: seq<Bytecode>, cfg: VMControlFlowGraph, order: seq<BlockId>, execute: Transfer<S, E>, leq: (S, S) -> bool,
    rank: S -> nat, inv: InvariantMap<S, E>, inv': InvariantMap<S, E>, pos: nat, k: nat)
    requires Schedule(code, cfg, order)
    requires Processed(code, cfg, order, execute, leq, rank, inv, inv', pos)
    requires k < |order| && order[k] in inv && inv'[order[k]] != Marked(inv, order[pos])[order[k]]
    ensures pos < k || Reopened(cfg, order[pos], Marked(inv, order[pos]), inv', order[k])
  {
    assert BlockEdge(cfg.blocks, order[pos], order[k]);
    if !IsBackEdge(order[pos], order[k]) {
      assert After(order, pos, order[k]);
    }
  }

  /** Loop heads stay recorded before their loops. */
  lemma HeadsStayFirst<S(!new), E>(
    code: seq<Bytecode>, cfg: VMControlFlowGraph, order: seq<BlockId>, execute: Transfer<S, E>, leq: (S, S) -> bool,
    rank: S -> nat, inv: InvariantMap<S, E>, inv': InvariantMap<S, E>, pos: nat)
    requires Schedule(code, cfg, order) && OffsetsInRange(code) && Structured(code)
    requires HeadsFirst(code, inv)
    requires Processed(code, cfg, order, execute, leq, rank, inv, inv', pos)
    ensures HeadsFirst(code, inv')
  {
    var b := order[pos];
    forall h: nat, l: nat, c | IsLoop(code, h, l) && c in inv' && h <= c <= l ensures h in inv' {
      if c !in inv && !(h <= b <= l) {
        assert BlockEdge(cfg.blocks, b, c);
        BlockLoopEntry(code, cfg.blocks, h, l, b, c);
      }
    }
  }

  /** The block at `pos` is settled unless its own state was reopened. */
  lemma CurrentSettled<S(!new), E>(
    code: seq<Bytecode>, cfg: VMControlFlowGraph, order: seq<BlockId>, execute: Transfer<S, E>, leq: (S, S) -> bool,
    rank: S -> nat, inv: InvariantMap<S, E>, inv': InvariantMap<S, E>, pos: nat)
    requires Schedule(code, cfg, order)
    requires Processed(code, cfg, order, execute, leq, rank, inv, inv', pos)
    requires !Reopened(cfg, order[pos], Marked(inv, order[pos]), inv', order[pos])
    ensures order[pos] in inv' && Settled(code, cfg, execute, leq, inv', order[pos])
  {
    var b := order[pos];
    if inv'[b] != Marked(inv, b)[b] {
      ChangedIsLater(code, cfg, order, execute, leq, rank, inv, inv', pos, pos);
    }
    forall c | c in cfg.blocks[b].successors
      ensures c in inv' && leq(RunBlock(code, cfg, execute, b, inv[b].pre).value, inv'[c].pre)
    {
      var k :| 0 <= k < |cfg.blocks[b].successors| && cfg.blocks[b].successors[k] == c;
    }
  }

  /** Blocks before `stop` stay settled, as long as no reopened block is among them. */
  lemma EarlierSettled<S(!new), E>(
    code: seq<Bytecode>, cfg: VMControlFlowGraph, order: seq<BlockId>, execute: Transfer<S, E>, leq: (S, S) -> bool,
    rank: S -> nat, init: S, inv: InvariantMap<S, E>, inv': InvariantMap<S, E>, pos: nat, stop: nat)
    requires Schedule(code, cfg, order) && Preorder(leq)
    requires Progress(code, cfg, order, execute, leq, init, inv, pos)
    requires Processed(code, cfg, order, execute, leq, rank, inv, inv', pos)
    requires stop <= pos
    requires forall k | 0 <= k < stop :: !Reopened(cfg, order[pos], Marked(inv, order[pos]), inv', order[k])
    ensures forall k | 0 <= k < stop && order[k] in inv' ::
              order[k] in cfg.blocks && Settled(code, cfg, execute, leq, inv', order[k])
  {
    var b := order[pos];
    forall k | 0 <= k < stop && order[k] in inv'
      ensures order[k] in cfg.blocks && Settled(code, cfg, execute, leq, inv', order[k])
    {
      if order[k] !in inv {
        NewIsLater(code, cfg, order, execute, leq, rank, init, inv, inv', pos, k);
      } else {
        if inv'[order[k]] != Marked(inv, b)[order[k]] {
          ChangedIsLater(code, cfg, order, execute, leq, rank, inv, inv', pos, k);
        }
        assert order[k] != b;
        SettledKept(code, cfg, execute, leq, inv, inv', order[k]);
      }
    }
  }

  /** Where the analysis continues after a successful block, and that it got closer to the end. */
  lemma SuccessStep<S(!new), E>(
    code: seq<Bytecode>, cfg: VMControlFlowGraph, order: seq<BlockId>, execute: Transfer<S, E>, leq: (S, S) -> bool,
    rank: S -> nat, init: S, inv: InvariantMap<S, E>, inv': InvariantMap<S, E>, pos: nat, next: Option<BlockId>)
    returns (pos': nat)
    requires Schedule(code, cfg, order) && OffsetsInRange(code) && Structured(code) && Preorder(leq)
    requires Progress(code, cfg, order, execute, leq, init, inv, pos)
    requires Processed(code, cfg, order, execute, leq, rank, inv, inv', pos)
    requires NextOk(cfg, order[pos], Marked(inv, order[pos]), inv', NextBlock(cfg, order[pos]), next)
    ensures pos' <= |order| && next == if pos' < |order| then Some(order[pos']) else None
    ensures Progress(code, cfg, order, execute, leq, init, inv', pos')
    ensures pos' == pos + 1 || exists h :: Reopened(cfg, order[pos], Marked(inv, order[pos]), inv', h)
  {
    var b := order[pos];
    if next == NextBlock(cfg, b) && forall h :: !Reopened(cfg, b, Marked(inv, b), inv', h) {
      assert Follows(cfg, order, pos);
      pos' := pos + 1;
      GoOn(code, cfg, order, execute, leq, rank, init, inv, inv', pos);
    } else {
      pos' := JumpBack(code, cfg, order, execute, leq, rank, init, inv, inv', pos, next.value);
    }
    StillRecorded(code, cfg, order, execute, leq, rank, init, inv, inv', pos);
  }

  /** When no loop head was reopened, all blocks up to this one are settled. */
  lemma GoOn<S(!new), E>(
    code: seq<Bytecode>, cfg: VMControlFlowGraph, order: seq<BlockId>, execute: Transfer<S, E>, leq: (S, S) -> bool,
    rank: S -> nat, init: S, inv: InvariantMap<S, E>, inv': InvariantMap<S, E>, pos: nat)
    requires Schedule(code, cfg, order) && Preorder(leq)
    requires Progress(code, cfg, order, execute, leq, init, inv, pos)
    requires Processed(code, cfg, order, execute, leq, rank, inv, inv', pos)
    requires forall h :: !Reopened(cfg, order[pos], Marked(inv, order[pos]), inv', h)
    ensures forall k | 0 <= k < pos + 1 && order[k] in inv' ::
              order[k] in cfg.blocks && Settled(code, cfg, execute, leq, inv', order[k])
  {
    EarlierSettled(code, cfg, order, execute, leq, rank, init, inv, inv', pos, pos);
    CurrentSettled(code, cfg, order, execute, leq, rank, inv, inv', pos);
  }

  /** A jump back to a reopened loop head skips no unsettled block. */
  lemma JumpBack<S(!new), E>(
    code: seq<Bytecode>, cfg: VMControlFlowGraph, order: seq<BlockId>, execute: Transfer<S, E>, leq: (S, S) -> bool,
    rank: S -> nat, init: S, inv: InvariantMap<S, E>, inv': InvariantMap<S, E>, pos: nat, h: BlockId)
    returns (pos': nat)
    requires Schedule(code, cfg, order) && Preorder(leq)
    requires Progress(code, cfg, order, execute, leq, init, inv, pos)
    requires Processed(code, cfg, order, execute, leq, rank, inv, inv', pos)
    requires Reopened(cfg, order[pos], Marked(inv, order[pos]), inv', h)
    ensures pos' <= pos && order[pos'] == h
    ensures forall k | 0 <= k < pos' && order[k] in inv' ::
              order[k] in cfg.blocks && Settled(code, cfg, execute, leq, inv', order[k])
  {
    var b := order[pos];
    assert Before(order, pos + 1, h);
    pos' :| 0 <= pos' <= pos && order[pos'] == h;
    forall k | 0 <= k < pos' ensures !Reopened(cfg, b, Marked(inv, b), inv', order[k]) {
      if Reopened(cfg, b, Marked(inv, b), inv', order[k]) {
        OneBackEdge(code, cfg.blocks, b, h, order[k]);
      }
    }
    EarlierSettled(code, cfg, order, execute, leq, rank, init, inv, inv', pos, pos');
  }

  /** The parts of the loop invariant that do not depend on the position. */
  lemma StillRecorded<S(!new), E>(
    code: seq<Bytecode>, cfg: VMControlFlowGraph, order: seq<BlockId>, execute: Transfer<S, E>, leq: (S, S) -> bool,
    rank: S -> nat, init: S, inv: InvariantMap<S, E>, inv': InvariantMap<S, E>, pos: nat)
    requires Schedule(code, cfg, order) && OffsetsInRange(code) && Structured(code) && Preorder(leq)
    requires Progress(code, cfg, order, execute, leq, init, inv, pos)
    requires Processed(code, cfg, order, execute, leq, rank, inv, inv', pos)
    ensures ENTRY_BLOCK_ID in inv' && leq(init, inv'[ENTRY_BLOCK_ID].pre)
    ensures forall c | c in inv' :: c in order && c in cfg.blocks
    ensures HeadsFirst(code, inv')
  {
    var b := order[pos];
    HeadsStayFirst(code, cfg, order, execute, leq, rank, inv, inv', pos);
    RecordedBlocks(code, cfg, order, execute, leq, rank, init, inv, inv', pos);
    EntryCovered(leq, rank, init, inv, b, cfg.blocks[b].successors,
                 RunBlock(code, cfg, execute, b, inv[b].pre).value, inv');
  }

  /** Only blocks of the traversal are recorded. */
  lemma RecordedBlocks<S(!new), E>(
    code: seq<Bytecode>, cfg: VMControlFlowGraph, order: seq<BlockId>, execute: Transfer<S, E>, leq: (S, S) -> bool,
    rank: S -> nat, init: S, inv: InvariantMap<S, E>, inv': InvariantMap<S, E>, pos: nat)
    requires Schedule(code, cfg, order) && OffsetsInRange(code) && Structured(code) && Preorder(leq)
    requires Progress(code, cfg, order, execute, leq, init, inv, pos)
    requires Processed(code, cfg, order, execute, leq, rank, inv, inv', pos)
    ensures forall c | c in inv' :: c in order && c in cfg.blocks
  {
    var b := order[pos];
    forall c | c in inv' ensures c in order && c in cfg.blocks {
      if c !in inv {
        assert BlockEdge(cfg.blocks, b, c);
        SuccessorsAreBlocks(code, cfg.blocks, b, c);
      }
    }
  }

  /** The entry still covers the initial state. */
  lemma EntryCovered<S(!new), E>(
    leq: (S, S) -> bool, rank: S -> nat, init: S, inv: InvariantMap<S, E>, b: BlockId,
    succs: seq<BlockId>, state: S, inv': InvariantMap<S, E>)
    requires Preorder(leq) && b in inv
    requires ENTRY_BLOCK_ID in inv && leq(init, inv[ENTRY_BLOCK_ID].pre)
    requires Propagated(leq, rank, succs, |succs|, state, Marked(inv, b), inv')
    ensures ENTRY_BLOCK_ID in inv' && leq(init, inv'[ENTRY_BLOCK_ID].pre)
  {
    assert Marked(inv, b)[ENTRY_BLOCK_ID].pre == inv[ENTRY_BLOCK_ID].pre;
  }

  /** The number of blocks that are not recorded yet. */
  ghost function Unrecorded<S, E>(order: seq<BlockId>, inv: InvariantMap<S, E>): nat {
    |Elements(order) - inv.Keys|
  }

  /** One step of the analysis is progress: a block is recorded, a state is raised, or the traversal goes on. */
  ghost predicate Smaller<S(!new), E>(
    order: seq<BlockId>, rank: S -> nat, inv: InvariantMap<S, E>, pos: nat, inv': InvariantMap<S, E>, pos': nat)
  {
    || Unrecorded(order, inv') < Unrecorded(order, inv)
    || (&& Unrecorded(order, inv') == Unrecorded(order, inv)
        && (|| RankSum(order, inv', rank) < RankSum(order, inv, rank)
            || (RankSum(order, inv', rank) == RankSum(order, inv, rank) && pos < pos')))
  }

  lemma MoreRecorded(order: seq<BlockId>, keys: set<BlockId>, keys': set<BlockId>)
    requires keys <= keys' <= Elements(order) && keys != keys'
    ensures |Elements(order) - keys'| < |Elements(order) - keys|
  {
    var c :| c in keys' && c !in keys;
    var rest, rest' := Elements(order) - keys, Elements(order) - keys';
    assert rest' <= rest && c in rest && c !in rest';
    assert rest == rest' + (rest - rest');
    assert |rest| == |rest'| + |rest - rest'|;
  }

  /** Recording a block or raising a state makes the measure of the analysis smaller. */
  lemma MeasureDrops<S(!new), E>(
    order: seq<BlockId>, leq: (S, S) -> bool, rank: S -> nat, inv: InvariantMap<S, E>, pos: nat, b: BlockId,
    succs: seq<BlockId>, state: S, inv': InvariantMap<S, E>, pos': nat)
    requires b in inv && forall c | c in inv' :: c in order
    requires Propagated(leq, rank, succs, |succs|, state, Marked(inv, b), inv')
    requires pos' == pos + 1 || exists h :: h in inv && inv'[h] != Marked(inv, b)[h]
    ensures Smaller(order, rank, inv, pos, inv', pos')
  {
    if inv'.Keys != inv.Keys {
      MoreRecorded(order, inv.Keys, inv'.Keys);
    } else {
      RankSumDrops(order, inv, inv', rank);
      if h :| h in inv && inv'[h] != Marked(inv, b)[h] {
        assert rank(inv'[h].pre) < rank(inv[h].pre) && h in order;
      }
    }
  }

  lemma {:induction false} SamePreStates<S, E>(
    order: seq<BlockId>, inv: InvariantMap<S, E>, b: BlockId, post: BlockPostcondition<E>, rank: S -> nat)
    requires b in inv
    ensures inv[b := inv[b].(post := post)].Keys == inv.Keys
    ensures RankSum(order, inv[b := inv[b].(post := post)], rank) == RankSum(order, inv, rank)
  {
    if order != [] {
      SamePreStates(order[1..], inv, b, post, rank);
    }
  }

  lemma BlockIsOk<S(!new), E>(
    code: seq<Bytecode>, cfg: VMControlFlowGraph, ok: S -> bool, execute: Transfer<S, E>, b: BlockId, pre: S)
    requires b in cfg.blocks && b <= cfg.blocks[b].exit < |code| && StaysOk(ok, execute) && ok(pre)
    requires RunBlock(code, cfg, execute, b, pre).Ok?
    ensures ok(RunBlock(code, cfg, execute, b, pre).value)
  {
    RunIsOk(code, ok, execute, pre, b, cfg.blocks[b].exit + 1, cfg.blocks[b].exit);
  }

  lemma MarkedIsOk<S(!new), E>(ok: S -> bool, inv: InvariantMap<S, E>, b: BlockId, post: BlockPostcondition<E>)
    requires AllOk(ok, inv) && b in inv
    ensures AllOk(ok, inv[b := inv[b].(post := post)])
  {
  }

  lemma {:induction false} JoinedIsMade<S, E>(
    code: seq<Bytecode>, cfg: VMControlFlowGraph, join: Join<S>, execute: Transfer<S, E>, init: S,
    inv: InvariantMap<S, E>, succs: seq<BlockId>, n: nat, state: S)
    requires n <= |succs| && AllMade(code, cfg, join, execute, init, inv)
    requires forall k | 0 <= k < n :: Made(code, cfg, join, execute, init, succs[k], state)
    ensures AllMade(code, cfg, join, execute, init, JoinAll(join, inv, succs, n, state))
    decreases n
  {
    if n > 0 {
      JoinedIsMade(code, cfg, join, execute, init, inv, succs, n - 1, state);
      var was, c := JoinAll(join, inv, succs, n - 1, state), succs[n - 1];
      if c in was {
        MadeByJoin(code, cfg, join, execute, init, c, was[c].pre, state);
      }
    }
  }

  /** The map after a block was executed. */
  ghost predicate IsAfter<S, E>(
    code: seq<Bytecode>, cfg: VMControlFlowGraph, join: Join<S>, execute: Transfer<S, E>, inv: InvariantMap<S, E>,
    b: BlockId, inv': InvariantMap<S, E>)
    requires b in inv && b in cfg.blocks && b <= cfg.blocks[b].exit < |code|
  {
    match RunBlock(code, cfg, execute, b, inv[b].pre)
    case Err(e) => inv' == inv[b := inv[b].(post := Error(e))]
    case Ok(state) =>
      inv' == JoinAll(join, Marked(inv, b), cfg.blocks[b].successors, |cfg.blocks[b].successors|, state)
  }

  lemma AfterError<S, E>(
    code: seq<Bytecode>, cfg: VMControlFlowGraph, join: Join<S>, execute: Transfer<S, E>, inv: InvariantMap<S, E>,
    b: BlockId, e: E, inv': InvariantMap<S, E>)
    requires b in inv && b in cfg.blocks && b <= cfg.blocks[b].exit < |code|
    requires RunBlock(code, cfg, execute, b, inv[b].pre) == Err(e) && inv' == inv[b := inv[b].(post := Error(e))]
    ensures IsAfter(code, cfg, join, execute, inv, b, inv')
  {
  }

  lemma AfterSuccess<S, E>(
    code: seq<Bytecode>, cfg: VMControlFlowGraph, join: Join<S>, execute: Transfer<S, E>, inv: InvariantMap<S, E>,
    b: BlockId, state: S, inv': InvariantMap<S, E>)
    requires b in inv && b in cfg.blocks && b <= cfg.blocks[b].exit < |code|
    requires RunBlock(code, cfg, execute, b, inv[b].pre) == Ok(state)
    requires inv' == JoinAll(join, Marked(inv, b), cfg.blocks[b].successors, |cfg.blocks[b].successors|, state)
    ensures IsAfter(code, cfg, join, execute, inv, b, inv')
  {
  }

  /** Whatever a block adds to the map is its outcome, joined with what was there. */
  lemma AfterBlockIsMade<S, E>(
    code: seq<Bytecode>, cfg: VMControlFlowGraph, join: Join<S>, execute: Transfer<S, E>, init: S,
    inv: InvariantMap<S, E>, b: BlockId, inv': InvariantMap<S, E>)
    requires AllMade(code, cfg, join, execute, init, inv)
    requires b in inv && b in cfg.blocks && b <= cfg.blocks[b].exit < |code|
    requires IsAfter(code, cfg, join, execute, inv, b, inv')
    ensures AllMade(code, cfg, join, execute, init, inv')
  {
    var r, succs := RunBlock(code, cfg, execute, b, inv[b].pre), cfg.blocks[b].successors;
    if r.Ok? {
      forall k | 0 <= k < |succs| ensures Made(code, cfg, join, execute, init, succs[k], r.value) {
        MadeByBlock(code, cfg, join, execute, init, b, inv[b].pre, r.value, succs[k]);
      }
      JoinedIsMade(code, cfg, join, execute, init, Marked(inv, b), succs, |succs|, r.value);
    }
  }

  /** Marking a block as failed is progress. */
  lemma BlockFails<S(!new), E>(
    code: seq<Bytecode>, cfg: VMControlFlowGraph, order: seq<BlockId>, ok: S -> bool, execute: Transfer<S, E>,
    leq: (S, S) -> bool, rank: S -> nat, init: S, inv: InvariantMap<S, E>, pos: nat, b: BlockId, e: E)
    requires Schedule(code, cfg, order) && Preorder(leq) && AllOk(ok, inv)
    requires Progress(code, cfg, order, execute, leq, init, inv, pos)
    requires pos < |order| && b == order[pos] && b in inv && RunBlock(code, cfg, execute, b, inv[b].pre) == Err(e)
    ensures var inv' := inv[b := inv[b].(post := Error(e))];
            && Progress(code, cfg, order, execute, leq, init, inv', pos + 1) && AllOk(ok, inv')
            && Smaller(order, rank, inv, pos, inv', pos + 1)
  {
    ErrorStep(code, cfg, order, execute, leq, init, inv, pos, e);
    SamePreStates(order, inv, b, Error(e), rank);
    MarkedIsOk(ok, inv, b, Error(e));
  }

  /** Propagating the result of a block is progress. */
  lemma BlockSucceeds<S(!new), E>(
    code: seq<Bytecode>, cfg: VMControlFlowGraph, order: seq<BlockId>, execute: Transfer<S, E>, leq: (S, S) -> bool,
    rank: S -> nat, init: S, inv: InvariantMap<S, E>, inv': InvariantMap<S, E>, pos: nat, b: BlockId,
    next: Option<BlockId>)
    returns (pos': nat)
    requires Schedule(code, cfg, order) && OffsetsInRange(code) && Structured(code) && Preorder(leq)
    requires Progress(code, cfg, order, execute, leq, init, inv, pos)
    requires Processed(code, cfg, order, execute, leq, rank, inv, inv', pos) && b == order[pos]
    requires NextOk(cfg, b, Marked(inv, b), inv', NextBlock(cfg, b), next)
    ensures pos' <= |order| && next == if pos' < |order| then Some(order[pos']) else None
    ensures Progress(code, cfg, order, execute, leq, init, inv', pos')
    ensures Smaller(order, rank, inv, pos, inv', pos')
  {
    var state := RunBlock(code, cfg, execute, b, inv[b].pre).value;
    pos' := SuccessStep(code, cfg, order, execute, leq, rank, init, inv, inv', pos, next);
    MeasureDrops(order, leq, rank, inv, pos, b, cfg.blocks[b].successors, state, inv', pos');
  }

  /** Propagates the result of the block at position `pos`. */
  method FinishBlock<S(!new), E>(
    code: seq<Bytecode>, cfg: VMControlFlowGraph, ghost order: seq<BlockId>, ghost ok: S -> bool,
    join: Join<S>, ghost execute: Transfer<S, E>, ghost leq: (S, S) -> bool, ghost rank: S -> nat, ghost init: S,
    inv: InvariantMap<S, E>, ghost pos: nat, b: BlockId, state: S)
    returns (inv': InvariantMap<S, E>, next: Option<BlockId>, ghost pos': nat)
    requires Schedule(code, cfg, order) && OffsetsInRange(code) && Structured(code)
    requires FiniteHeight(ok, join, leq, rank) && ok(state) && AllOk(ok, inv)
    requires Progress(code, cfg, order, execute, leq, init, inv, pos)
    requires pos < |order| && b == order[pos] && b in inv
    requires RunBlock(code, cfg, execute, b, inv[b].pre) == Ok(state)
    ensures pos' <= |order| && next == if pos' < |order| then Some(order[pos']) else None
    ensures Progress(code, cfg, order, execute, leq, init, inv', pos') && AllOk(ok, inv')
    ensures Smaller(order, rank, inv, pos, inv', pos')
    ensures IsAfter(code, cfg, join, execute, inv, b, inv')
  {
    MarkedIsOk(ok, inv, b, Success);
    var succs := cfg.blocks[b].successors;
    inv', next := Propagate(cfg, ok, join, leq, rank, b, succs, state, Marked(inv, b), NextBlock(cfg, b));
    pos' := BlockSucceeds(code, cfg, order, execute, leq, rank, init, inv, inv', pos, b, next);
    AfterSuccess(code, cfg, join, execute, inv, b, state, inv');
  }

  /** Executes the block at position `pos` and propagates its result. */
  method AnalyzeBlock<S(!new), E>(
    code: seq<Bytecode>, cfg: VMControlFlowGraph, ghost order: seq<BlockId>, ghost ok: S -> bool,
    join: Join<S>, execute: Transfer<S, E>, ghost leq: (S, S) -> bool, ghost rank: S -> nat, ghost init: S,
    inv: InvariantMap<S, E>, ghost pos: nat, b: BlockId)
    returns (inv': InvariantMap<S, E>, next: Option<BlockId>, ghost pos': nat)
    requires Schedule(code, cfg, order) && OffsetsInRange(code) && Structured(code)
    requires FiniteHeight(ok, join, leq, rank) && StaysOk(ok, execute) && AllOk(ok, inv)
    requires Progress(code, cfg, order, execute, leq, init, inv, pos)
    requires pos < |order| && b == order[pos] && b in inv
    ensures pos' <= |order| && next == if pos' < |order| then Some(order[pos']) else None
    ensures Progress(code, cfg, order, execute, leq, init, inv', pos') && AllOk(ok, inv')
    ensures Smaller(order, rank, inv, pos, inv', pos')
    ensures IsAfter(code, cfg, join, execute, inv, b, inv')
  {
    var r := ExecuteBlock(code, cfg, execute, b, inv[b].pre);
    match r {
      case Err(e) =>
        BlockFails(code, cfg, order, ok, execute, leq, rank, init, inv, pos, b, e);
        inv' := inv[b := inv[b].(post := Error(e))];
        AfterError(code, cfg, join, execute, inv, b, e, inv');
        assert Follows(cfg, order, pos);
        next := NextBlock(cfg, b);
        pos' := pos + 1;
      case Ok(state) =>
        BlockIsOk(code, cfg, ok, execute, b, inv[b].pre);
        inv', next, pos' := FinishBlock(code, cfg, order, ok, join, execute, leq, rank, init, inv, pos, b, state);
    }
  }

  /** The analysis is underway: the next block is that at position `pos`. */
  ghost predicate Underway<S(!new), E>(
    code: seq<Bytecode>, cfg: VMControlFlowGraph, order: seq<BlockId>, ok: S -> bool, join: Join<S>,
    execute: Transfer<S, E>, leq: (S, S) -> bool, init: S, inv: InvariantMap<S, E>, pos: nat, next: Option<BlockId>)
    requires BlocksOf(code, cfg.blocks)
  {
    && pos <= |order| && next == (if pos < |order| then Some(order[pos]) else None)
    && Progress(code, cfg, order, execute, leq, init, inv, pos) && AllOk(ok, inv)
    && AllMade(code, cfg, join, execute, init, inv)
  }

  /** Passes over a block that is not recorded, or analyzes it. */
  method Advance<S(!new), E>(
    code: seq<Bytecode>, cfg: VMControlFlowGraph, ghost order: seq<BlockId>, ghost ok: S -> bool,
    join: Join<S>, execute: Transfer<S, E>, ghost leq: (S, S) -> bool, ghost rank: S -> nat, ghost init: S,
    inv: InvariantMap<S, E>, ghost pos: nat, b: BlockId)
    returns (inv': InvariantMap<S, E>, next: Option<BlockId>, ghost pos': nat)
    requires Schedule(code, cfg, order) && OffsetsInRange(code) && Structured(code)
    requires FiniteHeight(ok, join, leq, rank) && StaysOk(ok, execute)
    requires Underway(code, cfg, order, ok, join, execute, leq, init, inv, pos, Some(b))
    ensures Underway(code, cfg, order, ok, join, execute, leq, init, inv', pos', next)
    ensures Smaller(order, rank, inv, pos, inv', pos')
  {
    if b !in inv {
      SkipStep(code, cfg, order, execute, leq, init, inv, pos);
      inv', next, pos' := inv, NextBlock(cfg, b), pos + 1;
    } else {
      inv', next, pos' := AnalyzeBlock(code, cfg, order, ok, join, execute, leq, rank, init, inv, pos, b);
      AfterBlockIsMade(code, cfg, join, execute, init, inv, b, inv');
    }
  }

  /** Visits the blocks in order, and goes back to a loop head whose state was raised, until nothing changes. */
  method AnalyzeInOrder<S(!new), E>(
    code: seq<Bytecode>, cfg: VMControlFlowGraph, ghost order: seq<BlockId>, ghost ok: S -> bool,
    join: Join<S>, execute: Transfer<S, E>, ghost leq: (S, S) -> bool, ghost rank: S -> nat, init: S)
    returns (inv: InvariantMap<S, E>)
    requires Schedule(code, cfg, order) && OffsetsInRange(code) && Structured(code)
    requires FiniteHeight(ok, join, leq, rank) && StaysOk(ok, execute) && ok(init)
    ensures Underway(code, cfg, order, ok, join, execute, leq, init, inv, |order|, None)
  {
    inv := map[ENTRY_BLOCK_ID := BlockInvariant(init, Unprocessed)];
    var next := Some(ENTRY_BLOCK_ID);
    ghost var pos: nat := 0;
    Begins(code, cfg, order, ok, join, execute, leq, init);
    while next.Some?
      invariant Underway(code, cfg, order, ok, join, execute, leq, init, inv, pos, next)
      decreases Unrecorded(order, inv), RankSum(order, inv, rank), |order| - pos
    {
      inv, next, pos := Advance(code, cfg, order, ok, join, execute, leq, rank, init, inv, pos, next.value);
    }
  }

  /**
   Analyzes accepted code from an initial state. The result is a fixpoint that covers the initial state:
   every recorded block was executed on its final pre-state. And it covers no more: every recorded state is made of the
   initial one and of outcomes of blocks.
   */
  method AnalyzeFunction<S(!new), E>(
    code: seq<Bytecode>, cfg: VMControlFlowGraph, ghost ok: S -> bool,
    join: Join<S>, execute: Transfer<S, E>, ghost leq: (S, S) -> bool, ghost rank: S -> nat, init: S)
    returns (inv: InvariantMap<S, E>)
    requires IsGraph(code, cfg) && OffsetsInRange(code) && Structured(code)
    requires FiniteHeight(ok, join, leq, rank) && StaysOk(ok, execute) && ok(init)
    ensures Fixpoint(code, cfg, execute, leq, init, inv) && AllOk(ok, inv)
    ensures AllMade(code, cfg, join, execute, init, inv)
    ensures forall b | b in inv :: Reachable(cfg.blocks, b)
  {
    ghost var order :| GraphOf(code, cfg, order);
    GraphSchedule(code, cfg, order);
    inv := AnalyzeInOrder(code, cfg, order, ok, join, execute, leq, rank, init);
    FinalProgress(code, cfg, order, execute, leq, init, inv);
  }

  lemma Begins<S(!new), E>(
    code: seq<Bytecode>, cfg: VMControlFlowGraph, order: seq<BlockId>, ok: S -> bool, join: Join<S>,
    execute: Transfer<S, E>, leq: (S, S) -> bool, init: S)
    requires Schedule(code, cfg, order) && Preorder(leq) && ok(init)
    ensures var inv := map[ENTRY_BLOCK_ID := BlockInvariant(init, Unprocessed)];
            Underway(code, cfg, order, ok, join, execute, leq, init, inv, 0, Some(ENTRY_BLOCK_ID))
  {
    assert order[0] in order;
    MadeAtEntry(code, cfg, join, execute, init);
  }

  lemma FinalProgress<S(!new), E>(
    code: seq<Bytecode>, cfg: VMControlFlowGraph, order: seq<BlockId>, execute: Transfer<S, E>, leq: (S, S) -> bool,
    init: S, inv: InvariantMap<S, E>)
    requires GraphOf(code, cfg, order) && OffsetsInRange(code) && Structured(code)
    requires Progress(code, cfg, order, execute, leq, init, inv, |order|)
    ensures Fixpoint(code, cfg, execute, leq, init, inv)
    ensures forall b | b in inv :: Reachable(cfg.blocks, b)
  {
    forall b | b in inv ensures Settled(code, cfg, execute, leq, inv, b) && Reachable(cfg.blocks, b) {
      var k :| 0 <= k < |order| && order[k] == b;
      TraversalIsComplete(code, cfg, order, b);
    }
  }

  // ---------------------------------------------------------------------------------------------
  // Precision
  // ---------------------------------------------------------------------------------------------

  /** A family of states that holds the initial one, and is closed under joins and under the execution of blocks. */
  ghost predicate Closed<S(!new), E>(
    code: seq<Bytecode>, cfg: VMControlFlowGraph, join: Join<S>, execute: Transfer<S, E>, init: S,
    family: (BlockId, S) -> bool)
  {
    && family(ENTRY_BLOCK_ID, init)
    && (forall c, x, y | family(c, x) && family(c, y) :: family(c, join(x, y).0))
    && forall b, c, x | family(b, x) && LeadsTo(code, cfg, b, c) :: OutcomeIn(code, cfg, execute, family, b, c, x)
  }

  ghost predicate OutcomeIn<S, E>(
    code: seq<Bytecode>, cfg: VMControlFlowGraph, execute: Transfer<S, E>, family: (BlockId, S) -> bool, b: BlockId,
    c: BlockId, x: S)
    requires LeadsTo(code, cfg, b, c)
  {
    RunBlock(code, cfg, execute, b, x).Ok? ==> family(c, RunBlock(code, cfg, execute, b, x).value)
  }

  lemma {:induction false} StateIsInside<S(!new), E>(
    code: seq<Bytecode>, cfg: VMControlFlowGraph, join: Join<S>, execute: Transfer<S, E>, init: S,
    family: (BlockId, S) -> bool, origin: Origin, c: BlockId)
    requires Closed(code, cfg, join, execute, init, family)
    requires StateOf(code, cfg, join, execute, init, origin, c).Some?
    ensures family(c, StateOf(code, cfg, join, execute, init, origin, c).value)
    decreases origin
  {
    match origin
    case Given =>
    case OutcomeOf(b, before) =>
      StateIsInside(code, cfg, join, execute, init, family, before, b);
      var x := StateOf(code, cfg, join, execute, init, before, b).value;
      assert OutcomeIn(code, cfg, execute, family, b, c, x);
    case Both(one, other) =>
      StateIsInside(code, cfg, join, execute, init, family, one, c);
      StateIsInside(code, cfg, join, execute, init, family, other, c);
  }

  /** Nothing is recorded that is not in every such family. */
  lemma RecordedIsInside<S(!new), E>(
    code: seq<Bytecode>, cfg: VMControlFlowGraph, join: Join<S>, execute: Transfer<S, E>, init: S,
    family: (BlockId, S) -> bool, inv: InvariantMap<S, E>, b: BlockId)
    requires AllMade(code, cfg, join, execute, init, inv) && Closed(code, cfg, join, execute, init, family)
    requires b in inv
    ensures family(b, inv[b].pre)
  {
    var origin :| StateOf(code, cfg, join, execute, init, origin, b) == Some(inv[b].pre);
    StateIsInside(code, cfg, join, execute, init, family, origin, b);
  }

  /** Larger states succeed less often, and with larger results. */
  ghost predicate Monotone<S(!new), E>(ok: S -> bool, execute: Transfer<S, E>, leq: (S, S) -> bool) {
    forall x, y, instr, pc, last | ok(x) && ok(y) && leq(x, y) :: StepMonotone(execute, leq, x, y, instr, pc, last)
  }

  ghost predicate StepMonotone<S, E>(
    execute: Transfer<S, E>, leq: (S, S) -> bool, x: S, y: S, instr: Bytecode, pc: nat, last: nat)
  {
    execute(y, instr, pc, last).Ok? ==>
      execute(x, instr, pc, last).Ok? && leq(execute(x, instr, pc, last).value, execute(y, instr, pc, last).value)
  }

  /** Joins are least upper bounds. */
  ghost predicate LeastJoins<S(!new)>(ok: S -> bool, join: Join<S>, leq: (S, S) -> bool) {
    forall x, y, z | ok(x) && ok(y) && ok(z) && leq(x, z) && leq(y, z) :: leq(join(x, y).0, z)
  }

  lemma {:induction false} RunMonotone<S(!new), E>(
    code: seq<Bytecode>, ok: S -> bool, execute: Transfer<S, E>, leq: (S, S) -> bool, x: S, y: S, first: nat, pc: nat,
    last: nat)
    requires first <= pc <= |code| && Monotone(ok, execute, leq) && StaysOk(ok, execute)
    requires ok(x) && ok(y) && leq(x, y) && RunTo(code, execute, y, first, pc, last).Ok?
    ensures RunTo(code, execute, x, first, pc, last).Ok?
    ensures leq(RunTo(code, execute, x, first, pc, last).value, RunTo(code, execute, y, first, pc, last).value)
    decreases pc
  {
    if pc > first {
      RunMonotone(code, ok, execute, leq, x, y, first, pc - 1, last);
      RunIsOk(code, ok, execute, x, first, pc - 1, last);
      RunIsOk(code, ok, execute, y, first, pc - 1, last);
      var x' := RunTo(code, execute, x, first, pc - 1, last).value;
      var y' := RunTo(code, execute, y, first, pc - 1, last).value;
      assert StepMonotone(execute, leq, x', y', code[pc - 1], pc - 1, last);
    }
  }

  /** A fixpoint without errors. */
  ghost predicate Accepts<S(!new), E>(
    code: seq<Bytecode>, cfg: VMControlFlowGraph, ok: S -> bool, execute: Transfer<S, E>, leq: (S, S) -> bool,
    init: S, inv: InvariantMap<S, E>)
    requires BlocksOf(code, cfg.blocks)
  {
    && Fixpoint(code, cfg, execute, leq, init, inv) && AllOk(ok, inv)
    && forall b | b in inv :: inv[b].post == Success
  }

  /** The states below those of a map. */
  ghost predicate Below<S, E>(ok: S -> bool, leq: (S, S) -> bool, inv: InvariantMap<S, E>, b: BlockId, x: S) {
    b in inv && ok(x) && leq(x, inv[b].pre)
  }

  lemma OutcomeIsBelow<S(!new), E>(
    code: seq<Bytecode>, cfg: VMControlFlowGraph, ok: S -> bool, execute: Transfer<S, E>, leq: (S, S) -> bool, init: S,
    other: InvariantMap<S, E>, b: BlockId, x: S)
    requires BlocksOf(code, cfg.blocks) && Preorder(leq) && StaysOk(ok, execute) && Monotone(ok, execute, leq)
    requires Accepts(code, cfg, ok, execute, leq, init, other) && Below(ok, leq, other, b, x)
    ensures b in cfg.blocks && RunBlock(code, cfg, execute, b, x).Ok?
    ensures forall c | c in cfg.blocks[b].successors ::
              Below(ok, leq, other, c, RunBlock(code, cfg, execute, b, x).value)
  {
    assert Settled(code, cfg, execute, leq, other, b);
    var exit := cfg.blocks[b].exit;
    RunMonotone(code, ok, execute, leq, x, other[b].pre, b, exit + 1, exit);
    BlockIsOk(code, cfg, ok, execute, b, x);
  }

  /**
   For monotone analyses the result is the least fixpoint. In particular, the analysis refuses code only if every
   fixpoint does: if some fixpoint is without errors, then so is the result, which is below it.
   */
  lemma LeastFixpoint<S(!new), E>(
    code: seq<Bytecode>, cfg: VMControlFlowGraph, ok: S -> bool, join: Join<S>, execute: Transfer<S, E>,
    leq: (S, S) -> bool, rank: S -> nat, init: S, inv: InvariantMap<S, E>, other: InvariantMap<S, E>)
    requires BlocksOf(code, cfg.blocks) && FiniteHeight(ok, join, leq, rank) && StaysOk(ok, execute) && ok(init)
    requires Monotone(ok, execute, leq) && LeastJoins(ok, join, leq)
    requires Fixpoint(code, cfg, execute, leq, init, inv) && AllMade(code, cfg, join, execute, init, inv)
    requires Accepts(code, cfg, ok, execute, leq, init, other)
    ensures forall b | b in inv :: b in other && leq(inv[b].pre, other[b].pre) && inv[b].post == Success
  {
    var family := (b: BlockId, x: S) => Below(ok, leq, other, b, x);
    forall c, x, y | family(c, x) && family(c, y) ensures family(c, join(x, y).0) {
      assert JoinOk(ok, join, leq, rank, x, y);
    }
    forall b, c, x | family(b, x) && LeadsTo(code, cfg, b, c)
      ensures OutcomeIn(code, cfg, execute, family, b, c, x)
    {
      OutcomeIsBelow(code, cfg, ok, execute, leq, init, other, b, x);
    }
    forall b | b in inv ensures Below(ok, leq, other, b, inv[b].pre) && inv[b].post == Success {
      RecordedIsInside(code, cfg, join, execute, init, family, inv, b);
      OutcomeIsBelow(code, cfg, ok, execute, leq, init, other, b, inv[b].pre);
      assert Settled(code, cfg, execute, leq, inv, b);
    }
  }

  // ---------------------------------------------------------------------------------------------
  // Concrete runs
  // ---------------------------------------------------------------------------------------------

  /** A concrete configuration: a machine state and the instruction that is next. */
  datatype Config<C> = Config(state: C, pc: nat)

  /** One concrete step, from a state at an offset to a state at an offset. */
  type Step<!C> = (C, nat, C, nat) -> bool

  /** The transfer function over-approximates the concrete steps, and larger abstract states describe more. */
  ghost predicate LocallySound<S(!new), E, C(!new)>(
    code: seq<Bytecode>, ok: S -> bool, execute: Transfer<S, E>, leq: (S, S) -> bool, describes: (S, C) -> bool,
    step: Step<C>)
  {
    && (forall x, y, c | ok(x) && ok(y) && leq(x, y) && describes(x, c) :: describes(y, c))
    && (forall c, pc: nat, c', pc': nat | pc < |code| && step(c, pc, c', pc') :: Edge(code, pc, pc'))
    && (forall s, last: nat, c, pc: nat, c', pc': nat |
          ok(s) && pc < |code| && describes(s, c) && step(c, pc, c', pc') && execute(s, code[pc], pc, last).Ok? ::
          describes(execute(s, code[pc], pc, last).value, c'))
  }

  ghost predicate IsRun<C(!new)>(code: seq<Bytecode>, step: Step<C>, run: seq<Config<C>>) {
    && |run| > 0 && run[0].pc == 0
    && (forall k | 0 <= k < |run| :: run[k].pc < |code|)
    && (forall k | 0 < k < |run| :: step(run[k - 1].state, run[k - 1].pc, run[k].state, run[k].pc))
  }

  /** The invariant of block `b`, run up to the offset of the configuration, describes the configuration. */
  ghost predicate Describes<S(!new), E, C(!new)>(
    code: seq<Bytecode>, cfg: VMControlFlowGraph, execute: Transfer<S, E>, describes: (S, C) -> bool,
    inv: InvariantMap<S, E>, config: Config<C>, b: BlockId)
  {
    && b in inv && b in cfg.blocks && b <= config.pc <= cfg.blocks[b].exit && config.pc < |code|
    && var state := RunTo(code, execute, inv[b].pre, b, config.pc, cfg.blocks[b].exit);
    && state.Ok?
    && describes(state.value, config.state)
  }

  /** The run executes no instruction of a block that the analysis rejected. */
  ghost predicate AvoidsErrors<S(!new), E, C(!new)>(
    cfg: VMControlFlowGraph, inv: InvariantMap<S, E>, run: seq<Config<C>>)
  {
    forall k, b | 0 <= k < |run| - 1 && b in inv && b in cfg.blocks && b <= run[k].pc <= cfg.blocks[b].exit ::
      !inv[b].post.Error?
  }

  /**
   Every concrete run stays inside the invariants of a fixpoint: as long as it executes no rejected block, each
   configuration it reaches is described by the invariant of its block.
   */
  lemma {:induction false} RunsStayInside<S(!new), E, C(!new)>(
    code: seq<Bytecode>, cfg: VMControlFlowGraph, ok: S -> bool, execute: Transfer<S, E>, leq: (S, S) -> bool, init: S,
    inv: InvariantMap<S, E>, describes: (S, C) -> bool, step: Step<C>, run: seq<Config<C>>, k: nat)
    returns (b: BlockId)
    requires BlocksOf(code, cfg.blocks)
    requires Fixpoint(code, cfg, execute, leq, init, inv) && AllOk(ok, inv) && StaysOk(ok, execute) && ok(init)
    requires LocallySound(code, ok, execute, leq, describes, step)
    requires IsRun(code, step, run) && describes(init, run[0].state) && k < |run|
    requires AvoidsErrors(cfg, inv, run)
    ensures Describes(code, cfg, execute, describes, inv, run[k], b)
    decreases k
  {
    if k == 0 {
      b := ENTRY_BLOCK_ID;
    } else {
      b := RunsStayInside(code, cfg, ok, execute, leq, init, inv, describes, step, run, k - 1);
      b := StepStaysInside(code, cfg, ok, execute, leq, init, inv, describes, step, run[k - 1], run[k], b);
    }
  }

  lemma StepStaysInside<S(!new), E, C(!new)>(
    code: seq<Bytecode>, cfg: VMControlFlowGraph, ok: S -> bool, execute: Transfer<S, E>, leq: (S, S) -> bool, init: S,
    inv: InvariantMap<S, E>, describes: (S, C) -> bool, step: Step<C>, x: Config<C>, y: Config<C>, b: BlockId)
    returns (b': BlockId)
    requires BlocksOf(code, cfg.blocks)
    requires Fixpoint(code, cfg, execute, leq, init, inv) && AllOk(ok, inv) && StaysOk(ok, execute)
    requires LocallySound(code, ok, execute, leq, describes, step)
    requires Describes(code, cfg, execute, describes, inv, x, b) && !inv[b].post.Error?
    requires step(x.state, x.pc, y.state, y.pc) && y.pc < |code|
    ensures Describes(code, cfg, execute, describes, inv, y, b')
  {
    StepIsDescribed(code, cfg, ok, execute, leq, inv, describes, step, x, y, b);
    if x.pc < cfg.blocks[b].exit {
      InsideBlock(code, cfg.blocks, b, x.pc, y.pc);
      b' := b;
    } else {
      BlockIsOk(code, cfg, ok, execute, b, inv[b].pre);
      assert y.pc in cfg.blocks[b].successors;
      b' := y.pc;
    }
  }

  /** The state after the next instruction of the block describes the next configuration. */
  lemma StepIsDescribed<S(!new), E, C(!new)>(
    code: seq<Bytecode>, cfg: VMControlFlowGraph, ok: S -> bool, execute: Transfer<S, E>, leq: (S, S) -> bool,
    inv: InvariantMap<S, E>, describes: (S, C) -> bool, step: Step<C>, x: Config<C>, y: Config<C>, b: BlockId)
    requires AllOk(ok, inv) && StaysOk(ok, execute) && LocallySound(code, ok, execute, leq, describes, step)
    requires Describes(code, cfg, execute, describes, inv, x, b) && cfg.blocks[b].exit < |code|
    requires Settled(code, cfg, execute, leq, inv, b) && !inv[b].post.Error?
    requires step(x.state, x.pc, y.state, y.pc)
    ensures Edge(code, x.pc, y.pc)
    ensures var after := RunTo(code, execute, inv[b].pre, b, x.pc + 1, cfg.blocks[b].exit);
            after.Ok? && describes(after.value, y.state)
  {
    var exit := cfg.blocks[b].exit;
    NoErrorInside(code, cfg, execute, leq, inv, b, x.pc);
    RunIsOk(code, ok, execute, inv[b].pre, b, x.pc, exit);
    var before := RunTo(code, execute, inv[b].pre, b, x.pc, exit).value;
    assert execute(before, code[x.pc], x.pc, exit).Ok?;
  }

  /** In a block without error every instruction succeeds. */
  lemma NoErrorInside<S(!new), E>(
    code: seq<Bytecode>, cfg: VMControlFlowGraph, execute: Transfer<S, E>, leq: (S, S) -> bool,
    inv: InvariantMap<S, E>, b: BlockId, pc: nat)
    requires b in inv && b in cfg.blocks && b <= pc <= cfg.blocks[b].exit < |code|
    requires Settled(code, cfg, execute, leq, inv, b) && !inv[b].post.Error?
    ensures RunTo(code, execute, inv[b].pre, b, pc + 1, cfg.blocks[b].exit).Ok?
  {
    var exit := cfg.blocks[b].exit;
    if RunTo(code, execute, inv[b].pre, b, pc + 1, exit).Err? {
      ErrorPersists(code, execute, inv[b].pre, b, pc + 1, exit + 1, exit);
    }
  }
}
