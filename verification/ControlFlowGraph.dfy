/** The control-flow graph that the later passes of the bytecode verifier work on. */
module ControlFlowGraphs {
  import opened Bytecodes
  import opened ControlFlow
  import opened Wrappers

  type BlockId = nat

  const ENTRY_BLOCK_ID: BlockId := 0

  datatype BasicBlock = BasicBlock(exit: nat, successors: seq<BlockId>)

  datatype VMControlFlowGraph = VMControlFlowGraph(
    blocks: map<BlockId, BasicBlock>,
    traversalSuccessors: map<BlockId, BlockId>,
    loopHeads: map<BlockId, set<BlockId>>)

  // ---------------------------------------------------------------------------------------------
  // What a graph of given code is
  // ---------------------------------------------------------------------------------------------

  /** An offset that begins a block: the entry, a branch target, or the offset after a branch. */
  ghost predicate Starts(code: seq<Bytecode>, pc: nat) {
    || pc == ENTRY_BLOCK_ID
    || (exists i :: 0 <= i < |code| && HasOffset(code[i]) && code[i].offset == pc)
    || (0 < pc < |code| && IsBranch(code[pc - 1]))
  }

  /** Some block ends at `pc`. */
  ghost predicate IsExit(blocks: map<BlockId, BasicBlock>, pc: nat) {
    exists b :: b in blocks && blocks[b].exit == pc
  }

  /** The blocks cut the code at exactly the offsets that begin a block. */
  ghost predicate BlocksOf(code: seq<Bytecode>, blocks: map<BlockId, BasicBlock>) {
    && ENTRY_BLOCK_ID in blocks
    && (forall b | b in blocks ::
          && b <= blocks[b].exit < |code|
          && Successors(code, blocks[b].exit, blocks[b].successors))
    && (forall pc: nat | pc + 1 < |code| && IsExit(blocks, pc) :: pc + 1 in blocks)
    && (forall b | b in blocks :: Starts(code, b))
    && (forall pc: nat | pc < |code| && Starts(code, pc) :: pc in blocks)
    && (forall b, pc | b in blocks && b < pc <= blocks[b].exit :: pc !in blocks)
  }

  predicate IsBackEdge(cur: BlockId, target: BlockId) {
    target <= cur
  }

  /** An edge between blocks. */
  predicate BlockEdge(blocks: map<BlockId, BasicBlock>, b: BlockId, c: BlockId) {
    b in blocks && c in blocks[b].successors
  }

  /** A path of blocks from the entry. */
  ghost predicate BlockPath(blocks: map<BlockId, BasicBlock>, path: seq<BlockId>) {
    && |path| > 0 && path[0] == ENTRY_BLOCK_ID
    && (forall k | 0 < k < |path| :: BlockEdge(blocks, path[k - 1], path[k]))
  }

  /** A path that takes no back edge. */
  ghost predicate ForwardPath(blocks: map<BlockId, BasicBlock>, path: seq<BlockId>) {
    && BlockPath(blocks, path)
    && (forall k | 0 < k < |path| :: !IsBackEdge(path[k - 1], path[k]))
  }

  ghost predicate Reachable(blocks: map<BlockId, BasicBlock>, b: BlockId) {
    exists path :: BlockPath(blocks, path) && path[|path| - 1] == b
  }

  ghost predicate ForwardReachable(blocks: map<BlockId, BasicBlock>, b: BlockId) {
    exists path :: ForwardPath(blocks, path) && path[|path| - 1] == b
  }

  /**
   A traversal order: starts at the entry, repeats nothing, and lists the source of every forward edge before its
   target.
   */
  ghost predicate TraversalOrder(blocks: map<BlockId, BasicBlock>, order: seq<BlockId>) {
    && |order| > 0 && order[0] == ENTRY_BLOCK_ID
    && (forall i, j | 0 <= i < j < |order| :: order[i] != order[j])
    && (forall i | 0 <= i < |order| :: ForwardReachable(blocks, order[i]))
    && (forall b | ForwardReachable(blocks, b) :: b in order)
    && (forall i, c | 0 <= i < |order| && BlockEdge(blocks, order[i], c) && !IsBackEdge(order[i], c) ::
          After(order, i, c))
  }

  /** Block `c` is listed after position `i`. */
  ghost predicate After(order: seq<BlockId>, i: int, c: BlockId) {
    exists j :: i < j < |order| && 0 <= j && order[j] == c
  }

  /** Block `c` is listed before position `i`. */
  ghost predicate Before(order: seq<BlockId>, i: int, c: BlockId) {
    exists j :: 0 <= j < i && j < |order| && order[j] == c
  }

  /** The next block of the traversal, if any. */
  function NextBlock(cfg: VMControlFlowGraph, b: BlockId): Option<BlockId> {
    if b in cfg.traversalSuccessors then Some(cfg.traversalSuccessors[b]) else None
  }

  /** Whether the graph records the edge as a back edge. */
  predicate RecordsBackEdge(cfg: VMControlFlowGraph, cur: BlockId, next: BlockId) {
    next in cfg.loopHeads && cur in cfg.loopHeads[next]
  }

  /** The block at position `i` is followed by the one at the next position. */
  ghost predicate Follows(cfg: VMControlFlowGraph, order: seq<BlockId>, i: nat)
    requires i < |order|
  {
    NextBlock(cfg, order[i]) == if i + 1 < |order| then Some(order[i + 1]) else None
  }

  /** The graph of the code, with the traversal order that its successor map encodes. */
  ghost predicate GraphOf(code: seq<Bytecode>, cfg: VMControlFlowGraph, order: seq<BlockId>) {
    && BlocksOf(code, cfg.blocks)
    && TraversalOrder(cfg.blocks, order)
    && (forall i | 0 <= i < |order| :: Follows(cfg, order, i))
    && (forall b, h :: RecordsBackEdge(cfg, b, h) <==> BlockEdge(cfg.blocks, b, h) && IsBackEdge(b, h))
  }

  ghost predicate IsGraph(code: seq<Bytecode>, cfg: VMControlFlowGraph) {
    exists order :: GraphOf(code, cfg, order)
  }

  // ---------------------------------------------------------------------------------------------
  // Facts about blocks
  // ---------------------------------------------------------------------------------------------

  /** Control leaves a block only from its exit; inside a block it falls through. */
  lemma InsideBlock(code: seq<Bytecode>, blocks: map<BlockId, BasicBlock>, b: BlockId, pc: nat, next: nat)
    requires BlocksOf(code, blocks) && b in blocks
    requires b <= pc < blocks[b].exit && Edge(code, pc, next)
    ensures next == pc + 1 && !IsBranch(code[pc])
  {
    assert pc + 1 !in blocks;
    assert !Starts(code, pc + 1);
  }

  /** The successors of a block are blocks. */
  lemma SuccessorsAreBlocks(code: seq<Bytecode>, blocks: map<BlockId, BasicBlock>, b: BlockId, c: BlockId)
    requires BlocksOf(code, blocks) && OffsetsInRange(code) && BlockEdge(blocks, b, c)
    ensures c in blocks && Edge(code, blocks[b].exit, c)
  {
    var last := code[blocks[b].exit];
    if HasOffset(last) && c == last.offset {
      assert Starts(code, c);
    } else {
      assert IsExit(blocks, blocks[b].exit);
    }
  }

  /** A loop is a union of whole blocks. */
  lemma BlockInLoop(code: seq<Bytecode>, blocks: map<BlockId, BasicBlock>, h: nat, l: nat, b: BlockId)
    requires BlocksOf(code, blocks) && IsLoop(code, h, l) && b in blocks
    ensures h in blocks
    ensures h <= b <= l <==> h <= blocks[b].exit <= l
  {
    assert Starts(code, h);
    if b <= l < blocks[b].exit {
      assert Starts(code, l + 1);
    }
    assert b < h <= blocks[b].exit ==> h !in blocks;
  }

  /** Control enters a loop only through the block at its head. */
  lemma BlockLoopEntry(code: seq<Bytecode>, blocks: map<BlockId, BasicBlock>, h: nat, l: nat, b: BlockId, c: BlockId)
    requires BlocksOf(code, blocks) && OffsetsInRange(code) && Structured(code)
    requires IsLoop(code, h, l) && BlockEdge(blocks, b, c)
    requires !(h <= b <= l) && h <= c <= l
    ensures c == h
  {
    SuccessorsAreBlocks(code, blocks, b, c);
    BlockInLoop(code, blocks, h, l, b);
    LoopEntry(code, h, l, blocks[b].exit, c);
  }

  /** A back edge between blocks is a back jump, and its source lies in the loop of its target. */
  lemma BackEdgeLoop(code: seq<Bytecode>, blocks: map<BlockId, BasicBlock>, b: BlockId, h: BlockId) returns (l: nat)
    requires BlocksOf(code, blocks) && BlockEdge(blocks, b, h) && IsBackEdge(b, h)
    ensures IsLoop(code, h, l) && h <= b <= l
  {
    l := LastContinue(code, blocks[b].exit);
  }

  /** On block paths too, a loop head dominates its loop. */
  lemma {:induction false} HeadDominatesBlocks(
    code: seq<Bytecode>, blocks: map<BlockId, BasicBlock>, h: nat, l: nat, path: seq<BlockId>)
    requires BlocksOf(code, blocks) && OffsetsInRange(code) && Structured(code)
    requires IsLoop(code, h, l)
    requires BlockPath(blocks, path) && h <= path[|path| - 1] <= l
    ensures h in path
  {
    var n := |path| - 1;
    if n > 0 {
      if h <= path[n - 1] <= l {
        HeadDominatesBlocks(code, blocks, h, l, path[..n]);
      } else {
        BlockLoopEntry(code, blocks, h, l, path[n - 1], path[n]);
      }
    }
  }

  lemma ExtendForward(blocks: map<BlockId, BasicBlock>, b: BlockId, c: BlockId)
    requires ForwardReachable(blocks, b) && BlockEdge(blocks, b, c) && !IsBackEdge(b, c)
    ensures ForwardReachable(blocks, c)
  {
    var path :| ForwardPath(blocks, path) && path[|path| - 1] == b;
    assert ForwardPath(blocks, path + [c]);
  }

  /** The target of a back edge was passed on the way to its source. */
  lemma BackEdgeStays(code: seq<Bytecode>, blocks: map<BlockId, BasicBlock>, q: seq<BlockId>, c: BlockId)
    requires BlocksOf(code, blocks) && OffsetsInRange(code) && Structured(code)
    requires ForwardPath(blocks, q)
    requires BlockEdge(blocks, q[|q| - 1], c) && IsBackEdge(q[|q| - 1], c)
    ensures ForwardReachable(blocks, c)
  {
    var l := BackEdgeLoop(code, blocks, q[|q| - 1], c);
    HeadDominatesBlocks(code, blocks, c, l, q);
    PrefixReaches(blocks, q, c);
  }

  lemma PrefixReaches(blocks: map<BlockId, BasicBlock>, q: seq<BlockId>, c: BlockId)
    requires ForwardPath(blocks, q) && c in q
    ensures ForwardReachable(blocks, c)
  {
    var k :| 0 <= k < |q| && q[k] == c;
    assert ForwardPath(blocks, q[..k + 1]);
  }

  /** Back edges reach nothing that forward edges do not. */
  lemma {:induction false} ForwardEdgesSuffice(code: seq<Bytecode>, blocks: map<BlockId, BasicBlock>,
                                               path: seq<BlockId>)
    requires BlocksOf(code, blocks) && OffsetsInRange(code) && Structured(code)
    requires BlockPath(blocks, path)
    ensures ForwardReachable(blocks, path[|path| - 1])
  {
    var n := |path| - 1;
    if n == 0 {
      assert ForwardPath(blocks, path);
    } else {
      ForwardEdgesSuffice(code, blocks, path[..n]);
      var q :| ForwardPath(blocks, q) && q[|q| - 1] == path[n - 1];
      var b, c := path[n - 1], path[n];
      assert BlockEdge(blocks, b, c);
      if IsBackEdge(b, c) {
        BackEdgeStays(code, blocks, q, c);
      } else {
        ExtendForward(blocks, b, c);
      }
    }
  }

  /** Positions in a traversal order increase along a forward path. */
  lemma {:induction false} OrderFollowsPath(blocks: map<BlockId, BasicBlock>, order: seq<BlockId>, path: seq<BlockId>,
                                            k: nat, i: nat)
    requires TraversalOrder(blocks, order) && ForwardPath(blocks, path)
    requires k < |path| && i < |order| && order[i] == path[|path| - 1]
    ensures Before(order, i + 1, path[k])
  {
    var n := |path| - 1;
    if k < n {
      var prefix := path[..n];
      assert ForwardPath(blocks, prefix);
      assert ForwardReachable(blocks, path[n - 1]);
      var m :| 0 <= m < |order| && order[m] == path[n - 1];
      assert BlockEdge(blocks, order[m], path[n]) && After(order, m, path[n]);
      OrderFollowsPath(blocks, order, prefix, k, m);
    }
  }

  /** A back edge leads to an earlier block of the traversal, or to the block itself. */
  lemma BackEdgeGoesBack(
    code: seq<Bytecode>, blocks: map<BlockId, BasicBlock>, order: seq<BlockId>, i: nat, h: BlockId)
    requires BlocksOf(code, blocks) && OffsetsInRange(code) && Structured(code)
    requires TraversalOrder(blocks, order) && i < |order|
    requires BlockEdge(blocks, order[i], h) && IsBackEdge(order[i], h)
    ensures Before(order, i + 1, h)
  {
    var l := BackEdgeLoop(code, blocks, order[i], h);
    assert ForwardReachable(blocks, order[i]);
    var path :| ForwardPath(blocks, path) && path[|path| - 1] == order[i];
    HeadDominatesBlocks(code, blocks, h, l, path);
    var k :| 0 <= k < |path| && path[k] == h;
    OrderFollowsPath(blocks, order, path, k, i);
  }

  /** The traversal lists exactly the blocks that any path reaches. */
  lemma TraversalIsComplete(code: seq<Bytecode>, cfg: VMControlFlowGraph, order: seq<BlockId>, b: BlockId)
    requires GraphOf(code, cfg, order) && OffsetsInRange(code) && Structured(code)
    ensures b in order <==> Reachable(cfg.blocks, b)
  {
    if Reachable(cfg.blocks, b) {
      var path :| BlockPath(cfg.blocks, path) && path[|path| - 1] == b;
      ForwardEdgesSuffice(code, cfg.blocks, path);
    }
    if b in order {
      assert ForwardReachable(cfg.blocks, b);
      var path :| ForwardPath(cfg.blocks, path) && path[|path| - 1] == b;
      assert BlockPath(cfg.blocks, path);
    }
  }

  /** Every instruction lies in exactly one block. */
  lemma {:induction false} BlockAt(code: seq<Bytecode>, blocks: map<BlockId, BasicBlock>, pc: nat) returns (b: BlockId)
    requires BlocksOf(code, blocks) && pc < |code|
    ensures b in blocks && b <= pc <= blocks[b].exit
    ensures forall c | c in blocks && c <= pc <= blocks[c].exit :: c == b
  {
    if pc in blocks {
      b := pc;
    } else {
      b := BlockAt(code, blocks, pc - 1);
      assert IsExit(blocks, blocks[b].exit);
    }
  }

  // ---------------------------------------------------------------------------------------------
  // Construction
  // ---------------------------------------------------------------------------------------------

  method RecordBlockIds(pc: nat, code: seq<Bytecode>, blockIds: set<BlockId>) returns (blockIds': set<BlockId>)
    requires pc < |code|
    ensures blockIds' == blockIds
                         + (if HasOffset(code[pc]) then {code[pc].offset} else {})
                         + (if IsBranch(code[pc]) && pc + 1 < |code| then {pc + 1} else {})
  {
    blockIds' := blockIds;
    if HasOffset(code[pc]) {
      blockIds' := blockIds' + {code[pc].offset};
    }
    if IsBranch(code[pc]) && pc + 1 < |code| {
      blockIds' := blockIds' + {pc + 1};
    }
  }

  method CollectBlockIds(code: seq<Bytecode>) returns (blockIds: set<BlockId>)
    ensures forall pc: nat :: pc in blockIds <==> Starts(code, pc)
    ensures ENTRY_BLOCK_ID in blockIds
  {
    blockIds := {ENTRY_BLOCK_ID};
    for pc := 0 to |code|
      invariant forall b: nat :: b in blockIds <==>
                  || b == ENTRY_BLOCK_ID
                  || (exists i :: 0 <= i < pc && HasOffset(code[i]) && code[i].offset == b)
                  || (0 < b <= pc && b < |code| && IsBranch(code[b - 1]))
    {
      blockIds := RecordBlockIds(pc, code, blockIds);
    }
  }

  predicate IsEndOfBlock(pc: nat, code: seq<Bytecode>, blockIds: set<BlockId>) {
    pc + 1 == |code| || pc + 1 in blockIds
  }

  /** A block that ends right before the next offset that begins one. */
  ghost predicate BlockOf(code: seq<Bytecode>, blockIds: set<BlockId>, b: BlockId, block: BasicBlock) {
    && b <= block.exit < |code|
    && (forall i | b < i <= block.exit :: i !in blockIds)
    && Successors(code, block.exit, block.successors)
  }

  lemma NewBlock(code: seq<Bytecode>, blockIds: set<BlockId>, b: BlockId, block: BasicBlock)
    requires b <= block.exit < |code|
    requires forall i | b < i <= block.exit && i < |code| :: i !in blockIds
    requires Successors(code, block.exit, block.successors)
    ensures BlockOf(code, blockIds, b, block)
  {
  }

  /** Cuts the code after every instruction that ends a block. */
  method CutBlocks(code: seq<Bytecode>, blockIds: set<BlockId>) returns (blocks: map<BlockId, BasicBlock>)
    requires 0 < |code| <= MAX_CODE_LENGTH && ENTRY_BLOCK_ID in blockIds
    ensures forall b :: b in blocks <==> b < |code| && b in blockIds
    ensures forall b | b in blocks :: BlockOf(code, blockIds, b, blocks[b])
    ensures forall pc: nat | IsExit(blocks, pc) :: IsEndOfBlock(pc, code, blockIds)
  {
    blocks := map[];
    var entry := 0;
    for pc := 0 to |code|
      invariant entry <= pc && (entry < |code| ==> entry in blockIds)
      invariant pc == |code| ==> entry == |code|
      invariant forall i | entry < i <= pc && i < |code| :: i !in blockIds
      invariant forall b :: b in blocks <==> b < entry && b in blockIds
      invariant forall b | b in blocks :: BlockOf(code, blockIds, b, blocks[b])
      invariant forall i: nat | IsExit(blocks, i) :: IsEndOfBlock(i, code, blockIds)
    {
      if IsEndOfBlock(pc, code, blockIds) {
        var successors := GetSuccessors(pc, code);
        NewBlock(code, blockIds, entry, BasicBlock(pc, successors));
        ghost var was := blocks;
        blocks := blocks[entry := BasicBlock(pc, successors)];
        assert forall i: nat | IsExit(blocks, i) :: i == pc || IsExit(was, i);
        entry := pc + 1;
      }
    }
  }

  method CreateBlocks(code: seq<Bytecode>) returns (blocks: map<BlockId, BasicBlock>)
    requires 0 < |code| <= MAX_CODE_LENGTH
    ensures BlocksOf(code, blocks)
  {
    var blockIds := CollectBlockIds(code);
    blocks := CutBlocks(code, blockIds);
    BlocksComplete(code, blockIds, blocks);
  }

  lemma BlocksComplete(code: seq<Bytecode>, blockIds: set<BlockId>, blocks: map<BlockId, BasicBlock>)
    requires |code| > 0 && forall pc: nat :: pc in blockIds <==> Starts(code, pc)
    requires forall b :: b in blocks <==> b < |code| && b in blockIds
    requires forall b | b in blocks :: BlockOf(code, blockIds, b, blocks[b])
    requires forall pc: nat | IsExit(blocks, pc) :: IsEndOfBlock(pc, code, blockIds)
    ensures BlocksOf(code, blocks)
  {
  }

  /** The blocks with their forward successors only, in ascending order. */
  method ForwardGraph(blocks: map<BlockId, BasicBlock>) returns (dag: map<BlockId, seq<BlockId>>)
    ensures ForwardGraphOf(blocks, dag)
  {
    dag := map[];
    var todo := blocks.Keys;
    while todo != {}
      invariant todo <= blocks.Keys && dag.Keys == blocks.Keys - todo
      invariant forall b | b in dag :: |dag[b]| <= |blocks[b].successors|
      invariant forall b | b in dag ::
                  forall c :: c in dag[b] <==> BlockEdge(blocks, b, c) && !IsBackEdge(b, c)
    {
      var b :| b in todo;
      var succs := [];
      for i := 0 to |blocks[b].successors|
        invariant |succs| <= i
        invariant forall c :: c in succs <==> c in blocks[b].successors[..i] && !IsBackEdge(b, c)
      {
        if !IsBackEdge(b, blocks[b].successors[i]) {
          succs := succs + [blocks[b].successors[i]];
        }
      }
      assert blocks[b].successors[..|blocks[b].successors|] == blocks[b].successors;
      dag := dag[b := succs];
      todo := todo - {b};
    }
  }

  /** A work item of the traversal. */
  datatype Visit = Visit(block: BlockId, isFirst: bool)

  /** Every edge leads to a larger block of the graph. */
  ghost predicate Ascends(dag: map<BlockId, seq<BlockId>>, bound: nat) {
    forall b | b in dag ::
      b < bound && |dag[b]| <= 2 && forall i | 0 <= i < |dag[b]| :: b < dag[b][i] && dag[b][i] in dag
  }

  ghost function Pow3(k: nat): nat {
    if k == 0 then 1 else 3 * Pow3(k - 1)
  }

  /** A bound on the visits that a work item still causes: a block has at most two successors, both larger. */
  ghost function VisitWork(bound: nat, v: Visit): nat {
    if v.isFirst && v.block < bound then Pow3(bound - v.block) else 1
  }

  ghost function StackWork(bound: nat, stack: seq<Visit>): nat {
    if stack == [] then 0
    else StackWork(bound, stack[..|stack| - 1]) + VisitWork(bound, stack[|stack| - 1])
  }

  lemma {:induction false} Pow3Grows(k: nat, m: nat)
    requires k <= m
    ensures 1 <= Pow3(k) <= Pow3(m)
  {
    if k < m {
      Pow3Grows(k, m - 1);
    } else if k > 0 {
      Pow3Grows(k - 1, k - 1);
    }
  }

  /** First visits for the successors that are not finished. */
  function Unfinished(succs: seq<BlockId>, finished: set<BlockId>): (visits: seq<Visit>)
    ensures forall v :: v in visits <==> v.isFirst && v.block in succs && v.block !in finished
  {
    if succs == [] then []
    else (if succs[0] in finished then [] else [Visit(succs[0], true)]) + Unfinished(succs[1..], finished)
  }

  lemma {:induction false} StackWorkConcat(bound: nat, s: seq<Visit>, t: seq<Visit>)
    ensures StackWork(bound, s + t) == StackWork(bound, s) + StackWork(bound, t)
  {
    if t == [] {
      assert s + t == s;
    } else {
      var n := |t| - 1;
      assert (s + t)[..|s + t| - 1] == s + t[..n];
      StackWorkConcat(bound, s, t[..n]);
    }
  }

  lemma StackWorkPush(bound: nat, s: seq<Visit>, v: Visit)
    ensures StackWork(bound, s + [v]) == StackWork(bound, s) + VisitWork(bound, v)
  {
    assert (s + [v])[..|s|] == s;
  }

  lemma {:induction false} UnfinishedWork(bound: nat, weight: nat, succs: seq<BlockId>, finished: set<BlockId>)
    requires |succs| <= 2 && forall i | 0 <= i < |succs| :: VisitWork(bound, Visit(succs[i], true)) <= weight
    ensures StackWork(bound, Unfinished(succs, finished)) <=
            if |succs| == 0 then 0 else if |succs| == 1 then weight else weight + weight
  {
    if |succs| > 0 {
      var first := if succs[0] in finished then [] else [Visit(succs[0], true)];
      UnfinishedWork(bound, weight, succs[1..], finished);
      StackWorkConcat(bound, first, Unfinished(succs[1..], finished));
      assert StackWork(bound, first) <= weight;
    }
  }

  /** A first visit replaces its item by cheaper ones. */
  lemma FirstVisitWork(bound: nat, stack: seq<Visit>, b: BlockId, succs: seq<BlockId>, finished: set<BlockId>)
    requires b < bound && |succs| <= 2 && forall i | 0 <= i < |succs| :: b < succs[i] < bound
    ensures StackWork(bound, stack + [Visit(b, false)] + Unfinished(succs, finished)) <
            StackWork(bound, stack + [Visit(b, true)])
  {
    var weight := Pow3(bound - b - 1);
    forall i | 0 <= i < |succs| ensures VisitWork(bound, Visit(succs[i], true)) <= weight {
      Pow3Grows(bound - succs[i], bound - b - 1);
    }
    UnfinishedWork(bound, weight, succs, finished);
    ExpansionWork(bound, stack, b, Unfinished(succs, finished));
    Pow3Grows(if |succs| > 0 then 1 else 0, bound - b - 1);
    assert Pow3(1) == 3 && (|succs| > 0 ==> weight >= 3);
  }

  lemma ExpansionWork(bound: nat, stack: seq<Visit>, b: BlockId, visits: seq<Visit>)
    requires b < bound
    ensures StackWork(bound, stack + [Visit(b, false)] + visits) ==
      StackWork(bound, stack) + 1 + StackWork(bound, visits)
    ensures StackWork(bound, stack + [Visit(b, true)]) == StackWork(bound, stack) + 3 * Pow3(bound - b - 1)
  {
    StackWorkConcat(bound, stack + [Visit(b, false)], visits);
    StackWorkPush(bound, stack, Visit(b, false));
    StackWorkPush(bound, stack, Visit(b, true));
  }

  /** The forward edges of the blocks, as the traversal uses them. */
  ghost predicate ForwardGraphOf(blocks: map<BlockId, BasicBlock>, dag: map<BlockId, seq<BlockId>>) {
    && dag.Keys == blocks.Keys
    && (forall b | b in blocks :: |dag[b]| <= |blocks[b].successors|)
    && forall b | b in blocks ::
         forall c :: c in dag[b] <==> BlockEdge(blocks, b, c) && !IsBackEdge(b, c)
  }

  lemma {:induction false} ClosedCoversForward(
    blocks: map<BlockId, BasicBlock>, dag: map<BlockId, seq<BlockId>>, closed: set<BlockId>, path: seq<BlockId>)
    requires ForwardGraphOf(blocks, dag) && closed <= dag.Keys && ENTRY_BLOCK_ID in closed
    requires forall b, c | b in closed && c in dag[b] :: c in closed
    requires ForwardPath(blocks, path)
    ensures path[|path| - 1] in closed
  {
    var n := |path| - 1;
    if n > 0 {
      ClosedCoversForward(blocks, dag, closed, path[..n]);
      assert BlockEdge(blocks, path[n - 1], path[n]);
    }
  }

  /** The items on the stack: forward-reachable blocks, the entry at the bottom and nowhere else. */
  ghost predicate StackOk(blocks: map<BlockId, BasicBlock>, stack: seq<Visit>) {
    forall k | 0 <= k < |stack| ::
      && stack[k].block in blocks && ForwardReachable(blocks, stack[k].block)
      && (stack[k].block == ENTRY_BLOCK_ID <==> k == 0)
  }

  /** A post-order so far: every block comes after its forward successors. */
  ghost predicate PostOk(blocks: map<BlockId, BasicBlock>, dag: map<BlockId, seq<BlockId>>, postOrder: seq<BlockId>)
    requires dag.Keys == blocks.Keys
  {
    && (forall i | 0 <= i < |postOrder| :: postOrder[i] in blocks && ForwardReachable(blocks, postOrder[i]))
    && (forall i, j | 0 <= i < j < |postOrder| :: postOrder[i] != postOrder[j])
    && (forall i, c | 0 <= i < |postOrder| && c in dag[postOrder[i]] :: Before(postOrder, i, c))
  }

  /** There is an item for block `c` above position `k`. */
  ghost predicate Above(stack: seq<Visit>, k: int, c: BlockId) {
    exists m :: k < m < |stack| && 0 <= m && stack[m].block == c
  }

  /** Every successor of an expanded block is finished or still above it on the stack. */
  ghost predicate Pending(dag: map<BlockId, seq<BlockId>>, stack: seq<Visit>, finished: set<BlockId>) {
    forall k, c | 0 <= k < |stack| && !stack[k].isFirst && stack[k].block in dag && c in dag[stack[k].block] ::
      c in finished || Above(stack, k, c)
  }

  /** Post-order of the forward graph by an explicit stack. */
  method PostOrder(blocks: map<BlockId, BasicBlock>, dag: map<BlockId, seq<BlockId>>, ghost bound: nat)
    returns (postOrder: seq<BlockId>)
    requires ForwardGraphOf(blocks, dag) && Ascends(dag, bound) && ENTRY_BLOCK_ID in dag && 0 < bound
    ensures |postOrder| > 0 && postOrder[|postOrder| - 1] == ENTRY_BLOCK_ID
    ensures PostOk(blocks, dag, postOrder)
    ensures forall b :: b in postOrder <==> ForwardReachable(blocks, b)
  {
    postOrder := [];
    var finished: set<BlockId> := {};
    var stack := [Visit(ENTRY_BLOCK_ID, true)];
    assert ForwardPath(blocks, [ENTRY_BLOCK_ID]);
    while |stack| > 0
      invariant StackOk(blocks, stack)
      invariant PostOk(blocks, dag, postOrder)
      invariant forall b :: b in finished <==> b in postOrder
      invariant Pending(dag, stack, finished)
      invariant |stack| > 0 ==> ENTRY_BLOCK_ID !in finished
      invariant |stack| == 0 ==> |postOrder| > 0 && postOrder[|postOrder| - 1] == ENTRY_BLOCK_ID
      decreases StackWork(bound, stack)
    {
      var n := |stack| - 1;
      var cur, rest := stack[n].block, stack[..n];
      if stack[n].isFirst {
        ExpandedWork(dag, bound, stack, finished);
        ExpandedOk(blocks, dag, stack, finished);
        ExpandedPending(dag, stack, finished);
        stack := rest + [Visit(cur, false)] + Unfinished(dag[cur], finished);
      } else {
        SecondVisit(blocks, dag, bound, stack, finished);
        stack := rest;
        if cur !in finished {
          PostExtended(blocks, dag, postOrder, cur);
          finished := finished + {cur};
          postOrder := postOrder + [cur];
        } else {
          assert finished + {cur} == finished;
        }
      }
    }
    forall b | ForwardReachable(blocks, b) ensures b in postOrder {
      var path :| ForwardPath(blocks, path) && path[|path| - 1] == b;
      ClosedCoversForward(blocks, dag, finished, path);
    }
  }

  /** The stack after expanding its top item. */
  function Expanded(dag: map<BlockId, seq<BlockId>>, stack: seq<Visit>, finished: set<BlockId>): seq<Visit>
    requires |stack| > 0 && stack[|stack| - 1].block in dag
  {
    var cur := stack[|stack| - 1].block;
    stack[..|stack| - 1] + [Visit(cur, false)] + Unfinished(dag[cur], finished)
  }

  lemma ExpandedWork(dag: map<BlockId, seq<BlockId>>, bound: nat, stack: seq<Visit>, finished: set<BlockId>)
    requires Ascends(dag, bound)
    requires |stack| > 0 && stack[|stack| - 1].block in dag && stack[|stack| - 1].isFirst
    ensures StackWork(bound, Expanded(dag, stack, finished)) < StackWork(bound, stack)
  {
    var n := |stack| - 1;
    var cur := stack[n].block;
    FirstVisitWork(bound, stack[..n], cur, dag[cur], finished);
    assert stack[..n] + [Visit(cur, true)] == stack;
  }

  lemma ExpandedOk(blocks: map<BlockId, BasicBlock>, dag: map<BlockId, seq<BlockId>>, stack: seq<Visit>,
                   finished: set<BlockId>)
    requires ForwardGraphOf(blocks, dag) && StackOk(blocks, stack)
    requires |stack| > 0
    requires forall c | c in dag[stack[|stack| - 1].block] :: c in blocks
    ensures StackOk(blocks, Expanded(dag, stack, finished))
  {
    var n := |stack| - 1;
    var cur := stack[n].block;
    var visits := Unfinished(dag[cur], finished);
    var stack' := Expanded(dag, stack, finished);
    forall k | 0 <= k < |stack'|
      ensures stack'[k].block in blocks && ForwardReachable(blocks, stack'[k].block)
      ensures stack'[k].block == ENTRY_BLOCK_ID <==> k == 0
    {
      if k > n {
        assert stack'[k] in visits;
        ExtendForward(blocks, cur, stack'[k].block);
      } else {
        assert stack'[k].block == stack[k].block;
      }
    }
  }

  lemma ExpandedPending(dag: map<BlockId, seq<BlockId>>, stack: seq<Visit>, finished: set<BlockId>)
    requires |stack| > 0 && stack[|stack| - 1].block in dag && stack[|stack| - 1].isFirst
    requires Pending(dag, stack, finished)
    ensures Pending(dag, Expanded(dag, stack, finished), finished)
  {
    var n := |stack| - 1;
    var visits := Unfinished(dag[stack[n].block], finished);
    var stack' := Expanded(dag, stack, finished);
    forall k | n < k < |stack'| ensures stack'[k].isFirst {
      assert stack'[k] in visits;
    }
    forall k, c | 0 <= k < |stack'| && !stack'[k].isFirst && stack'[k].block in dag && c in dag[stack'[k].block]
      && c !in finished
      ensures Above(stack', k, c)
    {
      if k < n {
        assert stack[k] == stack'[k] && Above(stack, k, c);
        var m :| k < m < |stack| && stack[m].block == c;
        assert stack'[m].block == c;
      } else {
        var m :| 0 <= m < |visits| && visits[m] == Visit(c, true);
        assert stack'[n + 1 + m].block == c;
      }
    }
  }

  /** On a second visit every forward successor is finished. */
  lemma SecondVisit(
    blocks: map<BlockId, BasicBlock>, dag: map<BlockId, seq<BlockId>>, bound: nat, stack: seq<Visit>,
    finished: set<BlockId>)
    requires ForwardGraphOf(blocks, dag)
    requires StackOk(blocks, stack) && Pending(dag, stack, finished)
    requires |stack| > 0 && !stack[|stack| - 1].isFirst
    ensures var cur := stack[|stack| - 1].block;
            && (forall c | c in dag[cur] :: c in finished)
            && StackOk(blocks, stack[..|stack| - 1])
            && Pending(dag, stack[..|stack| - 1], finished + {cur})
            && StackWork(bound, stack[..|stack| - 1]) < StackWork(bound, stack)
  {
    var n := |stack| - 1;
    var cur := stack[n].block;
    forall c | c in dag[cur] ensures c in finished {
      assert !Above(stack, n, c);
    }
    forall k, c | 0 <= k < n && !stack[k].isFirst && c in dag[stack[k].block] && c !in finished + {cur}
      ensures Above(stack[..n], k, c)
    {
      assert Above(stack, k, c);
      var m :| k < m < |stack| && stack[m].block == c;
      assert stack[..n][m].block == c;
    }
  }

  lemma PostExtended(
    blocks: map<BlockId, BasicBlock>, dag: map<BlockId, seq<BlockId>>, postOrder: seq<BlockId>, b: BlockId)
    requires dag.Keys == blocks.Keys && PostOk(blocks, dag, postOrder)
    requires b in blocks && ForwardReachable(blocks, b) && b !in postOrder
    requires forall c | c in dag[b] :: c in postOrder
    ensures PostOk(blocks, dag, postOrder + [b])
  {
    var post := postOrder + [b];
    forall i, c | 0 <= i < |post| && c in dag[post[i]] ensures Before(post, i, c) {
      if i < |postOrder| {
        assert Before(postOrder, i, c);
        var j :| 0 <= j < i && postOrder[j] == c;
        assert post[j] == c;
      } else {
        var j :| 0 <= j < |postOrder| && postOrder[j] == c;
        assert post[j] == c;
      }
    }
  }

  /** Maps every block to the one after it in the order. */
  method TraversalSuccessors(order: seq<BlockId>) returns (next: map<BlockId, BlockId>)
    requires |order| > 0
    requires forall i, j | 0 <= i < j < |order| :: order[i] != order[j]
    ensures forall b :: b in next <==> b in order[..|order| - 1]
    ensures forall i | 0 <= i < |order| - 1 :: next[order[i]] == order[i + 1]
  {
    next := map[];
    for i := 0 to |order| - 1
      invariant forall b :: b in next <==> b in order[..i]
      invariant forall k | 0 <= k < i :: next[order[k]] == order[k + 1]
    {
      next := next[order[i] := order[i + 1]];
      assert order[..i + 1] == order[..i] + [order[i]];
    }
  }

  /** Maps every loop head to the blocks with a back edge to it. */
  method LoopHeads(blocks: map<BlockId, BasicBlock>) returns (loopHeads: map<BlockId, set<BlockId>>)
    ensures forall h, b :: h in loopHeads && b in loopHeads[h] <==> BlockEdge(blocks, b, h) && IsBackEdge(b, h)
  {
    loopHeads := map[];
    var todo := blocks.Keys;
    while todo != {}
      invariant todo <= blocks.Keys
      invariant forall h, b :: h in loopHeads && b in loopHeads[h] <==>
                               b !in todo && BlockEdge(blocks, b, h) && IsBackEdge(b, h)
    {
      var id :| id in todo;
      var succs := blocks[id].successors;
      for i := 0 to |succs|
        invariant forall h, b :: h in loopHeads && b in loopHeads[h] <==>
                    || (b !in todo && BlockEdge(blocks, b, h) && IsBackEdge(b, h))
                    || (b == id && h in succs[..i] && IsBackEdge(b, h))
      {
        var h := succs[i];
        if IsBackEdge(id, h) {
          loopHeads := loopHeads[h := (if h in loopHeads then loopHeads[h] else {}) + {id}];
        }
      }
      assert succs[..|succs|] == succs;
      todo := todo - {id};
    }
  }

  /** Builds the graph of accepted code. */
  method New(code: seq<Bytecode>) returns (cfg: VMControlFlowGraph)
    requires 0 < |code| <= MAX_CODE_LENGTH && OffsetsInRange(code)
    ensures IsGraph(code, cfg)
  {
    var blocks := CreateBlocks(code);
    var dag := ForwardGraph(blocks);
    ForwardGraphAscends(code, blocks, dag);
    var postOrder := PostOrder(blocks, dag, |code|);
    var n := |postOrder|;
    var traversal := seq(n, i requires 0 <= i < n => postOrder[n - 1 - i]);
    Reversed(blocks, dag, postOrder, traversal);
    var next := TraversalSuccessors(traversal);
    var heads := LoopHeads(blocks);
    cfg := VMControlFlowGraph(blocks, next, heads);
    forall i | 0 <= i < n ensures Follows(cfg, traversal, i) {
      Follow(cfg, traversal, i);
    }
    assert GraphOf(code, cfg, traversal);
  }

  lemma Follow(cfg: VMControlFlowGraph, order: seq<BlockId>, i: nat)
    requires i < |order|
    requires forall i, j | 0 <= i < j < |order| :: order[i] != order[j]
    requires forall b :: b in cfg.traversalSuccessors <==> b in order[..|order| - 1]
    requires forall i | 0 <= i < |order| - 1 :: cfg.traversalSuccessors[order[i]] == order[i + 1]
    ensures Follows(cfg, order, i)
  {
    if i + 1 < |order| {
      assert order[i] == order[..|order| - 1][i];
    }
  }

  lemma ForwardGraphAscends(code: seq<Bytecode>, blocks: map<BlockId, BasicBlock>, dag: map<BlockId, seq<BlockId>>)
    requires BlocksOf(code, blocks) && OffsetsInRange(code) && ForwardGraphOf(blocks, dag)
    ensures Ascends(dag, |code|)
  {
    forall b, i | b in dag && 0 <= i < |dag[b]| ensures b < dag[b][i] && dag[b][i] in dag {
      assert dag[b][i] in dag[b];
      SuccessorsAreBlocks(code, blocks, b, dag[b][i]);
    }
  }

  /** A reversed post-order is a traversal order. */
  lemma Reversed(
    blocks: map<BlockId, BasicBlock>, dag: map<BlockId, seq<BlockId>>, postOrder: seq<BlockId>, order: seq<BlockId>)
    requires ForwardGraphOf(blocks, dag) && PostOk(blocks, dag, postOrder)
    requires |postOrder| > 0 && postOrder[|postOrder| - 1] == ENTRY_BLOCK_ID
    requires forall b :: b in postOrder <==> ForwardReachable(blocks, b)
    requires |order| == |postOrder|
    requires forall i | 0 <= i < |order| :: order[i] == postOrder[|postOrder| - 1 - i]
    ensures TraversalOrder(blocks, order)
  {
    var n := |order|;
    forall b ensures b in order <==> b in postOrder {
      if b in postOrder {
        var k :| 0 <= k < n && postOrder[k] == b;
        assert order[n - 1 - k] == b;
      }
    }
    forall i, c | 0 <= i < n && BlockEdge(blocks, order[i], c) && !IsBackEdge(order[i], c)
      ensures After(order, i, c)
    {
      assert c in dag[postOrder[n - 1 - i]] && Before(postOrder, n - 1 - i, c);
      var j :| 0 <= j < n - 1 - i && postOrder[j] == c;
      assert order[n - 1 - j] == c;
    }
  }

  // ---------------------------------------------------------------------------------------------
  // For the analyses
  // ---------------------------------------------------------------------------------------------

  /**
   What an analysis relies on: it visits the blocks in an order in which forward edges lead on and back edges
   lead back, and it knows the back edges.
   */
  ghost predicate Schedule(code: seq<Bytecode>, cfg: VMControlFlowGraph, order: seq<BlockId>) {
    && BlocksOf(code, cfg.blocks)
    && |order| > 0 && order[0] == ENTRY_BLOCK_ID
    && (forall i, j | 0 <= i < j < |order| :: order[i] != order[j])
    && (forall i | 0 <= i < |order| :: Follows(cfg, order, i))
    && (forall i, c | 0 <= i < |order| && BlockEdge(cfg.blocks, order[i], c) ::
          if IsBackEdge(order[i], c) then Before(order, i + 1, c) else After(order, i, c))
    && (forall b, c :: RecordsBackEdge(cfg, b, c) <==> BlockEdge(cfg.blocks, b, c) && IsBackEdge(b, c))
  }

  /** The graph of accepted code gives such an order. */
  lemma GraphSchedule(code: seq<Bytecode>, cfg: VMControlFlowGraph, order: seq<BlockId>)
    requires GraphOf(code, cfg, order) && OffsetsInRange(code) && Structured(code)
    ensures Schedule(code, cfg, order)
  {
    forall i, c | 0 <= i < |order| && BlockEdge(cfg.blocks, order[i], c)
      ensures if IsBackEdge(order[i], c) then Before(order, i + 1, c) else After(order, i, c)
    {
      if IsBackEdge(order[i], c) {
        BackEdgeGoesBack(code, cfg.blocks, order, i, c);
      }
    }
  }
}
