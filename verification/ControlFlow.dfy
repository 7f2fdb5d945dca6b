/** The structural check on jumps that runs before a control-flow graph is built. */
module ControlFlow {
  import opened Bytecodes

  /** The outcome of the check; the errors are the status codes the checker reports. */
  datatype Status =
    | Accepted
    | EmptyCodeUnit
    | InvalidFallThrough
    | InvalidLoopContinue
    | InvalidLoopBreak
    | InvalidLoopSplit

  /** A label per instruction: `Loop` marks the target of back jumps and records the last of them. */
  datatype Label = Loop(lastContinue: nat) | Code

  /** An open loop, as kept on the loop stack. */
  datatype LoopRange = LoopRange(head: nat, last: nat)

  type Check = (seq<LoopRange>, nat, Bytecode) --> bool

  // ---------------------------------------------------------------------------------------------
  // What the check accepts, stated on the code alone
  // ---------------------------------------------------------------------------------------------

  predicate BackJump(code: seq<Bytecode>, i: nat)
    requires i < |code|
  {
    HasOffset(code[i]) && code[i].offset <= i
  }

  predicate ForwardJump(code: seq<Bytecode>, i: nat)
    requires i < |code|
  {
    HasOffset(code[i]) && code[i].offset > i
  }

  /** `[h, l]` is a loop: `l` is the last instruction that jumps back to `h`. */
  predicate IsLoop(code: seq<Bytecode>, h: nat, l: nat) {
    && l < |code|
    && BackJump(code, l) && code[l].offset == h
    && forall k | l < k < |code| :: BackJump(code, k) ==> code[k].offset != h
  }

  /** The back jump at `i` (if it is one) goes to the head of the innermost loop around `i`. */
  ghost predicate ContinueOk(code: seq<Bytecode>, i: nat)
    requires i < |code|
  {
    BackJump(code, i) ==> forall h: nat, l: nat | IsLoop(code, h, l) && h <= i <= l :: h <= code[i].offset
  }

  /** The forward jump at `i` (if it is one) leaves no loop further than to the instruction after it. */
  ghost predicate BreakOk(code: seq<Bytecode>, i: nat)
    requires i < |code|
  {
    ForwardJump(code, i) ==> forall h: nat, l: nat | IsLoop(code, h, l) && h <= i <= l :: code[i].offset <= l + 1
  }

  /** The forward jump at `i` (if it is one) enters no loop other than at its head. */
  ghost predicate NoSplit(code: seq<Bytecode>, i: nat)
    requires i < |code|
  {
    ForwardJump(code, i) ==> forall h: nat, l: nat | IsLoop(code, h, l) && h < code[i].offset <= l :: h <= i
  }

  ghost predicate Continues(code: seq<Bytecode>) {
    forall i | 0 <= i < |code| :: ContinueOk(code, i)
  }

  ghost predicate Breaks(code: seq<Bytecode>) {
    forall i | 0 <= i < |code| :: BreakOk(code, i)
  }

  ghost predicate NoSplits(code: seq<Bytecode>) {
    forall i | 0 <= i < |code| :: NoSplit(code, i)
  }

  /** Code with structured jumps: what an accepting run of the check establishes. */
  ghost predicate Structured(code: seq<Bytecode>) {
    && |code| > 0 && IsUnconditionalBranch(code[|code| - 1])
    && Continues(code) && Breaks(code) && NoSplits(code)
  }

  // ---------------------------------------------------------------------------------------------
  // Consequences for every run
  // ---------------------------------------------------------------------------------------------

  /** Loops are disjoint or strictly nested. */
  lemma LoopsNest(code: seq<Bytecode>, h: nat, l: nat, h': nat, l': nat)
    requires Continues(code)
    requires IsLoop(code, h, l) && IsLoop(code, h', l') && h < h'
    ensures l < h' || l' < l
  {
    assert ContinueOk(code, l);
  }

  /** Control enters a loop only at its head. */
  lemma LoopEntry(code: seq<Bytecode>, h: nat, l: nat, i: nat, j: nat)
    requires Continues(code) && NoSplits(code)
    requires IsLoop(code, h, l)
    requires i < |code| && Edge(code, i, j)
    requires !(h <= i <= l) && h <= j <= l
    ensures j == h
  {
    assert NoSplit(code, i);
    if BackJump(code, i) && j == code[i].offset && h < j {
      var l' := LastContinue(code, i);
      LoopsNest(code, h, l, j, l');
    }
  }

  /** Every back jump belongs to the loop of its target. */
  lemma LastContinue(code: seq<Bytecode>, i: nat) returns (l: nat)
    requires i < |code| && BackJump(code, i)
    ensures i <= l && IsLoop(code, code[i].offset, l)
  {
    l := i;
    var k := i + 1;
    while k < |code|
      invariant i <= l < k <= |code|
      invariant BackJump(code, l) && code[l].offset == code[i].offset
      invariant forall m | l < m < k :: BackJump(code, m) ==> code[m].offset != code[i].offset
    {
      if BackJump(code, k) && code[k].offset == code[i].offset {
        l := k;
      }
      k := k + 1;
    }
  }

  /** A path of instructions that starts at the entry of the function. */
  ghost predicate Path(code: seq<Bytecode>, path: seq<nat>) {
    && |path| > 0 && path[0] == 0
    && (forall k | 0 <= k < |path| :: path[k] < |code|)
    && (forall k | 0 < k < |path| :: PathStep(code, path, k))
  }

  ghost predicate PathStep(code: seq<Bytecode>, path: seq<nat>, k: nat)
    requires 0 < k < |path| && path[k - 1] < |code|
  {
    Edge(code, path[k - 1], path[k])
  }

  lemma PathPrefix(code: seq<Bytecode>, path: seq<nat>, n: nat)
    requires Path(code, path) && 0 < n <= |path|
    ensures Path(code, path[..n])
  {
    forall k | 0 < k < n ensures PathStep(code, path[..n], k) {
      assert PathStep(code, path, k);
    }
  }

  /** A loop head dominates its loop: no path from the entry reaches the loop around the head. */
  lemma {:induction false} HeadDominates(code: seq<Bytecode>, h: nat, l: nat, path: seq<nat>)
    requires Continues(code) && NoSplits(code)
    requires IsLoop(code, h, l)
    requires Path(code, path) && h <= path[|path| - 1] <= l
    ensures h in path
  {
    var n := |path| - 1;
    if n > 0 {
      PathPrefix(code, path, n);
      assert PathStep(code, path, n);
      if h <= path[n - 1] <= l {
        HeadDominates(code, h, l, path[..n]);
      } else {
        LoopEntry(code, h, l, path[n - 1], path[n]);
      }
    }
  }

  /** Accepted code is reducible: the target of a back jump dominates the jump. */
  lemma BackJumpsAreReducible(code: seq<Bytecode>, i: nat, path: seq<nat>)
    requires Structured(code)
    requires i < |code| && BackJump(code, i)
    requires Path(code, path) && path[|path| - 1] == i
    ensures code[i].offset in path
  {
    var l := LastContinue(code, i);
    HeadDominates(code, code[i].offset, l, path);
  }

  // ---------------------------------------------------------------------------------------------
  // The labels
  // ---------------------------------------------------------------------------------------------

  /** The labels record exactly the loops of the code. */
  ghost predicate Labelled(code: seq<Bytecode>, labels: seq<Label>) {
    && |labels| == |code|
    && (forall h: nat, l: nat | IsLoop(code, h, l) :: labels[h] == Loop(l))
    && (forall h | 0 <= h < |labels| && labels[h].Loop? :: IsLoop(code, h, labels[h].lastContinue))
  }

  /** Labels every target of a back jump with the last back jump to it. */
  method InstructionLabels(code: seq<Bytecode>) returns (labels: seq<Label>)
    ensures Labelled(code, labels)
  {
    labels := seq(|code|, _ => Code);
    var i := 0;
    while i < |code|
      invariant 0 <= i <= |code| && |labels| == |code|
      invariant forall h | 0 <= h < |code| && labels[h].Loop? ::
                  && labels[h].lastContinue < i
                  && BackJump(code, labels[h].lastContinue)
                  && code[labels[h].lastContinue].offset == h
      invariant forall k | 0 <= k < i && BackJump(code, k) ::
                  labels[code[k].offset].Loop? && k <= labels[code[k].offset].lastContinue
    {
      if HasOffset(code[i]) && code[i].offset <= i {
        labels := labels[code[i].offset := Loop(i)];
      }
      i := i + 1;
    }
  }

  /** The loops with a head before `k` and a last jump at or after `i`, outermost first. */
  function OpenLoops(labels: seq<Label>, k: nat, i: nat): seq<LoopRange>
    requires k <= |labels|
  {
    if k == 0 then []
    else
      var outer := OpenLoops(labels, k - 1, i);
      if labels[k - 1].Loop? && i <= labels[k - 1].lastContinue
      then outer + [LoopRange(k - 1, labels[k - 1].lastContinue)]
      else outer
  }

  /** The loops around instruction `i`: the loop stack when `i` is checked. */
  function LoopsAt(labels: seq<Label>, i: nat): seq<LoopRange>
    requires i < |labels|
  {
    OpenLoops(labels, i + 1, i)
  }

  lemma {:induction false} OpenLoopsMembers(labels: seq<Label>, k: nat, i: nat)
    requires k <= |labels|
    ensures forall r :: r in OpenLoops(labels, k, i) <==>
                        r.head < k && labels[r.head] == Loop(r.last) && i <= r.last
    ensures forall a, b | 0 <= a < b < |OpenLoops(labels, k, i)| ::
              OpenLoops(labels, k, i)[a].head < OpenLoops(labels, k, i)[b].head
  {
    if k > 0 {
      OpenLoopsMembers(labels, k - 1, i);
    }
  }

  /** Moving past an instruction that ends no loop leaves the open loops as they are. */
  lemma {:induction false} OpenLoopsKept(labels: seq<Label>, k: nat, i: nat)
    requires k <= |labels|
    requires forall h | 0 <= h < k :: labels[h] != Loop(i)
    ensures OpenLoops(labels, k, i + 1) == OpenLoops(labels, k, i)
  {
    if k > 0 {
      OpenLoopsKept(labels, k - 1, i);
    }
  }

  /** Moving past the last jump of the innermost loop pops exactly that loop. */
  lemma {:induction false} OpenLoopsPopped(labels: seq<Label>, k: nat, i: nat)
    requires k <= |labels|
    requires |OpenLoops(labels, k, i)| > 0
    requires OpenLoops(labels, k, i)[|OpenLoops(labels, k, i)| - 1].last == i
    requires forall h, h' | 0 <= h < h' < k :: !(labels[h] == Loop(i) && labels[h'] == Loop(i))
    ensures OpenLoops(labels, k, i + 1) == OpenLoops(labels, k, i)[..|OpenLoops(labels, k, i)| - 1]
  {
    if labels[k - 1].Loop? && i <= labels[k - 1].lastContinue {
      OpenLoopsKept(labels, k - 1, i);
    } else {
      OpenLoopsPopped(labels, k - 1, i);
    }
  }

  // ---------------------------------------------------------------------------------------------
  // The three passes
  // ---------------------------------------------------------------------------------------------

  /** The innermost loop around a back jump is that of its target exactly when the jump is allowed. */
  lemma TopIsTarget(code: seq<Bytecode>, labels: seq<Label>, i: nat)
    requires Labelled(code, labels)
    requires i < |code| && BackJump(code, i)
    ensures |LoopsAt(labels, i)| > 0
    ensures ContinueOk(code, i) <==> LoopsAt(labels, i)[|LoopsAt(labels, i)| - 1].head == code[i].offset
  {
    var l := LastContinue(code, i);
    var stack := LoopsAt(labels, i);
    OpenLoopsMembers(labels, i + 1, i);
    assert LoopRange(code[i].offset, l) in stack;
    var top := stack[|stack| - 1];
    assert top in stack;
    assert IsLoop(code, top.head, top.last);
    if top.head == code[i].offset {
      forall h: nat, l': nat | IsLoop(code, h, l') && h <= i <= l' ensures h <= code[i].offset {
        assert LoopRange(h, l') in stack;
      }
    }
  }

  lemma TopIsOpen(labels: seq<Label>, i: nat)
    requires i < |labels| && |LoopsAt(labels, i)| > 0
    ensures var top := LoopsAt(labels, i)[|LoopsAt(labels, i)| - 1];
            top.head <= i && labels[top.head] == Loop(top.last) && i <= top.last
  {
    OpenLoopsMembers(labels, i + 1, i);
    assert LoopsAt(labels, i)[|LoopsAt(labels, i)| - 1] in LoopsAt(labels, i);
  }

  /** One step of the loop stack: the innermost loop is popped exactly at its last jump. */
  lemma StackStep(code: seq<Bytecode>, labels: seq<Label>, i: nat)
    requires Labelled(code, labels)
    requires i < |code| && ContinueOk(code, i)
    ensures BackJump(code, i) ==> |LoopsAt(labels, i)| > 0
    ensures OpenLoops(labels, i + 1, i + 1) ==
            var stack := LoopsAt(labels, i);
            if BackJump(code, i) && stack[|stack| - 1].last == i then stack[..|stack| - 1] else stack
  {
    var stack := LoopsAt(labels, i);
    forall h | 0 <= h < i + 1 ensures labels[h] == Loop(i) ==> BackJump(code, i) && code[i].offset == h {
      assert labels[h] == Loop(i) ==> IsLoop(code, h, i);
    }
    if BackJump(code, i) {
      TopIsTarget(code, labels, i);
      TopIsOpen(labels, i);
      if stack[|stack| - 1].last == i {
        OpenLoopsPopped(labels, i + 1, i);
      } else {
        OpenLoopsKept(labels, i + 1, i);
      }
    } else {
      OpenLoopsKept(labels, i + 1, i);
    }
  }

  /** The check holds of instruction `i` and the loops around it. */
  predicate Passes(code: seq<Bytecode>, labels: seq<Label>, check: Check, i: nat)
    requires i < |code| == |labels| && check.requires(LoopsAt(labels, i), i, code[i])
  {
    check(LoopsAt(labels, i), i, code[i])
  }

  /**
   Walks over the code with the stack of open loops and applies `check` to every instruction.
   The check either enforces the rule on back jumps or runs on code that already obeys it.
   */
  method CheckCode(code: seq<Bytecode>, labels: seq<Label>, check: Check) returns (ok: bool)
    requires Labelled(code, labels)
    requires forall i | 0 <= i < |code| :: check.requires(LoopsAt(labels, i), i, code[i])
    requires forall i | 0 <= i < |code| :: Passes(code, labels, check, i) ==> ContinueOk(code, i)
    ensures ok <==> forall i | 0 <= i < |code| :: Passes(code, labels, check, i)
  {
    var loopStack: seq<LoopRange> := [];
    var i := 0;
    while i < |code|
      invariant 0 <= i <= |code|
      invariant loopStack == OpenLoops(labels, i, i)
      invariant forall k | 0 <= k < i :: Passes(code, labels, check, k)
    {
      if labels[i].Loop? {
        assert IsLoop(code, i, labels[i].lastContinue);
        loopStack := loopStack + [LoopRange(i, labels[i].lastContinue)];
      }
      assert loopStack == LoopsAt(labels, i);
      if !check(loopStack, i, code[i]) {
        assert !Passes(code, labels, check, i);
        return false;
      }
      StackStep(code, labels, i);
      if HasOffset(code[i]) && code[i].offset <= i {
        if i == loopStack[|loopStack| - 1].last {
          loopStack := loopStack[..|loopStack| - 1];
        }
      }
      i := i + 1;
    }
    return true;
  }

  /** All back jumps are only to the current loop. */
  method CheckContinues(code: seq<Bytecode>, labels: seq<Label>) returns (ok: bool)
    requires Labelled(code, labels)
    ensures ok <==> Continues(code)
  {
    var check: Check :=
      (stack: seq<LoopRange>, cur: nat, instr: Bytecode)
        requires HasOffset(instr) && instr.offset <= cur ==> |stack| > 0
      => HasOffset(instr) && instr.offset <= cur ==> stack[|stack| - 1].head == instr.offset;
    forall i | 0 <= i < |code|
      ensures check.requires(LoopsAt(labels, i), i, code[i])
      ensures Passes(code, labels, check, i) <==> ContinueOk(code, i)
    {
      if BackJump(code, i) {
        TopIsTarget(code, labels, i);
      }
    }
    ok := CheckCode(code, labels, check);
  }

  /** The innermost loop has the smallest end, so a bound by it is a bound by every loop around. */
  lemma TopEndsFirst(code: seq<Bytecode>, labels: seq<Label>, i: nat, r: LoopRange)
    requires Labelled(code, labels) && Continues(code)
    requires i < |code| && r in LoopsAt(labels, i)
    ensures |LoopsAt(labels, i)| > 0
    ensures LoopsAt(labels, i)[|LoopsAt(labels, i)| - 1].last <= r.last
  {
    var stack := LoopsAt(labels, i);
    OpenLoopsMembers(labels, i + 1, i);
    var top := stack[|stack| - 1];
    assert top in stack;
    assert IsLoop(code, top.head, top.last) && IsLoop(code, r.head, r.last);
    if r.head < top.head {
      LoopsNest(code, r.head, r.last, top.head, top.last);
    } else {
      var k :| 0 <= k < |stack| && stack[k] == r;
      assert k == |stack| - 1;
    }
  }

  /** The test that `CheckBreaks` makes. */
  predicate BreakAllowed(stack: seq<LoopRange>, cur: nat, instr: Bytecode) {
    HasOffset(instr) && instr.offset > cur ==>
      |stack| > 0 ==>
      !(instr.offset > stack[|stack| - 1].last && instr.offset != stack[|stack| - 1].last + 1)
  }

  lemma BreakAllowedIff(code: seq<Bytecode>, labels: seq<Label>, i: nat)
    requires Labelled(code, labels) && Continues(code)
    requires i < |code|
    ensures BreakAllowed(LoopsAt(labels, i), i, code[i]) <==> BreakOk(code, i)
  {
    var stack := LoopsAt(labels, i);
    OpenLoopsMembers(labels, i + 1, i);
    if ForwardJump(code, i) {
      if BreakAllowed(stack, i, code[i]) {
        forall h: nat, l: nat | IsLoop(code, h, l) && h <= i <= l ensures code[i].offset <= l + 1 {
          assert LoopRange(h, l) in stack;
          TopEndsFirst(code, labels, i, LoopRange(h, l));
        }
      }
      if BreakOk(code, i) && |stack| > 0 {
        var top := stack[|stack| - 1];
        assert top in stack;
        assert IsLoop(code, top.head, top.last);
      }
    }
  }

  /** All breaks go to the instruction after the loop. */
  method CheckBreaks(code: seq<Bytecode>, labels: seq<Label>) returns (ok: bool)
    requires Labelled(code, labels) && Continues(code)
    ensures ok <==> Breaks(code)
  {
    var check: Check := (stack, cur: nat, instr) => BreakAllowed(stack, cur, instr);
    forall i | 0 <= i < |code|
      ensures Passes(code, labels, check, i) <==> BreakOk(code, i)
    {
      BreakAllowedIff(code, labels, i);
    }
    ok := CheckCode(code, labels, check);
  }

  /** The heads of the loops around instruction `i`. */
  function HeadsAt(labels: seq<Label>, i: nat): set<nat>
    requires i < |labels|
  {
    set h | 0 <= h <= i && labels[h].Loop? && i <= labels[h].lastContinue
  }

  /** The heads before `i` of loops that reach `i`: what `HeadsAt` is without a head at `i` itself. */
  function HeadsBefore(labels: seq<Label>, i: nat): set<nat>
    requires i <= |labels|
  {
    set h | 0 <= h < i && labels[h].Loop? && i <= labels[h].lastContinue
  }

  /** The number of loops around every instruction. */
  method CountLoopDepth(ghost code: seq<Bytecode>, labels: seq<Label>) returns (counts: seq<nat>)
    requires Labelled(code, labels)
    ensures |counts| == |labels|
    ensures forall i | 0 <= i < |labels| :: counts[i] == |HeadsAt(labels, i)|
  {
    var lastContinues := set h | 0 <= h < |labels| && labels[h].Loop? :: labels[h].lastContinue;
    var count := 0;
    counts := [];
    assert HeadsBefore(labels, 0) == {};
    for idx := 0 to |labels|
      invariant |counts| == idx
      invariant count == |HeadsBefore(labels, idx)|
      invariant forall i | 0 <= i < idx :: counts[i] == |HeadsAt(labels, i)|
    {
      DepthAt(code, labels, idx);
      DepthAfter(code, labels, idx, lastContinues);
      if labels[idx].Loop? {
        count := count + 1;
      }
      counts := counts + [count];
      if idx in lastContinues {
        count := count - 1;
      }
    }
  }

  /** The depth rises by one exactly at a loop head. */
  lemma DepthAt(code: seq<Bytecode>, labels: seq<Label>, i: nat)
    requires Labelled(code, labels) && i < |labels|
    ensures |HeadsAt(labels, i)| == |HeadsBefore(labels, i)| + (if labels[i].Loop? then 1 else 0)
  {
    if labels[i].Loop? {
      assert IsLoop(code, i, labels[i].lastContinue);
      assert HeadsAt(labels, i) == HeadsBefore(labels, i) + {i};
    } else {
      assert HeadsAt(labels, i) == HeadsBefore(labels, i);
    }
  }

  /** At most one loop ends at an instruction, so the depth drops by one exactly where one does. */
  lemma DepthAfter(code: seq<Bytecode>, labels: seq<Label>, i: nat, lastContinues: set<nat>)
    requires Labelled(code, labels) && i < |labels|
    requires lastContinues == set h | 0 <= h < |labels| && labels[h].Loop? :: labels[h].lastContinue
    ensures |HeadsAt(labels, i)| == |HeadsBefore(labels, i + 1)| + (if i in lastContinues then 1 else 0)
  {
    if i in lastContinues {
      var h :| 0 <= h < |labels| && labels[h] == Loop(i);
      assert IsLoop(code, h, i);
      forall h' | 0 <= h' < |labels| && labels[h'] == Loop(i) ensures h' == h {
        assert IsLoop(code, h', i);
      }
      assert HeadsAt(labels, i) == HeadsBefore(labels, i + 1) + {h};
    } else {
      assert forall h | 0 <= h < |labels| && labels[h].Loop? :: labels[h].lastContinue in lastContinues;
      assert HeadsAt(labels, i) == HeadsBefore(labels, i + 1);
    }
  }

  /** The test that `CheckNoLoopSplits` makes, given the depths. */
  predicate SplitAllowed(labels: seq<Label>, depth: seq<nat>, stack: seq<LoopRange>, i: nat, instr: Bytecode)
    requires i < |depth| == |labels|
    requires HasOffset(instr) && instr.offset > i ==>
               instr.offset < |depth| && (labels[instr.offset].Loop? ==> depth[instr.offset] > 0)
  {
    HasOffset(instr) && instr.offset > i && !(|stack| > 0 && instr.offset > stack[|stack| - 1].last) ==>
      var j := instr.offset;
      var afterDepth := if labels[j].Loop? then depth[j] - 1 else depth[j];
      depth[i] == afterDepth
  }

  lemma EqualSizes(a: set<nat>, b: set<nat>)
    requires a <= b
    ensures |a| == |b| <==> a == b
  {
    assert |b| == |a| + |b - a| by { assert b == a + (b - a); }
  }

  lemma SplitAllowedIff(code: seq<Bytecode>, labels: seq<Label>, depth: seq<nat>, i: nat)
    requires Labelled(code, labels) && Continues(code) && Breaks(code) && OffsetsInRange(code)
    requires |depth| == |labels|
    requires forall k | 0 <= k < |labels| :: depth[k] == |HeadsAt(labels, k)|
    requires i < |code|
    ensures ForwardJump(code, i) && labels[code[i].offset].Loop? ==> depth[code[i].offset] > 0
    ensures SplitAllowed(labels, depth, LoopsAt(labels, i), i, code[i]) <==> NoSplit(code, i)
  {
    if ForwardJump(code, i) {
      var j := code[i].offset;
      DepthAt(code, labels, j);
      var stack := LoopsAt(labels, i);
      if |stack| > 0 && j > stack[|stack| - 1].last {
        BreakSplitsNothing(code, labels, i);
      } else {
        InnerJumpSplits(code, labels, i);
      }
    }
  }

  /** A break to the instruction after the innermost loop cannot land inside another loop. */
  lemma BreakSplitsNothing(code: seq<Bytecode>, labels: seq<Label>, i: nat)
    requires Labelled(code, labels) && Continues(code) && Breaks(code)
    requires i < |code| && ForwardJump(code, i)
    requires |LoopsAt(labels, i)| > 0 && code[i].offset > LoopsAt(labels, i)[|LoopsAt(labels, i)| - 1].last
    ensures NoSplit(code, i)
  {
    var top := LoopsAt(labels, i)[|LoopsAt(labels, i)| - 1];
    OpenLoopsMembers(labels, i + 1, i);
    assert top in LoopsAt(labels, i);
    assert IsLoop(code, top.head, top.last);
    assert BreakOk(code, i);
    forall h: nat, l: nat | IsLoop(code, h, l) && h < code[i].offset <= l ensures h <= i {
      if i < h {
        LoopsNest(code, top.head, top.last, h, l);
      }
    }
  }

  /** A jump that stays in the innermost loop splits nothing exactly when the depths agree. */
  lemma InnerJumpSplits(code: seq<Bytecode>, labels: seq<Label>, i: nat)
    requires Labelled(code, labels) && Continues(code) && OffsetsInRange(code)
    requires i < |code| && ForwardJump(code, i)
    requires |LoopsAt(labels, i)| > 0 ==> code[i].offset <= LoopsAt(labels, i)[|LoopsAt(labels, i)| - 1].last
    ensures |HeadsAt(labels, i)| == |HeadsBefore(labels, code[i].offset)| <==> NoSplit(code, i)
  {
    var j := code[i].offset;
    var outer, inner := HeadsAt(labels, i), HeadsBefore(labels, j);
    OpenLoopsMembers(labels, i + 1, i);
    forall h | h in outer ensures h in inner {
      var r := LoopRange(h, labels[h].lastContinue);
      assert r in LoopsAt(labels, i);
      TopEndsFirst(code, labels, i, r);
    }
    EqualSizes(outer, inner);
    if outer == inner {
      forall h: nat, l: nat | IsLoop(code, h, l) && h < j <= l ensures h <= i {
        assert h in inner;
      }
    }
    if NoSplit(code, i) {
      forall h | h in inner ensures h in outer {
        assert IsLoop(code, h, labels[h].lastContinue);
      }
    }
  }

  /** No forward jump enters the middle of a loop. */
  method CheckNoLoopSplits(code: seq<Bytecode>, labels: seq<Label>) returns (ok: bool)
    requires Labelled(code, labels) && Continues(code) && Breaks(code) && OffsetsInRange(code)
    ensures ok <==> NoSplits(code)
  {
    var depth := CountLoopDepth(code, labels);
    var check: Check :=
      (stack: seq<LoopRange>, i: nat, instr: Bytecode)
        requires i < |depth| == |labels|
        requires HasOffset(instr) && instr.offset > i ==>
                   instr.offset < |depth| && (labels[instr.offset].Loop? ==> depth[instr.offset] > 0)
      => SplitAllowed(labels, depth, stack, i, instr);
    forall i | 0 <= i < |code|
      ensures check.requires(LoopsAt(labels, i), i, code[i])
      ensures Passes(code, labels, check, i) <==> NoSplit(code, i)
    {
      SplitAllowedIff(code, labels, depth, i);
    }
    ok := CheckCode(code, labels, check);
  }

  /** The whole check. It accepts exactly the code with structured jumps and names the first violated rule. */
  method Verify(code: seq<Bytecode>) returns (status: Status)
    requires OffsetsInRange(code)
    ensures status == Accepted <==> Structured(code)
    ensures status == EmptyCodeUnit <==> code == []
    ensures status == InvalidFallThrough <==> |code| > 0 && !IsUnconditionalBranch(code[|code| - 1])
    ensures status == InvalidLoopContinue ==> !Continues(code)
    ensures status == InvalidLoopBreak ==> Continues(code) && !Breaks(code)
    ensures status == InvalidLoopSplit ==> Continues(code) && Breaks(code) && !NoSplits(code)
  {
    if |code| == 0 {
      return EmptyCodeUnit;
    }
    if !IsUnconditionalBranch(code[|code| - 1]) {
      return InvalidFallThrough;
    }
    var labels := InstructionLabels(code);
    var ok := CheckContinues(code, labels);
    if !ok {
      return InvalidLoopContinue;
    }
    ok := CheckBreaks(code, labels);
    if !ok {
      return InvalidLoopBreak;
    }
    ok := CheckNoLoopSplits(code, labels);
    if !ok {
      return InvalidLoopSplit;
    }
    return Accepted;
  }
}
