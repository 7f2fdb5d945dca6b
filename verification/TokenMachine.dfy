/** The loader's stack of partial types, against recursive descent. */
module TokenMachine {
  import opened Wrappers
  import opened FileFormat
  import opened TypeTrees

  type Parsed = Option<(SignatureToken, nat)>

  lemma CompleteSaturated(token: SignatureToken, nodes: seq<TypeBuilder>, k: nat, depth: nat)
    requires k <= |nodes|
    ensures Complete(Saturated(token), nodes, k, depth) == Some((token, k))
  {
  }

  /** Completing a partial type starts with its next argument. */
  lemma CompleteStep(b: TypeBuilder, nodes: seq<TypeBuilder>, k: nat, depth: nat)
    requires k <= |nodes| && !b.Saturated?
    ensures var argument := Parse(nodes, k, depth + 1);
            Complete(b, nodes, k, depth) ==
            if argument.None? then None else Complete(Apply(b, argument.value.0), nodes, argument.value.1, depth)
  {
    var argument := Parse(nodes, k, depth + 1);
    if argument.Some? {
      var rest := ParseAll(nodes, argument.value.1, depth + 1, Missing(b) - 1);
      if rest.Some? {
        BuildStep(b, argument.value.0, rest.value.0);
      } else {
        MissingStep(b, argument.value.0);
      }
    }
  }

  lemma MissingStep(b: TypeBuilder, token: SignatureToken)
    requires !b.Saturated?
    ensures Missing(Apply(b, token)) == Missing(b) - 1
  {
  }

  /** All of them wait for an argument. */
  ghost predicate Waiting(below: seq<TypeBuilder>) {
    forall i | 0 <= i < |below| :: !below[i].Saturated?
  }

  /** What is returned for partial types `below` once the argument that the last one waits for was read or refused. */
  ghost function Return(below: seq<TypeBuilder>, argument: Parsed, nodes: seq<TypeBuilder>): Parsed
    requires Waiting(below) && (argument.Some? ==> argument.value.1 <= |nodes|)
    decreases |below|
  {
    if argument.None? || below == [] then argument
    else
      var n := |below| - 1;
      Return(below[..n], Complete(Apply(below[n], argument.value.0), nodes, argument.value.1, n + 1), nodes)
  }

  /** What is returned from a stack of partial types: every one is completed, from the top. */
  ghost function Resume(below: seq<TypeBuilder>, top: TypeBuilder, nodes: seq<TypeBuilder>, k: nat): Parsed
    requires Waiting(below) && k <= |nodes|
  {
    Return(below, Complete(top, nodes, k, |below| + 1), nodes)
  }

  /** The top has become a type: it is given to the one below. */
  lemma ResumePop(below: seq<TypeBuilder>, token: SignatureToken, nodes: seq<TypeBuilder>, k: nat)
    requires Waiting(below) && k <= |nodes|
    ensures Resume(below, Saturated(token), nodes, k) ==
            if below == [] then Some((token, k))
            else Resume(below[..|below| - 1], Apply(below[|below| - 1], token), nodes, k)
  {
    CompleteSaturated(token, nodes, k, |below| + 1);
  }

  /** The top waits for an argument: the next node is pushed, unless there is none or the stack is full. */
  lemma ResumePush(below: seq<TypeBuilder>, top: TypeBuilder, nodes: seq<TypeBuilder>, k: nat)
    requires Waiting(below) && k <= |nodes| && !top.Saturated? && |below| < DEPTH_MAX
    ensures Waiting(below + [top])
    ensures Resume(below, top, nodes, k) ==
            if k == |nodes| || |below| + 1 == DEPTH_MAX then None else Resume(below + [top], nodes[k], nodes, k + 1)
  {
    CompleteStep(top, nodes, k, |below| + 1);
    var stack := below + [top];
    assert stack[..|below|] == below && stack[|below|] == top;
  }
}
