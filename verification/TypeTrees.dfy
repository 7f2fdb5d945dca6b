/** Signature tokens as trees: their nodes in preorder, and how to get them back from there. */
module TypeTrees {
  import opened Wrappers
  import opened FileFormat
  import opened Slices

  /** A token may be nested this deep, its root being at depth one. */
  const DEPTH_MAX := 256

  /** The root of a type without its arguments, or a type that waits for some of its arguments. */
  datatype TypeBuilder =
    | Saturated(token: SignatureToken)
    | PartialVector
    | PartialReference
    | PartialMutableReference
    | PartialStruct(handle: nat, arity: nat, args: seq<SignatureToken>)

  function Children(t: SignatureToken): seq<SignatureToken> {
    match t
    case Vector(elem) => [elem]
    case Reference(inner) => [inner]
    case MutableReference(inner) => [inner]
    case StructInstantiation(_, args) => args
    case _ => []
  }

  function NodeOf(t: SignatureToken): TypeBuilder {
    match t
    case Vector(_) => PartialVector
    case Reference(_) => PartialReference
    case MutableReference(_) => PartialMutableReference
    case StructInstantiation(handle, args) => PartialStruct(handle, |args|, [])
    case _ => Saturated(t)
  }

  /** The number of nodes, for the recursions below. */
  function Size(t: SignatureToken): nat {
    match t
    case Vector(elem) => 1 + Size(elem)
    case Reference(inner) => 1 + Size(inner)
    case MutableReference(inner) => 1 + Size(inner)
    case StructInstantiation(_, args) => 1 + SizeAll(args)
    case _ => 1
  }

  function SizeAll(ts: seq<SignatureToken>): nat {
    if ts == [] then 0 else Size(ts[0]) + SizeAll(ts[1..])
  }

  lemma SizeOf(t: SignatureToken)
    ensures SizeAll(Children(t)) < Size(t)
  {
    if |Children(t)| == 1 {
      assert Children(t)[1..] == [];
    }
  }

  lemma {:induction false} SizeOne(ts: seq<SignatureToken>, i: nat)
    requires i < |ts|
    ensures Size(ts[i]) <= SizeAll(ts)
    decreases |ts|
  {
    if i > 0 {
      SizeOne(ts[1..], i - 1);
    }
  }

  /** The nodes in preorder. */
  function Flatten(t: SignatureToken): (nodes: seq<TypeBuilder>)
    ensures |nodes| > 0
    decreases Size(t), 0
  {
    SizeOf(t);
    [NodeOf(t)] + FlattenAll(Children(t))
  }

  function FlattenAll(ts: seq<SignatureToken>): seq<TypeBuilder>
    decreases SizeAll(ts), 1, |ts|
  {
    if ts == [] then [] else Flatten(ts[0]) + FlattenAll(ts[1..])
  }

  function Depth(t: SignatureToken): nat
    decreases Size(t), 0
  {
    SizeOf(t);
    1 + DepthAll(Children(t))
  }

  function DepthAll(ts: seq<SignatureToken>): nat
    decreases SizeAll(ts), 1, |ts|
  {
    if ts == [] then 0
    else if Depth(ts[0]) >= DepthAll(ts[1..]) then Depth(ts[0]) else DepthAll(ts[1..])
  }

  /** Every instantiation has arguments. */
  predicate NoEmptyInstantiation(t: SignatureToken)
    decreases Size(t), 0
  {
    SizeOf(t);
    (t.StructInstantiation? ==> t.args != []) && NoneEmpty(Children(t))
  }

  predicate NoneEmpty(ts: seq<SignatureToken>)
    decreases SizeAll(ts), 1
  {
    forall i | 0 <= i < |ts| :: (SizeOne(ts, i); NoEmptyInstantiation(ts[i]))
  }

  // ---------------------------------------------------------------------------------------------
  // Building types
  // ---------------------------------------------------------------------------------------------

  /** A partial type takes its next argument. */
  function Apply(b: TypeBuilder, token: SignatureToken): TypeBuilder
    requires !b.Saturated?
  {
    match b
    case PartialVector => Saturated(Vector(token))
    case PartialReference => Saturated(Reference(token))
    case PartialMutableReference => Saturated(MutableReference(token))
    case PartialStruct(handle, arity, args) =>
      if |args| + 1 >= arity then Saturated(StructInstantiation(handle, args + [token]))
      else PartialStruct(handle, arity, args + [token])
  }

  /** How many arguments are missing; a node that takes any takes at least one. */
  function Missing(b: TypeBuilder): nat {
    match b
    case Saturated(_) => 0
    case PartialStruct(_, arity, args) => if |args| + 1 >= arity then 1 else arity - |args|
    case _ => 1
  }

  /** The type with all its arguments. */
  function Build(b: TypeBuilder, args: seq<SignatureToken>): SignatureToken
    requires |args| == Missing(b)
  {
    match b
    case Saturated(token) => token
    case PartialVector => Vector(args[0])
    case PartialReference => Reference(args[0])
    case PartialMutableReference => MutableReference(args[0])
    case PartialStruct(handle, _, before) => StructInstantiation(handle, before + args)
  }

  lemma BuildStep(b: TypeBuilder, token: SignatureToken, rest: seq<SignatureToken>)
    requires 1 + |rest| == Missing(b)
    ensures Missing(Apply(b, token)) == |rest|
    ensures Build(Apply(b, token), rest) == Build(b, [token] + rest)
  {
    if b.PartialStruct? {
      assert b.args + ([token] + rest) == b.args + [token] + rest;
    }
  }

  lemma BuildNode(t: SignatureToken)
    requires NoEmptyInstantiation(t)
    ensures Missing(NodeOf(t)) == |Children(t)| && Build(NodeOf(t), Children(t)) == t
    ensures NoneEmpty(Children(t))
  {
  }

  // ---------------------------------------------------------------------------------------------
  // Recursive descent
  // ---------------------------------------------------------------------------------------------

  /** Reads a type at the given depth: the type, and the position behind it. */
  function Parse(nodes: seq<TypeBuilder>, k: nat, depth: nat): (r: Option<(SignatureToken, nat)>)
    ensures r.Some? ==> k < r.value.1 <= |nodes|
    decreases |nodes| - k, 0
  {
    if k >= |nodes| || depth > DEPTH_MAX then None else Complete(nodes[k], nodes, k + 1, depth)
  }

  /** Reads the arguments that are missing, and builds the type. */
  function Complete(b: TypeBuilder, nodes: seq<TypeBuilder>, k: nat, depth: nat): (r: Option<(SignatureToken, nat)>)
    requires k <= |nodes|
    ensures r.Some? ==> k <= r.value.1 <= |nodes|
    decreases |nodes| - k, 2
  {
    match ParseAll(nodes, k, depth + 1, Missing(b))
    case None => None
    case Some((args, next)) => Some((Build(b, args), next))
  }

  function ParseAll(nodes: seq<TypeBuilder>, k: nat, depth: nat, count: nat): (r: Option<(seq<SignatureToken>, nat)>)
    requires k <= |nodes|
    ensures r.Some? ==> |r.value.0| == count && k <= r.value.1 <= |nodes|
    decreases |nodes| - k, 1
  {
    if count == 0 then Some(([], k))
    else
      match Parse(nodes, k, depth)
      case None => None
      case Some((token, next)) =>
        match ParseAll(nodes, next, depth, count - 1)
        case None => None
        case Some((rest, end)) => Some(([token] + rest, end))
  }

  /** A flattened type is read back, whatever follows it; if it is nested too deeply it is refused. */
  lemma {:induction false} FlattenedIsParsed(t: SignatureToken, nodes: seq<TypeBuilder>, k: nat, depth: nat)
    requires NoEmptyInstantiation(t) && At(nodes, k, Flatten(t))
    ensures Parse(nodes, k, depth) ==
            if depth + Depth(t) <= DEPTH_MAX + 1 then Some((t, k + |Flatten(t)|)) else None
    decreases |Flatten(t)|, 0
  {
    FlattenedAt(t, nodes, k);
    BuildNode(t);
    BuiltIsParsed(NodeOf(t), Children(t), nodes, k, depth);
  }

  lemma FlattenedAt(t: SignatureToken, nodes: seq<TypeBuilder>, k: nat)
    requires At(nodes, k, Flatten(t))
    ensures k < |nodes| && nodes[k] == NodeOf(t) && At(nodes, k + 1, FlattenAll(Children(t)))
    ensures |Flatten(t)| == 1 + |FlattenAll(Children(t))|
  {
    AtSplit(nodes, k, [NodeOf(t)], FlattenAll(Children(t)));
    AtOne(nodes, k, NodeOf(t));
  }

  lemma {:induction false} BuiltIsParsed(
    b: TypeBuilder, args: seq<SignatureToken>, nodes: seq<TypeBuilder>, k: nat, depth: nat)
    requires |args| == Missing(b) && NoneEmpty(args)
    requires k < |nodes| && nodes[k] == b && At(nodes, k + 1, FlattenAll(args))
    ensures Parse(nodes, k, depth) ==
            if depth + DepthAll(args) <= DEPTH_MAX then Some((Build(b, args), k + 1 + |FlattenAll(args)|)) else None
    decreases |FlattenAll(args)|, 2
  {
    if depth <= DEPTH_MAX {
      FlattenedAreParsed(args, nodes, k + 1, depth + 1);
    }
  }

  lemma {:induction false} FlattenedAreParsed(ts: seq<SignatureToken>, nodes: seq<TypeBuilder>, k: nat, depth: nat)
    requires NoneEmpty(ts) && At(nodes, k, FlattenAll(ts))
    requires depth <= DEPTH_MAX + 1
    ensures ParseAll(nodes, k, depth, |ts|) ==
            if depth + DepthAll(ts) <= DEPTH_MAX + 1 then Some((ts, k + |FlattenAll(ts)|)) else None
    decreases |FlattenAll(ts)|, 1
  {
    if ts != [] {
      FlattenedAllAt(ts, nodes, k);
      FlattenedIsParsed(ts[0], nodes, k, depth);
      FlattenedAreParsed(ts[1..], nodes, k + |Flatten(ts[0])|, depth);
      assert ts == [ts[0]] + ts[1..];
    }
  }

  lemma FlattenedAllAt(ts: seq<SignatureToken>, nodes: seq<TypeBuilder>, k: nat)
    requires ts != [] && At(nodes, k, FlattenAll(ts))
    ensures At(nodes, k, Flatten(ts[0])) && At(nodes, k + |Flatten(ts[0])|, FlattenAll(ts[1..]))
    ensures |FlattenAll(ts)| == |Flatten(ts[0])| + |FlattenAll(ts[1..])|
  {
    var first, rest := Flatten(ts[0]), FlattenAll(ts[1..]);
    assert FlattenAll(ts) == first + rest;
    AtSplit(nodes, k, first, rest);
  }

  /** A node as it is before it takes arguments. */
  predicate IsNode(b: TypeBuilder) {
    match b
    case Saturated(t) => NodeOf(t) == b
    case PartialStruct(_, _, args) => args == []
    case _ => true
  }

  lemma {:induction false} FlattenIsNodes(t: SignatureToken)
    ensures forall i | 0 <= i < |Flatten(t)| :: IsNode(Flatten(t)[i])
    decreases Size(t), 0
  {
    SizeOf(t);
    FlattenAllIsNodes(Children(t));
  }

  lemma {:induction false} FlattenAllIsNodes(ts: seq<SignatureToken>)
    ensures forall i | 0 <= i < |FlattenAll(ts)| :: IsNode(FlattenAll(ts)[i])
    decreases SizeAll(ts), 1, |ts|
  {
    if ts != [] {
      FlattenIsNodes(ts[0]);
      FlattenAllIsNodes(ts[1..]);
    }
  }

  /** The same node, except that an arity of one may be given as zero. */
  predicate NodeAlike(a: TypeBuilder, b: TypeBuilder) {
    a == b || (a.PartialStruct? && a.arity == 0 && b == a.(arity := 1))
  }

  ghost predicate AlikeAt(nodes: seq<TypeBuilder>, k: nat, part: seq<TypeBuilder>) {
    k + |part| <= |nodes| && forall i | k <= i < k + |part| :: NodeAlike(nodes[i], part[i - k])
  }

  lemma AlikeJoin(nodes: seq<TypeBuilder>, k: nat, a: seq<TypeBuilder>, b: seq<TypeBuilder>)
    requires AlikeAt(nodes, k, a) && AlikeAt(nodes, k + |a|, b)
    ensures AlikeAt(nodes, k, a + b)
  {
  }

  lemma BuiltNode(b: TypeBuilder, args: seq<SignatureToken>)
    requires IsNode(b) && |args| == Missing(b) && NoneEmpty(args)
    ensures var t := Build(b, args);
            Children(t) == args && NoEmptyInstantiation(t) && NodeAlike(b, NodeOf(t))
  {
    assert [] + args == args;
  }

  /** What is read has the nodes that were read, but for arities of zero. */
  lemma {:induction false} ParsedIsFlattened(nodes: seq<TypeBuilder>, k: nat, depth: nat)
    requires (forall i | 0 <= i < |nodes| :: IsNode(nodes[i])) && Parse(nodes, k, depth).Some?
    ensures var (t, next) := Parse(nodes, k, depth).value;
            && NoEmptyInstantiation(t) && depth + Depth(t) <= DEPTH_MAX + 1
            && next == k + |Flatten(t)| && AlikeAt(nodes, k, Flatten(t))
    decreases |nodes| - k, 0
  {
    var b := nodes[k];
    ParsedAreFlattened(nodes, k + 1, depth + 1, Missing(b));
    var (args, next) := ParseAll(nodes, k + 1, depth + 1, Missing(b)).value;
    BuiltIsFlattened(b, args, nodes, k);
  }

  lemma BuiltIsFlattened(b: TypeBuilder, args: seq<SignatureToken>, nodes: seq<TypeBuilder>, k: nat)
    requires IsNode(b) && |args| == Missing(b) && NoneEmpty(args)
    requires k < |nodes| && nodes[k] == b && AlikeAt(nodes, k + 1, FlattenAll(args))
    ensures var t := Build(b, args);
            && NoEmptyInstantiation(t) && Depth(t) == 1 + DepthAll(args)
            && |Flatten(t)| == 1 + |FlattenAll(args)| && AlikeAt(nodes, k, Flatten(t))
  {
    var t := Build(b, args);
    BuiltNode(b, args);
    AlikeJoin(nodes, k, [NodeOf(t)], FlattenAll(args));
  }

  lemma {:induction false} ParsedAreFlattened(nodes: seq<TypeBuilder>, k: nat, depth: nat, count: nat)
    requires forall i | 0 <= i < |nodes| :: IsNode(nodes[i])
    requires k <= |nodes| && depth <= DEPTH_MAX + 1 && ParseAll(nodes, k, depth, count).Some?
    ensures var (ts, next) := ParseAll(nodes, k, depth, count).value;
            && NoneEmpty(ts) && depth + DepthAll(ts) <= DEPTH_MAX + 1
            && next == k + |FlattenAll(ts)| && AlikeAt(nodes, k, FlattenAll(ts))
    decreases |nodes| - k, 1
  {
    if count > 0 {
      ParsedIsFlattened(nodes, k, depth);
      var (t, middle) := Parse(nodes, k, depth).value;
      ParsedAreFlattened(nodes, middle, depth, count - 1);
      var (ts, next) := ParseAll(nodes, middle, depth, count - 1).value;
      assert ParseAll(nodes, k, depth, count) == Some(([t] + ts, next));
      AlikeCons(nodes, k, t, ts);
    }
  }

  lemma AlikeCons(nodes: seq<TypeBuilder>, k: nat, t: SignatureToken, ts: seq<SignatureToken>)
    requires AlikeAt(nodes, k, Flatten(t)) && AlikeAt(nodes, k + |Flatten(t)|, FlattenAll(ts))
    requires NoEmptyInstantiation(t) && NoneEmpty(ts)
    ensures AlikeAt(nodes, k, FlattenAll([t] + ts)) && NoneEmpty([t] + ts)
    ensures |FlattenAll([t] + ts)| == |Flatten(t)| + |FlattenAll(ts)|
    ensures DepthAll([t] + ts) == if Depth(t) >= DepthAll(ts) then Depth(t) else DepthAll(ts)
  {
    ConsFlattened(t, ts);
    AlikeJoin(nodes, k, Flatten(t), FlattenAll(ts));
  }

  lemma ConsFlattened(t: SignatureToken, ts: seq<SignatureToken>)
    ensures FlattenAll([t] + ts) == Flatten(t) + FlattenAll(ts)
    ensures DepthAll([t] + ts) == if Depth(t) >= DepthAll(ts) then Depth(t) else DepthAll(ts)
  {
    assert ([t] + ts)[1..] == ts;
  }

  /** An arity of zero is read as one, so that different nodes give the same type. */
  lemma ZeroArityIsRead(handle: nat, t: SignatureToken)
    requires NoEmptyInstantiation(t) && Depth(t) < DEPTH_MAX
    ensures Parse([PartialStruct(handle, 0, [])] + Flatten(t), 0, 1) ==
            Parse([PartialStruct(handle, 1, [])] + Flatten(t), 0, 1) ==
            Some((StructInstantiation(handle, [t]), 1 + |Flatten(t)|))
  {
    assert FlattenAll([t]) == Flatten(t) by {
      assert [t][1..] == [];
      assert Flatten(t) + [] == Flatten(t);
    }
    assert DepthAll([t]) == Depth(t);
    assert [] + [t] == [t];
    forall arity: nat | arity <= 1
      ensures Parse([PartialStruct(handle, arity, [])] + Flatten(t), 0, 1) ==
              Some((StructInstantiation(handle, [t]), 1 + |Flatten(t)|))
    {
      var b := PartialStruct(handle, arity, []);
      BuiltIsParsed(b, [t], [b] + Flatten(t), 0, 1);
    }
  }
}
