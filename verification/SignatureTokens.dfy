/** The binary form of signature tokens, and the printer: a preorder traversal with a stack. */
module SignatureTokens {
  import opened Wrappers
  import opened FileFormat
  import opened Slices
  import opened TypeTrees
  import opened Uleb128

  const SIGNATURE_SIZE_MAX := 255
  const TYPE_PARAMETER_COUNT_MAX := 255
  const TYPE_PARAMETER_INDEX_MAX := 65536
  const TABLE_INDEX_MAX := 65535
  const U16_MAX := 65535

  const BOOL: Byte := 0x1
  const U8_TYPE: Byte := 0x2
  const U64_TYPE: Byte := 0x3
  const U128_TYPE: Byte := 0x4
  const ADDRESS: Byte := 0x5
  const REFERENCE: Byte := 0x6
  const MUTABLE_REFERENCE: Byte := 0x7
  const STRUCT: Byte := 0x8
  const TYPE_PARAMETER: Byte := 0x9
  const VECTOR: Byte := 0xA
  const STRUCT_INST: Byte := 0xB
  const SIGNER: Byte := 0xC

  // ---------------------------------------------------------------------------------------------
  // The format
  // ---------------------------------------------------------------------------------------------

  /** The code of a node. */
  function Code(b: TypeBuilder): Byte {
    match b
    case Saturated(Bool) => BOOL
    case Saturated(U8) => U8_TYPE
    case Saturated(U64) => U64_TYPE
    case Saturated(U128) => U128_TYPE
    case Saturated(Address) => ADDRESS
    case Saturated(Signer) => SIGNER
    case Saturated(Struct(_)) => STRUCT
    case Saturated(_) => TYPE_PARAMETER
    case PartialVector => VECTOR
    case PartialReference => REFERENCE
    case PartialMutableReference => MUTABLE_REFERENCE
    case PartialStruct(_, _, _) => STRUCT_INST
  }

  /** The numbers that follow the code. */
  function Numbers(b: TypeBuilder): seq<Byte> {
    match b
    case Saturated(Struct(handle)) => Encode(handle)
    case Saturated(TypeParameter(index)) => Encode(index)
    case PartialStruct(handle, arity, _) => Encode(handle) + Encode(arity)
    case _ => []
  }

  /** The bytes of a single node. */
  function NodeBytes(b: TypeBuilder): (bytes: seq<Byte>)
    ensures |bytes| > 0
  {
    [Code(b)] + Numbers(b)
  }

  function BytesOf(nodes: seq<TypeBuilder>): seq<Byte> {
    if nodes == [] then [] else NodeBytes(nodes[0]) + BytesOf(nodes[1..])
  }

  /** The binary form of a type: the bytes of its nodes, in preorder. */
  function Print(t: SignatureToken): seq<Byte> {
    BytesOf(Flatten(t))
  }

  lemma {:induction false} BytesOfConcat(a: seq<TypeBuilder>, b: seq<TypeBuilder>)
    ensures BytesOf(a + b) == BytesOf(a) + BytesOf(b)
    decreases |a|
  {
    if a == [] {
      assert a + b == b;
    } else {
      assert (a + b)[1..] == a[1..] + b;
      BytesOfConcat(a[1..], b);
      Associate(NodeBytes(a[0]), BytesOf(a[1..]), BytesOf(b));
    }
  }

  lemma BytesOfOne(b: TypeBuilder)
    ensures BytesOf([b]) == NodeBytes(b)
  {
    assert [b][1..] == [];
    assert NodeBytes(b) + [] == NodeBytes(b);
  }

  /** The numbers of a node are within the limits that the printer checks. */
  predicate NodeOk(b: TypeBuilder) {
    match b
    case PartialStruct(handle, arity, _) => handle <= TABLE_INDEX_MAX && arity <= SIGNATURE_SIZE_MAX
    case Saturated(Struct(handle)) => handle <= TABLE_INDEX_MAX
    case Saturated(TypeParameter(index)) => index <= TYPE_PARAMETER_INDEX_MAX
    case _ => true
  }

  ghost predicate NodesOk(t: SignatureToken) {
    forall i | 0 <= i < |Flatten(t)| :: NodeOk(Flatten(t)[i])
  }

  // ---------------------------------------------------------------------------------------------
  // The printer
  // ---------------------------------------------------------------------------------------------

  /** Appends a number of at most the given size. */
  method WriteUleb(binary: seq<Byte>, x: nat, max: U64) returns (r: Result<seq<Byte>, Error>)
    ensures r == if x > max then Err(Malformed) else Ok(binary + Encode(x))
  {
    if x > max {
      return Err(Malformed);
    }
    var written := WriteU64(binary, x);
    r := Ok(written);
  }

  /** Appends a single node. */
  method WriteNode(binary: seq<Byte>, token: SignatureToken) returns (r: Result<seq<Byte>, Error>)
    ensures r == if NodeOk(NodeOf(token)) then Ok(binary + NodeBytes(NodeOf(token))) else Err(Malformed)
  {
    match token {
      case Struct(handle) => {
        r := WriteUleb(binary + [STRUCT], handle, TABLE_INDEX_MAX);
      }
      case StructInstantiation(handle, args) => {
        var written :- WriteUleb(binary + [STRUCT_INST], handle, TABLE_INDEX_MAX);
        r := WriteUleb(written, |args|, SIGNATURE_SIZE_MAX);
        Associate(binary + [STRUCT_INST], Encode(handle), Encode(|args|));
      }
      case TypeParameter(index) => {
        r := WriteUleb(binary + [TYPE_PARAMETER], index, TYPE_PARAMETER_INDEX_MAX);
      }
      case _ => {
        r := Ok(binary + [Code(NodeOf(token))]);
        assert binary + [Code(NodeOf(token))] + Numbers(NodeOf(token)) == binary + [Code(NodeOf(token))];
      }
    }
    Associate(binary, [Code(NodeOf(token))], Numbers(NodeOf(token)));
  }

  /** A type to print, with its depth in the whole. */
  type Item = (SignatureToken, nat)

  /** The nodes that are left to print, from the top of the stack. */
  function FlattenStack(stack: seq<Item>): seq<TypeBuilder> {
    if stack == [] then [] else Flatten(stack[|stack| - 1].0) + FlattenStack(stack[..|stack| - 1])
  }

  ghost predicate NotTooDeep(stack: seq<Item>) {
    forall i | 0 <= i < |stack| :: stack[i].1 + Depth(stack[i].0) <= DEPTH_MAX + 1
  }

  lemma StackPush(stack: seq<Item>, item: Item)
    ensures FlattenStack(stack + [item]) == Flatten(item.0) + FlattenStack(stack)
    ensures NotTooDeep(stack + [item]) <==> NotTooDeep(stack) && item.1 + Depth(item.0) <= DEPTH_MAX + 1
  {
    var pushed := stack + [item];
    assert pushed[..|stack|] == stack && pushed[|stack|] == item;
    assert forall i | 0 <= i < |stack| :: pushed[i] == stack[i];
  }

  /** The types as a stack, the first on top. */
  function Reversed(ts: seq<SignatureToken>, depth: nat): seq<Item> {
    if ts == [] then [] else Reversed(ts[1..], depth) + [(ts[0], depth)]
  }

  lemma {:induction false} PushAll(stack: seq<Item>, ts: seq<SignatureToken>, depth: nat)
    ensures FlattenStack(stack + Reversed(ts, depth)) == FlattenAll(ts) + FlattenStack(stack)
    decreases |ts|
  {
    if ts == [] {
      assert stack + Reversed(ts, depth) == stack;
    } else {
      var below := stack + Reversed(ts[1..], depth);
      PushAll(stack, ts[1..], depth);
      StackPush(below, (ts[0], depth));
      Associate(stack, Reversed(ts[1..], depth), [(ts[0], depth)]);
      Associate(Flatten(ts[0]), FlattenAll(ts[1..]), FlattenStack(stack));
    }
  }

  lemma {:induction false} PushAllDepth(stack: seq<Item>, ts: seq<SignatureToken>, depth: nat)
    requires depth <= DEPTH_MAX + 1
    ensures NotTooDeep(stack + Reversed(ts, depth)) <==> NotTooDeep(stack) && depth + DepthAll(ts) <= DEPTH_MAX + 1
    decreases |ts|
  {
    if ts == [] {
      assert stack + Reversed(ts, depth) == stack;
    } else {
      PushAllDepth(stack, ts[1..], depth);
      StackPush(stack + Reversed(ts[1..], depth), (ts[0], depth));
      Associate(stack, Reversed(ts[1..], depth), [(ts[0], depth)]);
    }
  }

  /** Printing the node of the top leaves its arguments on the stack. */
  lemma ExpandTop(rest: seq<Item>, top: Item)
    requires top.1 <= DEPTH_MAX
    ensures var stack := rest + Reversed(Children(top.0), top.1 + 1);
            && FlattenStack(rest + [top]) == [NodeOf(top.0)] + FlattenStack(stack)
            && (NotTooDeep(rest + [top]) <==> NotTooDeep(stack))
  {
    PushAll(rest, Children(top.0), top.1 + 1);
    PushAllDepth(rest, Children(top.0), top.1 + 1);
    StackPush(rest, top);
    Associate([NodeOf(top.0)], FlattenAll(Children(top.0)), FlattenStack(rest));
  }

  lemma BytesOfSnoc(done: seq<TypeBuilder>, b: TypeBuilder)
    ensures BytesOf(done + [b]) == BytesOf(done) + NodeBytes(b)
  {
    BytesOfConcat(done, [b]);
    BytesOfOne(b);
  }

  /** The state of the printer: the nodes that were printed, and the types that are left. */
  ghost predicate Printing(nodes: seq<TypeBuilder>, done: seq<TypeBuilder>, stack: seq<Item>) {
    nodes == done + FlattenStack(stack) && forall i | 0 <= i < |done| :: NodeOk(done[i])
  }

  lemma PrintingStep(nodes: seq<TypeBuilder>, done: seq<TypeBuilder>, rest: seq<Item>, top: Item)
    requires Printing(nodes, done, rest + [top]) && top.1 <= DEPTH_MAX
    ensures var b := NodeOf(top.0);
            var stack := rest + Reversed(Children(top.0), top.1 + 1);
            && (NodeOk(b) ==> Printing(nodes, done + [b], stack))
            && |done| < |nodes| && nodes[|done|] == b
            && |FlattenStack(stack)| < |FlattenStack(rest + [top])|
  {
    var stack := rest + Reversed(Children(top.0), top.1 + 1);
    ExpandTop(rest, top);
    Associate(done, [NodeOf(top.0)], FlattenStack(stack));
  }

  /** Appends a type. This succeeds exactly if its nesting and its numbers are within the limits. */
  method SerializeToken(binary: seq<Byte>, token: SignatureToken) returns (r: Result<seq<Byte>, Error>)
    ensures r.Ok? <==> Depth(token) <= DEPTH_MAX && NodesOk(token)
    ensures r.Ok? ==> r.value == binary + Print(token)
  {
    var out, stack: seq<Item> := binary, [(token, 1)];
    ghost var nodes, done: seq<TypeBuilder> := Flatten(token), [];
    StackPush([], (token, 1));
    assert stack == [] + [(token, 1)] && nodes + [] == nodes && [] + nodes == nodes && binary + BytesOf([]) == binary;
    while stack != []
      invariant Printing(nodes, done, stack) && out == binary + BytesOf(done)
      invariant NotTooDeep(stack) <==> Depth(token) <= DEPTH_MAX
      decreases |FlattenStack(stack)|
    {
      var top, rest := stack[|stack| - 1], stack[..|stack| - 1];
      assert stack == rest + [top];
      StackPush(rest, top);
      stack := rest + Reversed(Children(top.0), top.1 + 1);
      if top.1 > DEPTH_MAX {
        return Err(Malformed);
      }
      ExpandTop(rest, top);
      PrintingStep(nodes, done, rest, top);
      BytesOfSnoc(done, NodeOf(top.0));
      Associate(binary, BytesOf(done), NodeBytes(NodeOf(top.0)));
      out :- WriteNode(out, top.0);
      done := done + [NodeOf(top.0)];
    }
    assert done + [] == done;
    r := Ok(out);
  }
}
