/** Loading signature tokens from their binary form. */
module TokenLoader {
  import opened Wrappers
  import opened FileFormat
  import opened Slices
  import opened TypeTrees
  import opened TokenMachine
  import opened Uleb128
  import opened SignatureTokens
  import opened Streams

  // ---------------------------------------------------------------------------------------------
  // Numbers
  // ---------------------------------------------------------------------------------------------

  /** A number of at most the given size comes next. */
  ghost predicate NumberAt(binary: seq<Byte>, position: nat, max: nat, x: nat) {
    x <= max < U64_LIMIT && At(binary, position, Encode(x))
  }

  lemma NumberUnique(binary: seq<Byte>, position: nat, max: nat, x: nat, y: nat)
    requires NumberAt(binary, position, max, x) && At(binary, position, Encode(y)) && y < U64_LIMIT
    ensures x == y
  {
    EncodedUnique(binary, position, x, y);
  }

  /** Reads a number of at most the given size, and checks that it fits into a type that may be smaller still. */
  method ReadUleb(binary: seq<Byte>, position: nat, max: U64, limit: nat) returns (r: Result<(nat, nat), Error>)
    requires position <= |binary| && limit <= max
    ensures r.Ok? ==> NumberAt(binary, position, limit, r.value.0) && r.value.1 == position + |Encode(r.value.0)|
    ensures r.Err? ==> forall x :: !NumberAt(binary, position, limit, x)
  {
    var word, next := ReadU64(binary, position);
    if word.Err? {
      assert forall x | NumberAt(binary, position, limit, x) :: EncodedAt(binary, position, x);
      return Err(Malformed);
    }
    forall x | NumberAt(binary, position, limit, x) ensures word.value <= limit {
      NumberUnique(binary, position, limit, x, word.value);
    }
    if word.value > max {
      return Err(Malformed);
    }
    if word.value > limit {
      return Err(Malformed);
    }
    r := Ok((word.value, next));
  }

  /** A handle and an arity come next. */
  ghost predicate InstantiationAt(binary: seq<Byte>, position: nat, handle: nat, arity: nat) {
    && NumberAt(binary, position, TABLE_INDEX_MAX, handle)
    && NumberAt(binary, position + |Encode(handle)|, TYPE_PARAMETER_COUNT_MAX, arity)
  }

  lemma InstantiationBytes(binary: seq<Byte>, position: nat, handle: nat, arity: nat)
    requires handle <= TABLE_INDEX_MAX && arity <= TYPE_PARAMETER_COUNT_MAX
    ensures InstantiationAt(binary, position, handle, arity) <==> At(binary, position, Encode(handle) + Encode(arity))
  {
    AtSplit(binary, position, Encode(handle), Encode(arity));
  }

  /** Reads a handle and an arity. */
  method ReadInstantiation(binary: seq<Byte>, position: nat) returns (r: Result<(nat, nat, nat), Error>)
    requires position <= |binary|
    ensures r.Ok? ==>
              && InstantiationAt(binary, position, r.value.0, r.value.1)
              && r.value.2 == position + |Encode(r.value.0)| + |Encode(r.value.1)|
    ensures r.Err? ==> forall x, y :: !InstantiationAt(binary, position, x, y)
  {
    var n :- ReadUleb(binary, position, TABLE_INDEX_MAX, TABLE_INDEX_MAX);
    var m := ReadUleb(binary, n.1, TYPE_PARAMETER_COUNT_MAX, TYPE_PARAMETER_COUNT_MAX);
    if m.Err? {
      forall x, y ensures !InstantiationAt(binary, position, x, y) {
        if InstantiationAt(binary, position, x, y) {
          NumberUnique(binary, position, TABLE_INDEX_MAX, x, n.0);
        }
      }
      return Err(m.error);
    }
    r := Ok((n.0, m.value.0, m.value.1));
  }

  // ---------------------------------------------------------------------------------------------
  // Nodes
  // ---------------------------------------------------------------------------------------------

  /** A node that the format can carry: its numbers fit into their types. */
  predicate Readable(b: TypeBuilder) {
    IsNode(b) &&
    match b
    case PartialStruct(handle, arity, _) => handle <= TABLE_INDEX_MAX && arity <= TYPE_PARAMETER_COUNT_MAX
    case Saturated(Struct(handle)) => handle <= U16_MAX
    case Saturated(TypeParameter(index)) => index <= U16_MAX
    case _ => true
  }

  ghost predicate NodeAt(binary: seq<Byte>, position: nat, b: TypeBuilder) {
    Readable(b) && At(binary, position, NodeBytes(b))
  }

  /** A node is its code followed by its numbers. */
  lemma NodeSplit(binary: seq<Byte>, position: nat, b: TypeBuilder)
    ensures At(binary, position, NodeBytes(b)) <==>
            position < |binary| && binary[position] == Code(b) && At(binary, position + 1, Numbers(b))
  {
    AtSplit(binary, position, [Code(b)], Numbers(b));
    AtOne(binary, position, Code(b));
  }

  /** The node of a code that no number follows. */
  function PlainNode(code: Byte): Option<TypeBuilder> {
    match code
    case 0x1 => Some(Saturated(Bool))
    case 0x2 => Some(Saturated(U8))
    case 0x3 => Some(Saturated(U64))
    case 0x4 => Some(Saturated(U128))
    case 0x5 => Some(Saturated(Address))
    case 0x6 => Some(PartialReference)
    case 0x7 => Some(PartialMutableReference)
    case 0xA => Some(PartialVector)
    case 0xC => Some(Saturated(Signer))
    case _ => None
  }

  lemma PlainNodeBytes(code: Byte)
    requires PlainNode(code).Some?
    ensures var b := PlainNode(code).value; Readable(b) && Code(b) == code && Numbers(b) == []
  {
  }

  /** The code comes next, and behind it what such a node needs. */
  ghost predicate NodeShape(binary: seq<Byte>, position: nat, b: TypeBuilder, code: Byte) {
    && position < |binary| && binary[position] == code
    && if code == STRUCT then b.Saturated? && b.token.Struct? && NumberAt(binary, position + 1, U16_MAX, b.token.handle)
       else if code == TYPE_PARAMETER then
         b.Saturated? && b.token.TypeParameter? && NumberAt(binary, position + 1, U16_MAX, b.token.index)
       else if code == STRUCT_INST then
         b.PartialStruct? && b.args == [] && InstantiationAt(binary, position + 1, b.handle, b.arity)
       else PlainNode(code) == Some(b)
  }

  lemma NodeFound(binary: seq<Byte>, position: nat, b: TypeBuilder)
    requires NodeAt(binary, position, b)
    ensures NodeShape(binary, position, b, Code(b))
  {
    NodeSplit(binary, position, b);
    if b.PartialStruct? {
      InstantiationBytes(binary, position + 1, b.handle, b.arity);
    } else if b.Saturated? {
      assert NodeOf(b.token).Saturated?;
    }
  }

  lemma ShapeUnique(binary: seq<Byte>, position: nat, b: TypeBuilder, c: TypeBuilder, code: Byte)
    requires NodeShape(binary, position, b, code) && NodeShape(binary, position, c, code)
    ensures b == c
  {
    if code == STRUCT {
      NumberUnique(binary, position + 1, U16_MAX, b.token.handle, c.token.handle);
    } else if code == TYPE_PARAMETER {
      NumberUnique(binary, position + 1, U16_MAX, b.token.index, c.token.index);
    } else if code == STRUCT_INST {
      NumberUnique(binary, position + 1, TABLE_INDEX_MAX, b.handle, c.handle);
      NumberUnique(binary, position + 1 + |Encode(b.handle)|, TYPE_PARAMETER_COUNT_MAX, b.arity, c.arity);
    }
  }

  /** At most one node is at a position. */
  lemma NodeUnique(binary: seq<Byte>, position: nat, b: TypeBuilder, c: TypeBuilder)
    requires NodeAt(binary, position, b) && NodeAt(binary, position, c)
    ensures b == c
  {
    NodeFound(binary, position, b);
    NodeFound(binary, position, c);
    ShapeUnique(binary, position, b, c, binary[position]);
  }

  lemma NoneShaped(binary: seq<Byte>, position: nat)
    requires position < |binary| && forall b :: !NodeShape(binary, position, b, binary[position])
    ensures forall b :: !NodeAt(binary, position, b)
  {
    forall b ensures !NodeAt(binary, position, b) {
      if NodeAt(binary, position, b) {
        NodeFound(binary, position, b);
      }
    }
  }

  lemma ShapedIsNode(binary: seq<Byte>, position: nat, b: TypeBuilder, code: Byte)
    requires NodeShape(binary, position, b, code)
    ensures NodeAt(binary, position, b)
  {
    if code == STRUCT_INST {
      InstantiationBytes(binary, position + 1, b.handle, b.arity);
    } else if code != STRUCT && code != TYPE_PARAMETER {
      PlainNodeBytes(code);
    }
    NodeSplit(binary, position, b);
  }

  /** Reads the next node. */
  method ReadNext(binary: seq<Byte>, position: nat) returns (r: Result<(TypeBuilder, nat), Error>)
    requires position <= |binary|
    ensures r.Ok? ==> NodeAt(binary, position, r.value.0) && r.value.1 == position + |NodeBytes(r.value.0)|
    ensures r.Err? ==> forall b :: !NodeAt(binary, position, b)
  {
    if position == |binary| {
      return Err(Malformed);
    }
    var b;
    match binary[position] {
      case 0x8 => {
        var n := ReadUleb(binary, position + 1, TABLE_INDEX_MAX, U16_MAX);
        if n.Err? {
          NoneShaped(binary, position);
          return Err(n.error);
        }
        b := Saturated(Struct(n.value.0));
      }
      case 0x9 => {
        var n := ReadUleb(binary, position + 1, TYPE_PARAMETER_INDEX_MAX, U16_MAX);
        if n.Err? {
          NoneShaped(binary, position);
          return Err(n.error);
        }
        b := Saturated(TypeParameter(n.value.0));
      }
      case 0xB => {
        var n := ReadInstantiation(binary, position + 1);
        if n.Err? {
          NoneShaped(binary, position);
          return Err(n.error);
        }
        b := PartialStruct(n.value.0, n.value.1, []);
      }
      case code => {
        if PlainNode(code).None? {
          NoneShaped(binary, position);
          return Err(Malformed);
        }
        b := PlainNode(code).value;
      }
    }
    ShapedIsNode(binary, position, b, binary[position]);
    r := Ok((b, position + |NodeBytes(b)|));
  }

  // ---------------------------------------------------------------------------------------------
  // The loader
  // ---------------------------------------------------------------------------------------------

  ghost function NodeReader(binary: seq<Byte>): Reader<TypeBuilder> {
    (p: nat, b: TypeBuilder, q: nat) => NodeAt(binary, p, b) && q == p + |NodeBytes(b)|
  }

  lemma NodeReaderSound(binary: seq<Byte>)
    ensures Sound(NodeReader(binary), |binary|)
  {
    var item := NodeReader(binary);
    forall p: nat, b, q: nat, c, r: nat | item(p, b, q) && item(p, c, r) ensures b == c && q == r {
      NodeUnique(binary, p, b, c);
    }
  }

  /** Reads the next of the nodes. */
  method ReadNode(binary: seq<Byte>, next: nat, ghost positions: seq<nat>, ghost nodes: seq<TypeBuilder>, ghost k: nat)
    returns (r: Result<(TypeBuilder, nat), Error>)
    requires All(NodeReader(binary), positions, nodes) && positions[0] <= |binary| && k <= |nodes|
      && next == positions[k]
    ensures r.Err? ==> k == |nodes|
    ensures r.Ok? ==> k < |nodes| && r.value.0 == nodes[k] && next < r.value.1 == positions[k + 1] <= |binary|
  {
    ghost var item := NodeReader(binary);
    NodeReaderSound(binary);
    PositionsBounded(item, |binary|, positions, nodes, k);
    assert k < |nodes| ==> item(positions[k], nodes[k], positions[k + 1]);
    r := ReadNext(binary, next);
    if r.Ok? {
      assert item(positions[k], r.value.0, r.value.1);
      PositionsBounded(item, |binary|, positions, nodes, k + 1);
    }
  }

  /** What the loader will return, given the partial types on its stack and the nodes read so far. */
  ghost predicate Loading(parsed: Parsed, nodes: seq<TypeBuilder>, k: nat, stack: seq<TypeBuilder>) {
    && k <= |nodes| && stack != [] && Waiting(stack[..|stack| - 1])
    && parsed == if |stack| > DEPTH_MAX then None else Resume(stack[..|stack| - 1], stack[|stack| - 1], nodes, k)
  }

  lemma LoadingStart(nodes: seq<TypeBuilder>)
    requires nodes != []
    ensures Loading(Parse(nodes, 0, 1), nodes, 1, [nodes[0]])
  {
    assert [nodes[0]][..0] == [];
  }

  lemma LoadingPop(parsed: Parsed, nodes: seq<TypeBuilder>, k: nat, below: seq<TypeBuilder>, token: SignatureToken)
    requires Loading(parsed, nodes, k, below + [Saturated(token)]) && |below| < DEPTH_MAX
    ensures below == [] ==> parsed == Some((token, k))
    ensures below != [] ==> !below[|below| - 1].Saturated?
    ensures below != [] ==> Loading(parsed, nodes, k, below[..|below| - 1] + [Apply(below[|below| - 1], token)])
  {
    assert (below + [Saturated(token)])[..|below|] == below;
    ResumePop(below, token, nodes, k);
    if below != [] {
      var stack := below[..|below| - 1] + [Apply(below[|below| - 1], token)];
      assert stack[..|stack| - 1] == below[..|below| - 1];
    }
  }

  lemma LoadingPush(parsed: Parsed, nodes: seq<TypeBuilder>, k: nat, stack: seq<TypeBuilder>)
    requires Loading(parsed, nodes, k, stack) && |stack| <= DEPTH_MAX && !stack[|stack| - 1].Saturated?
    ensures if k == |nodes| then parsed == None else Loading(parsed, nodes, k + 1, stack + [nodes[k]])
  {
    var below, top := stack[..|stack| - 1], stack[|stack| - 1];
    assert stack == below + [top];
    ResumePush(below, top, nodes, k);
    if k < |nodes| {
      assert (stack + [nodes[k]])[..|stack|] == stack;
    }
  }

  /** Loads a type: what recursive descent reads, without recursion. */
  method LoadNodes(binary: seq<Byte>, position: nat, ghost positions: seq<nat>, ghost nodes: seq<TypeBuilder>)
    returns (r: Result<(SignatureToken, nat), Error>, ghost k: nat)
    requires All(NodeReader(binary), positions, nodes) && position == positions[0] <= |binary|
    ensures r.Err? ==> Parse(nodes, 0, 1) == None
    ensures r.Ok? ==> Parse(nodes, 0, 1) == Some((r.value.0, k)) && k <= |nodes| && r.value.1 == positions[k]
  {
    k := 0;
    var first :- ReadNode(binary, position, positions, nodes, 0);
    k := 1;
    LoadingStart(nodes);
    if first.0.Saturated? {
      LoadingPop(Parse(nodes, 0, 1), nodes, k, [], first.0.token);
      return Ok((first.0.token, first.1)), k;
    }
    r, k := RunStack(binary, [first.0], first.1, positions, nodes, Parse(nodes, 0, 1));
  }

  /** Runs the stack of partial types until there is one type. */
  method RunStack(
    binary: seq<Byte>, start: seq<TypeBuilder>, position: nat, ghost positions: seq<nat>, ghost nodes: seq<TypeBuilder>,
    ghost parsed: Parsed)
    returns (r: Result<(SignatureToken, nat), Error>, ghost k: nat)
    requires All(NodeReader(binary), positions, nodes) && positions[0] <= |binary|
    requires 1 <= |nodes| && position == positions[1] <= |binary| && Loading(parsed, nodes, 1, start)
    ensures r.Err? ==> parsed == None
    ensures r.Ok? ==> parsed == Some((r.value.0, k)) && k <= |nodes| && r.value.1 == positions[k]
  {
    k := 1;
    var stack, next := start, position;
    while true
      invariant k <= |nodes| && next == positions[k] <= |binary| && Loading(parsed, nodes, k, stack)
      decreases |binary| - next, |stack|
    {
      if |stack| > DEPTH_MAX {
        return Err(Malformed), k;
      }
      var top, below := stack[|stack| - 1], stack[..|stack| - 1];
      if top.Saturated? {
        assert stack == below + [Saturated(top.token)];
        LoadingPop(parsed, nodes, k, below, top.token);
        if below == [] {
          return Ok((top.token, next)), k;
        }
        stack := below[..|below| - 1] + [Apply(below[|below| - 1], top.token)];
      } else {
        LoadingPush(parsed, nodes, k, stack);
        var node :- ReadNode(binary, next, positions, nodes, k);
        stack, next, k := stack + [node.0], node.1, k + 1;
      }
    }
  }

  // ---------------------------------------------------------------------------------------------
  // Round trips
  // ---------------------------------------------------------------------------------------------

  ghost predicate AllReadable(nodes: seq<TypeBuilder>) {
    forall i | 0 <= i < |nodes| :: Readable(nodes[i])
  }

  /** Types that the format can carry, nesting aside. */
  ghost predicate Encodable(t: SignatureToken) {
    NoEmptyInstantiation(t) && AllReadable(Flatten(t))
  }

  /** What the source's type of indices promises. */
  predicate IndexOk(b: TypeBuilder) {
    b.Saturated? && b.token.TypeParameter? ==> b.token.index <= U16_MAX
  }

  ghost predicate IndicesOk(t: SignatureToken) {
    forall i | 0 <= i < |Flatten(t)| :: IndexOk(Flatten(t)[i])
  }

  /** Of the types that are written, the format can carry those in which every instantiation has arguments. */
  lemma EncodableIff(t: SignatureToken)
    requires NodesOk(t) && IndicesOk(t)
    ensures Encodable(t) <==> NoEmptyInstantiation(t)
  {
    FlattenIsNodes(t);
    forall i | 0 <= i < |Flatten(t)| ensures Readable(Flatten(t)[i]) {
      assert NodeOk(Flatten(t)[i]) && IndexOk(Flatten(t)[i]);
    }
  }

  /** Printed nodes follow each other. */
  lemma {:induction false} PrintedFollow(binary: seq<Byte>, position: nat, nodes: seq<TypeBuilder>)
    returns (positions: seq<nat>)
    requires AllReadable(nodes) && At(binary, position, BytesOf(nodes))
    ensures Follow(NodeReader(binary), positions, nodes)
    ensures positions[0] == position && positions[|nodes|] == position + |BytesOf(nodes)|
    decreases |nodes|
  {
    if nodes == [] {
      positions := [position];
    } else {
      var b, rest := nodes[0], nodes[1..];
      AtSplit(binary, position, NodeBytes(b), BytesOf(rest));
      assert nodes == [b] + rest;
      positions := PrintedFollow(binary, position + |NodeBytes(b)|, rest);
      PrependItem(NodeReader(binary), position, b, positions, rest);
      positions := [position] + positions;
    }
  }

  /** The nodes of a printed type are the first that are read. */
  lemma PrintedNodes(binary: seq<Byte>, positions: seq<nat>, nodes: seq<TypeBuilder>, part: seq<TypeBuilder>)
    requires All(NodeReader(binary), positions, nodes) && AllReadable(part) && At(binary, positions[0], BytesOf(part))
    ensures At(nodes, 0, part) && positions[|part|] == positions[0] + |BytesOf(part)|
  {
    var k := |part|;
    var ps := PrintedFollow(binary, positions[0], part);
    NodeReaderSound(binary);
    FollowFirst(NodeReader(binary), |binary|, positions, nodes, ps, part, k);
    assert part[..k] == part && forall i | 0 <= i < k :: nodes[i] == nodes[..k][i];
  }

  /** A printed type is the first that is read. */
  lemma PrintedIsParsed(
    binary: seq<Byte>, positions: seq<nat>, nodes: seq<TypeBuilder>, t: SignatureToken)
    requires All(NodeReader(binary), positions, nodes) && Encodable(t) && At(binary, positions[0], Print(t))
    ensures Parse(nodes, 0, 1) == if Depth(t) <= DEPTH_MAX then Some((t, |Flatten(t)|)) else None
    ensures |Flatten(t)| <= |nodes| && positions[|Flatten(t)|] == positions[0] + |Print(t)|
  {
    PrintedNodes(binary, positions, nodes, Flatten(t));
    FlattenedIsParsed(t, nodes, 0, 1);
  }

  /** The nodes of the type come next, except that an arity of one may be given as zero. */
  ghost predicate SpelledAt(binary: seq<Byte>, position: nat, t: SignatureToken) {
    exists nodes :: SameNodes(nodes, Flatten(t)) && At(binary, position, BytesOf(nodes))
  }

  ghost predicate SameNodes(a: seq<TypeBuilder>, b: seq<TypeBuilder>) {
    |a| == |b| && forall i | 0 <= i < |a| :: NodeAlike(a[i], b[i])
  }

  lemma NodeSameLength(a: TypeBuilder, b: TypeBuilder)
    requires Readable(a) && NodeAlike(a, b)
    ensures |NodeBytes(a)| == |NodeBytes(b)| && Readable(b)
  {
    if a != b {
      assert Encode(0) == [0] && Encode(1) == [1];
    }
  }

  /** Nodes that are alike take up the same space. */
  lemma {:induction false} SameLength(a: seq<TypeBuilder>, b: seq<TypeBuilder>)
    requires SameNodes(a, b) && AllReadable(a)
    ensures |BytesOf(a)| == |BytesOf(b)|
    decreases |a|
  {
    if a != [] {
      NodeSameLength(a[0], b[0]);
      var x, y := a[1..], b[1..];
      assert forall i | 0 <= i < |x| :: x[i] == a[i + 1] && y[i] == b[i + 1];
      assert SameNodes(x, y) && AllReadable(x);
      SameLength(x, y);
    }
  }

  lemma SameReadable(a: seq<TypeBuilder>, b: seq<TypeBuilder>)
    requires SameNodes(a, b) && AllReadable(a)
    ensures AllReadable(b)
  {
    forall i | 0 <= i < |b| ensures Readable(b[i]) {
      NodeSameLength(a[i], b[i]);
    }
  }

  lemma ReadsNode(binary: seq<Byte>, positions: seq<nat>, nodes: seq<TypeBuilder>, n: nat)
    requires Follow(NodeReader(binary), positions, nodes) && n < |nodes|
    ensures NodeAt(binary, positions[n], nodes[n]) && positions[n + 1] == positions[n] + |NodeBytes(nodes[n])|
  {
    assert NodeReader(binary)(positions[n], nodes[n], positions[n + 1]);
  }

  /** Nodes that follow each other are printed one behind the other. */
  lemma {:induction false} FollowIsPrinted(binary: seq<Byte>, positions: seq<nat>, nodes: seq<TypeBuilder>, k: nat)
    requires Follow(NodeReader(binary), positions, nodes) && k <= |nodes| && positions[0] <= |binary|
    ensures positions[k] == positions[0] + |BytesOf(nodes[..k])|
    ensures At(binary, positions[0], BytesOf(nodes[..k])) && AllReadable(nodes[..k])
    decreases k
  {
    if k > 0 {
      var n := k - 1;
      FollowIsPrinted(binary, positions, nodes, n);
      ReadsNode(binary, positions, nodes, n);
      assert nodes[..k] == nodes[..n] + [nodes[n]];
      BytesOfSnoc(nodes[..n], nodes[n]);
      AtSplit(binary, positions[0], BytesOf(nodes[..n]), NodeBytes(nodes[n]));
    }
  }

  /** What is read is a type that can be printed, and what was read are its nodes, but for arities of zero. */
  lemma ParsedIsPrinted(binary: seq<Byte>, positions: seq<nat>, nodes: seq<TypeBuilder>, t: SignatureToken, k: nat)
    requires All(NodeReader(binary), positions, nodes) && positions[0] <= |binary| && k <= |nodes|
    requires Parse(nodes, 0, 1) == Some((t, k))
    ensures WasPrinted(binary, positions[0], t, positions[k])
  {
    forall i | 0 <= i < |nodes| ensures IsNode(nodes[i]) {
      assert NodeReader(binary)(positions[i], nodes[i], positions[i + 1]);
    }
    ParsedIsFlattened(nodes, 0, 1);
    FollowIsPrinted(binary, positions, nodes, k);
    var read := nodes[..k];
    assert forall i | 0 <= i < k :: read[i] == nodes[i] && NodeAlike(nodes[i], Flatten(t)[i - 0]);
    assert SameNodes(read, Flatten(t));
    SameLength(read, Flatten(t));
    SameReadable(read, Flatten(t));
  }

  /** What the loader gives back. */
  ghost predicate GivesBack(
    positions: seq<nat>, nodes: seq<TypeBuilder>, r: Result<(SignatureToken, nat), Error>, k: nat)
    requires |positions| == |nodes| + 1
  {
    match r
    case Ok((t, next)) => k <= |nodes| && Parse(nodes, 0, 1) == Some((t, k)) && next == positions[k]
    case Err(_) => Parse(nodes, 0, 1) == None
  }

  /**
   A printed type comes back, whatever follows it, unless it is nested too deeply; and loading stops right behind it.
   */
  ghost predicate PrintedComesBack(binary: seq<Byte>, position: nat, r: Result<(SignatureToken, nat), Error>) {
    forall t, next | PrintedAt(binary, position, t, next) :: ComesBack(t, next, r)
  }

  ghost predicate PrintedAt(binary: seq<Byte>, position: nat, t: SignatureToken, next: nat) {
    Encodable(t) && At(binary, position, Print(t)) && next == position + |Print(t)|
  }

  ghost predicate ComesBack(t: SignatureToken, next: nat, r: Result<(SignatureToken, nat), Error>) {
    if Depth(t) <= DEPTH_MAX then r == Ok((t, next)) else r.Err?
  }

  /** What is loaded was printed, except that an arity of one may be given as zero. */
  ghost predicate WasPrinted(binary: seq<Byte>, position: nat, t: SignatureToken, next: nat) {
    && Encodable(t) && Depth(t) <= DEPTH_MAX && next == position + |Print(t)| <= |binary|
    && SpelledAt(binary, position, t)
  }

  lemma BackAsParsed(
    positions: seq<nat>, nodes: seq<TypeBuilder>, r: Result<(SignatureToken, nat), Error>, k: nat, t: SignatureToken,
    n: nat, next: nat)
    requires |positions| == |nodes| + 1 && n <= |nodes| && GivesBack(positions, nodes, r, k)
    requires Parse(nodes, 0, 1) == if Depth(t) <= DEPTH_MAX then Some((t, n)) else None
    requires positions[n] == next
    ensures ComesBack(t, next, r)
  {
  }

  lemma OneComesBack(
    binary: seq<Byte>, positions: seq<nat>, nodes: seq<TypeBuilder>, r: Result<(SignatureToken, nat), Error>, k: nat,
    t: SignatureToken, next: nat)
    requires All(NodeReader(binary), positions, nodes) && GivesBack(positions, nodes, r, k)
    requires PrintedAt(binary, positions[0], t, next)
    ensures ComesBack(t, next, r)
  {
    PrintedIsParsed(binary, positions, nodes, t);
    BackAsParsed(positions, nodes, r, k, t, |Flatten(t)|, next);
  }

  lemma AllComeBack(
    binary: seq<Byte>, positions: seq<nat>, nodes: seq<TypeBuilder>, r: Result<(SignatureToken, nat), Error>, k: nat)
    requires All(NodeReader(binary), positions, nodes) && GivesBack(positions, nodes, r, k)
    ensures PrintedComesBack(binary, positions[0], r)
  {
    forall t, next | PrintedAt(binary, positions[0], t, next) ensures ComesBack(t, next, r) {
      OneComesBack(binary, positions, nodes, r, k, t, next);
    }
  }

  /** Loads a type. */
  method LoadToken(binary: seq<Byte>, position: nat) returns (r: Result<(SignatureToken, nat), Error>)
    requires position <= |binary|
    ensures PrintedComesBack(binary, position, r)
    ensures r.Ok? ==> WasPrinted(binary, position, r.value.0, r.value.1)
  {
    NodeReaderSound(binary);
    ghost var positions, nodes := AllExist(NodeReader(binary), |binary|, position);
    ghost var k;
    r, k := LoadNodes(binary, position, positions, nodes);
    AllComeBack(binary, positions, nodes, r, k);
    if r.Ok? {
      ParsedIsPrinted(binary, positions, nodes, r.value.0, k);
    }
  }

  /** A type that is written, and does not come back. */
  lemma EmptyIsWritten(t: SignatureToken)
    requires t == StructInstantiation(0, [])
    ensures Depth(t) <= DEPTH_MAX && NodesOk(t) && IndicesOk(t) && !NoEmptyInstantiation(t)
  {
    assert Children(t) == [] && DepthAll([]) == 0;
    assert FlattenAll([]) == [] && Flatten(t) == [PartialStruct(0, 0, [])];
  }

  /**
   Writes a type and reads it again. The type comes back exactly if it is within the limits of the writer and every
   instantiation in it has arguments.
   */
  method RoundTrip(t: SignatureToken, trailer: seq<Byte>) returns (r: Result<(SignatureToken, nat), Error>)
    requires IndicesOk(t)
    ensures r.Ok? && r.value.0 == t <==> Depth(t) <= DEPTH_MAX && NodesOk(t) && NoEmptyInstantiation(t)
  {
    var binary :- SerializeToken([], t);
    EncodableIff(t);
    assert Encodable(t) ==> PrintedAt(binary + trailer, 0, t, |Print(t)|);
    r := LoadToken(binary + trailer, 0);
  }
}
