/** The binary form as a stream of numbers, types and bytes, and how a single one of them is written and read. */
module BinaryItems {
  import opened Wrappers
  import opened FileFormat
  import opened Slices
  import opened TypeTrees
  import opened Uleb128
  import opened SignatureTokens
  import opened TokenLoader

  /** What is written, one after the other: ULEB128 numbers, little-endian words of a fixed size, types, plain bytes. */
  datatype Items =
    | End
    | Num(value: nat, max: U64, rest: Items)
    | Word(value: nat, size: nat, rest: Items)
    | Type(token: SignatureToken, rest: Items)
    | Blob(bytes: seq<Byte>, rest: Items)

  function LittleEndian(x: nat, size: nat): seq<Byte> {
    if size == 0 then [] else [x % 0x100] + LittleEndian(x / 0x100, size - 1)
  }

  function FromLittleEndian(bytes: seq<Byte>): nat {
    if bytes == [] then 0 else bytes[0] + 0x100 * FromLittleEndian(bytes[1..])
  }

  function Pow256(size: nat): nat {
    if size == 0 then 1 else 0x100 * Pow256(size - 1)
  }

  lemma {:induction false} WordRoundTrip(x: nat, size: nat)
    ensures |LittleEndian(x, size)| == size
    ensures x < Pow256(size) ==> FromLittleEndian(LittleEndian(x, size)) == x
    decreases size
  {
    if size > 0 {
      WordRoundTrip(x / 0x100, size - 1);
      assert LittleEndian(x, size)[1..] == LittleEndian(x / 0x100, size - 1);
    }
  }

  function Bytes(items: Items): seq<Byte> {
    match items
    case End => []
    case Num(value, _, rest) => Encode(value) + Bytes(rest)
    case Word(value, size, rest) => LittleEndian(value, size) + Bytes(rest)
    case Type(token, rest) => Print(token) + Bytes(rest)
    case Blob(bytes, rest) => bytes + Bytes(rest)
  }

  /** Everything passes the checks of the writer. */
  ghost predicate Fits(items: Items) {
    match items
    case End => true
    case Num(value, max, rest) => value <= max && Fits(rest)
    case Type(token, rest) => Depth(token) <= DEPTH_MAX && NodesOk(token) && Fits(rest)
    case _ => Fits(items.rest)
  }

  /** Every word has its size, and there is no empty instantiation. */
  ghost predicate Regular(items: Items) {
    match items
    case End => true
    case Word(value, size, rest) => value < Pow256(size) && Regular(rest)
    case Type(token, rest) => Encodable(token) && Regular(rest)
    case _ => Regular(items.rest)
  }

  /** Every word and every index has its size. */
  ghost predicate Sized(items: Items) {
    match items
    case End => true
    case Word(value, size, rest) => value < Pow256(size) && Sized(rest)
    case Type(token, rest) => IndicesOk(token) && Sized(rest)
    case _ => Sized(items.rest)
  }

  /** Every instantiation has arguments. */
  ghost predicate Filled(items: Items) {
    match items
    case End => true
    case Type(token, rest) => NoEmptyInstantiation(token) && Filled(rest)
    case _ => Filled(items.rest)
  }

  lemma {:induction false} RegularIff(items: Items)
    requires Fits(items) && Sized(items)
    ensures Regular(items) <==> Filled(items)
    decreases items
  {
    match items
    case End =>
    case Type(token, rest) =>
      EncodableIff(token);
      RegularIff(rest);
    case _ => RegularIff(items.rest);
  }

  // ---------------------------------------------------------------------------------------------
  // Parts
  // ---------------------------------------------------------------------------------------------

  /** The items can be written and read again. */
  ghost predicate Legal(items: Items) {
    Fits(items) && Sized(items) && Filled(items)
  }

  /** The items are legal and take up `n` bytes. */
  ghost predicate Takes(items: Items, n: int) {
    Legal(items) && |Bytes(items)| == n
  }

  ghost function Append(items: Items, rest: Items): Items {
    match items
    case End => rest
    case Num(value, max, more) => Num(value, max, Append(more, rest))
    case Word(value, size, more) => Word(value, size, Append(more, rest))
    case Type(token, more) => Type(token, Append(more, rest))
    case Blob(bytes, more) => Blob(bytes, Append(more, rest))
  }

  lemma {:induction false} AppendTakes(a: Items, b: Items)
    ensures Legal(Append(a, b)) <==> Legal(a) && Legal(b)
    ensures |Bytes(Append(a, b))| == |Bytes(a)| + |Bytes(b)|
    decreases a
  {
    if !a.End? {
      AppendTakes(a.rest, b);
    }
  }

  /** One part, then another. */
  lemma Then(first: Items, second: Items, both: Items, m: int, n: int)
    requires Takes(first, m) && Takes(second, n) && both == Append(first, second)
    ensures Takes(both, m + n)
  {
    AppendTakes(first, second);
  }

  lemma NumTakes(x: nat, max: U64)
    requires x <= max
    ensures Takes(Num(x, max, End), |Encode(x)|)
  {
  }

  lemma WordTakes(x: nat, size: nat)
    requires x < Pow256(size)
    ensures Takes(Word(x, size, End), size)
  {
    WordRoundTrip(x, size);
  }

  /** The writer accepts the type, and every instantiation in it has arguments. */
  ghost predicate Writable(t: SignatureToken) {
    Depth(t) <= DEPTH_MAX && NodesOk(t) && IndicesOk(t) && NoEmptyInstantiation(t)
  }

  lemma NodesAreOk(t: SignatureToken)
    requires Encodable(t)
    ensures NodesOk(t) && IndicesOk(t)
  {
    forall i | 0 <= i < |Flatten(t)| ensures NodeOk(Flatten(t)[i]) && IndexOk(Flatten(t)[i]) {
      assert Readable(Flatten(t)[i]);
    }
  }

  lemma PrintIsLong(t: SignatureToken)
    ensures |Print(t)| > 0
  {
  }

  lemma TypeTakes(t: SignatureToken)
    requires Writable(t)
    ensures Takes(Type(t, End), |Print(t)|)
  {
  }

  lemma {:induction false} WordIsSized(bytes: seq<Byte>)
    ensures FromLittleEndian(bytes) < Pow256(|bytes|)
    decreases |bytes|
  {
    if bytes != [] {
      WordIsSized(bytes[1..]);
    }
  }

  // ---------------------------------------------------------------------------------------------
  // Writing
  // ---------------------------------------------------------------------------------------------

  /** The first of the items were written behind `binary`, up to `rest`; or there was one that does not fit. */
  ghost predicate Wrote(binary: seq<Byte>, items: Items, rest: Items, r: Result<seq<Byte>, Error>) {
    if r.Err? then !Fits(items)
    else (Fits(items) <==> Fits(rest)) && binary + Bytes(items) == r.value + Bytes(rest)
  }

  method WriteNum(binary: seq<Byte>, value: nat, max: U64, ghost rest: Items) returns (r: Result<seq<Byte>, Error>)
    ensures Wrote(binary, Num(value, max, rest), rest, r)
  {
    r := WriteUleb(binary, value, max);
    Associate(binary, Encode(value), Bytes(rest));
  }

  method WriteWord(binary: seq<Byte>, value: nat, size: nat, ghost rest: Items) returns (written: seq<Byte>)
    ensures Wrote(binary, Word(value, size, rest), rest, Ok(written))
  {
    written := binary + LittleEndian(value, size);
    Associate(binary, LittleEndian(value, size), Bytes(rest));
  }

  method WriteType(binary: seq<Byte>, token: SignatureToken, ghost rest: Items) returns (r: Result<seq<Byte>, Error>)
    ensures Wrote(binary, Type(token, rest), rest, r)
  {
    r := SerializeToken(binary, token);
    Associate(binary, Print(token), Bytes(rest));
  }

  method WriteBlob(binary: seq<Byte>, bytes: seq<Byte>, ghost rest: Items) returns (written: seq<Byte>)
    ensures Wrote(binary, Blob(bytes, rest), rest, Ok(written))
  {
    written := binary + bytes;
    Associate(binary, bytes, Bytes(rest));
  }

  // ---------------------------------------------------------------------------------------------
  // Reading
  // ---------------------------------------------------------------------------------------------

  /** The given bytes are the last of the binary, from the position on. */
  ghost predicate Left(binary: seq<Byte>, position: nat, bytes: seq<Byte>) {
    position + |bytes| == |binary| && At(binary, position, bytes)
  }

  /** The items are what is left of the binary. */
  ghost predicate Here(binary: seq<Byte>, position: nat, items: Items) {
    Fits(items) && Regular(items) && Left(binary, position, Bytes(items))
  }

  /** Reading moves on, and finds `x` if that is what comes next. */
  ghost predicate Loaded<X>(
    binary: seq<Byte>, position: nat, items: Items, x: X, rest: Items, r: Result<(X, nat), Error>)
  {
    && (r.Ok? ==> position < r.value.1 <= |binary|)
    && (Here(binary, position, items) ==> r.Ok? && r.value.0 == x && Here(binary, r.value.1, rest))
  }

  lemma Next(binary: seq<Byte>, position: nat, bytes: seq<Byte>, rest: seq<Byte>)
    requires Left(binary, position, bytes + rest)
    ensures At(binary, position, bytes) && Left(binary, position + |bytes|, rest)
  {
    AtSplit(binary, position, bytes, rest);
  }

  lemma Slice(binary: seq<Byte>, position: nat, bytes: seq<Byte>)
    requires At(binary, position, bytes)
    ensures binary[position..position + |bytes|] == bytes
  {
  }

  lemma NumIsNext(binary: seq<Byte>, position: nat, x: nat, max: U64, rest: Items)
    requires Here(binary, position, Num(x, max, rest))
    ensures At(binary, position, Encode(x)) && x <= max && Here(binary, position + |Encode(x)|, rest)
  {
    Next(binary, position, Encode(x), Bytes(rest));
  }

  lemma WordIsNext(binary: seq<Byte>, position: nat, x: nat, size: nat, rest: Items)
    requires Here(binary, position, Word(x, size, rest))
    ensures position + size <= |binary| && x == FromLittleEndian(binary[position..position + size])
    ensures Here(binary, position + size, rest)
  {
    WordRoundTrip(x, size);
    Next(binary, position, LittleEndian(x, size), Bytes(rest));
    Slice(binary, position, LittleEndian(x, size));
  }

  lemma BlobIsNext(binary: seq<Byte>, position: nat, bytes: seq<Byte>, rest: Items)
    requires Here(binary, position, Blob(bytes, rest))
    ensures position + |bytes| <= |binary| && bytes == binary[position..position + |bytes|]
    ensures Here(binary, position + |bytes|, rest)
  {
    Next(binary, position, bytes, Bytes(rest));
    Slice(binary, position, bytes);
  }

  method LoadNum(binary: seq<Byte>, position: nat, max: U64, ghost x: nat, ghost rest: Items)
    returns (r: Result<(nat, nat), Error>)
    requires position <= |binary|
    ensures r.Ok? ==> r.value.0 <= max && Takes(Num(r.value.0, max, End), r.value.1 - position)
    ensures Loaded(binary, position, Num(x, max, rest), x, rest, r)
  {
    r := ReadUleb(binary, position, max, max);
    if r.Ok? {
      NumTakes(r.value.0, max);
    }
    if Here(binary, position, Num(x, max, rest)) {
      NumIsNext(binary, position, x, max, rest);
      assert NumberAt(binary, position, max, x);
      NumberUnique(binary, position, max, x, r.value.0);
    }
  }

  method LoadWord(binary: seq<Byte>, position: nat, size: nat, ghost x: nat, ghost rest: Items)
    returns (r: Result<(nat, nat), Error>)
    requires position <= |binary| && size > 0
    ensures r.Ok? ==> position + size == r.value.1 <= |binary|
    ensures r.Ok? ==> r.value.0 < Pow256(size) && Takes(Word(r.value.0, size, End), size)
    ensures Loaded(binary, position, Word(x, size, rest), x, rest, r)
  {
    if Here(binary, position, Word(x, size, rest)) {
      WordIsNext(binary, position, x, size, rest);
    }
    if position + size > |binary| {
      return Err(Malformed);
    }
    var value := FromLittleEndian(binary[position..position + size]);
    WordIsSized(binary[position..position + size]);
    WordTakes(value, size);
    r := Ok((value, position + size));
  }

  lemma TypeIsNext(binary: seq<Byte>, position: nat, t: SignatureToken, rest: Items)
    requires Here(binary, position, Type(t, rest))
    ensures PrintedAt(binary, position, t, position + |Print(t)|) && Here(binary, position + |Print(t)|, rest)
    ensures Depth(t) <= DEPTH_MAX
  {
    Next(binary, position, Print(t), Bytes(rest));
  }

  lemma ExpectedType(
    binary: seq<Byte>, position: nat, t: SignatureToken, rest: Items, r: Result<(SignatureToken, nat), Error>)
    requires Here(binary, position, Type(t, rest)) && PrintedComesBack(binary, position, r)
    ensures r.Ok? && r.value.0 == t && Here(binary, r.value.1, rest)
  {
    TypeIsNext(binary, position, t, rest);
    assert ComesBack(t, position + |Print(t)|, r);
  }

  method LoadLegal(binary: seq<Byte>, position: nat) returns (r: Result<(SignatureToken, nat), Error>)
    requires position <= |binary|
    ensures PrintedComesBack(binary, position, r)
    ensures r.Ok? ==> position < r.value.1 <= |binary| && Takes(Type(r.value.0, End), r.value.1 - position)
  {
    r := LoadToken(binary, position);
    if r.Ok? {
      NodesAreOk(r.value.0);
      PrintIsLong(r.value.0);
      TypeTakes(r.value.0);
    }
  }

  method LoadType(binary: seq<Byte>, position: nat, ghost t: SignatureToken, ghost rest: Items)
    returns (r: Result<(SignatureToken, nat), Error>)
    requires position <= |binary|
    ensures Loaded(binary, position, Type(t, rest), t, rest, r)
    ensures r.Ok? ==> Takes(Type(r.value.0, End), r.value.1 - position)
  {
    r := LoadLegal(binary, position);
    if Here(binary, position, Type(t, rest)) {
      ExpectedType(binary, position, t, rest, r);
    }
  }

  method LoadBlob(binary: seq<Byte>, position: nat, size: nat, ghost bytes: seq<Byte>, ghost rest: Items)
    returns (r: Result<(seq<Byte>, nat), Error>)
    requires position <= |binary|
    ensures r.Ok? ==> position + size == r.value.1 <= |binary| && |r.value.0| == size
    ensures r.Ok? ==> Takes(Blob(r.value.0, End), size)
    ensures size == |bytes| && Here(binary, position, Blob(bytes, rest)) ==>
              r.Ok? && r.value.0 == bytes && Here(binary, r.value.1, rest)
  {
    if size == |bytes| && Here(binary, position, Blob(bytes, rest)) {
      BlobIsNext(binary, position, bytes, rest);
    }
    if position + size > |binary| {
      return Err(Malformed);
    }
    r := Ok((binary[position..position + size], position + size));
  }
}
