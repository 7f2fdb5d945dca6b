/** Abilities and the sets of them, as bits of a byte. */
module Abilities {
  import opened Wrappers

  /** What values of a type may be used for. */
  datatype Ability = Copy | Drop | Store | Key

  /** A set of abilities: one bit for each. */
  type AbilitySet = s: bv8 | s & 0xF0 == 0 witness 0

  const EMPTY: AbilitySet := 0
  const PRIMITIVES: AbilitySet := 0x7
  const REFERENCES: AbilitySet := 0x3
  const SIGNER: AbilitySet := 0x2
  const VECTOR: AbilitySet := 0x7
  const ALL: AbilitySet := 0xF

  function Bit(a: Ability): AbilitySet {
    match a
    case Copy => 0x1
    case Drop => 0x2
    case Store => 0x4
    case Key => 0x8
  }

  predicate HasAbility(s: AbilitySet, a: Ability) {
    Bit(a) & s == Bit(a)
  }

  function Intersect(s: AbilitySet, t: AbilitySet): AbilitySet {
    s & t
  }

  function Union(s: AbilitySet, t: AbilitySet): AbilitySet {
    s | t
  }

  predicate IsSubset(s: AbilitySet, t: AbilitySet) {
    s & t == s
  }

  lemma IntersectHas(s: AbilitySet, t: AbilitySet, a: Ability)
    ensures HasAbility(Intersect(s, t), a) <==> HasAbility(s, a) && HasAbility(t, a)
  {
  }

  lemma UnionHas(s: AbilitySet, t: AbilitySet, a: Ability)
    ensures HasAbility(Union(s, t), a) <==> HasAbility(s, a) || HasAbility(t, a)
  {
  }

  lemma SubsetHas(s: AbilitySet, t: AbilitySet, a: Ability)
    requires IsSubset(s, t) && HasAbility(s, a)
    ensures HasAbility(t, a)
  {
  }

  /** The bit test for a subset holds exactly if every ability of the one set is in the other. */
  lemma SubsetIff(s: AbilitySet, t: AbilitySet)
    ensures IsSubset(s, t) <==> forall a | HasAbility(s, a) :: HasAbility(t, a)
  {
    if forall a | HasAbility(s, a) :: HasAbility(t, a) {
      assert HasAbility(s, Copy) ==> HasAbility(t, Copy);
      assert HasAbility(s, Drop) ==> HasAbility(t, Drop);
      assert HasAbility(s, Store) ==> HasAbility(t, Store);
      assert HasAbility(s, Key) ==> HasAbility(t, Key);
    }
  }

  /** The ability that each field of a struct with ability `a` must have. */
  function Requires(a: Ability): Ability {
    match a
    case Copy => Copy
    case Drop => Drop
    case Store => Store
    case Key => Store
  }

  /** The abilities that require `a`: the inverse of `Requires`. */
  function RequiredBy(a: Ability): AbilitySet {
    match a
    case Copy => Bit(Copy)
    case Drop => Bit(Drop)
    case Store => Bit(Store) | Bit(Key)
    case Key => EMPTY
  }

  lemma RequiredByHas(a: Ability, x: Ability)
    ensures HasAbility(RequiredBy(a), x) <==> Requires(x) == a
  {
  }

  /** The abilities of a set one after the other, by ascending bit. */
  function Members(s: AbilitySet): seq<Ability> {
    (if HasAbility(s, Copy) then [Copy] else []) +
    (if HasAbility(s, Drop) then [Drop] else []) +
    (if HasAbility(s, Store) then [Store] else []) +
    (if HasAbility(s, Key) then [Key] else [])
  }

  lemma MembersHas(s: AbilitySet, a: Ability)
    ensures a in Members(s) <==> HasAbility(s, a)
  {
  }

  /** The union of the sets required by the abilities in the list. */
  function FoldRequiredBy(abilities: seq<Ability>): AbilitySet {
    if abilities == [] then EMPTY
    else Union(RequiredBy(abilities[0]), FoldRequiredBy(abilities[1..]))
  }

  lemma {:induction false} FoldRequiredByHas(abilities: seq<Ability>, x: Ability)
    ensures HasAbility(FoldRequiredBy(abilities), x) <==> Requires(x) in abilities
  {
    if abilities != [] {
      FoldRequiredByHas(abilities[1..], x);
      RequiredByHas(abilities[0], x);
      UnionHas(RequiredBy(abilities[0]), FoldRequiredBy(abilities[1..]), x);
    }
  }

  /** The union of what the abilities in the list require. */
  function FoldRequires(abilities: seq<Ability>): AbilitySet {
    if abilities == [] then EMPTY
    else Union(Bit(Requires(abilities[0])), FoldRequires(abilities[1..]))
  }

  lemma {:induction false} FoldRequiresHas(abilities: seq<Ability>, x: Ability)
    ensures HasAbility(FoldRequires(abilities), x) <==> exists a :: a in abilities && Requires(a) == x
  {
    if abilities != [] {
      FoldRequiresHas(abilities[1..], x);
      UnionHas(Bit(Requires(abilities[0])), FoldRequires(abilities[1..]), x);
      assert forall a :: a in abilities <==> a == abilities[0] || a in abilities[1..];
    }
  }

  /** Intersects `declared` with the set required by each argument that is not phantom, first argument first. */
  function FoldArguments(declared: AbilitySet, phantoms: seq<bool>, args: seq<AbilitySet>): AbilitySet
    requires |phantoms| == |args|
  {
    if args == [] then declared
    else
      var last := |args| - 1;
      var acc := FoldArguments(declared, phantoms[..last], args[..last]);
      if phantoms[last] then acc else Intersect(acc, FoldRequiredBy(Members(args[last])))
  }

  datatype AbilityError = LengthMismatch

  /** The abilities of a polymorphic type from its declared abilities and those of its arguments. */
  function PolymorphicAbilities(declared: AbilitySet, phantoms: seq<bool>, args: seq<AbilitySet>)
    : (r: Result<AbilitySet, AbilityError>)
    ensures r.Ok? <==> |phantoms| == |args|
  {
    if |phantoms| != |args| then Err(LengthMismatch)
    else Ok(FoldArguments(declared, phantoms, args))
  }

  /** The argument supports what ability `a` requires of it. */
  predicate Supports(phantoms: seq<bool>, args: seq<AbilitySet>, a: Ability, i: nat)
    requires i < |phantoms| == |args|
  {
    phantoms[i] || HasAbility(args[i], Requires(a))
  }

  /**
   The fold of required-by sets computes what is meant: a declared ability stays exactly if every non-phantom
   argument has what it requires.
   */
  lemma {:induction false} PolymorphicHas(declared: AbilitySet, phantoms: seq<bool>, args: seq<AbilitySet>, a: Ability)
    requires |phantoms| == |args|
    ensures HasAbility(PolymorphicAbilities(declared, phantoms, args).value, a) <==>
              HasAbility(declared, a) && forall i | 0 <= i < |args| :: Supports(phantoms, args, a, i)
  {
    if args != [] {
      var last := |args| - 1;
      var acc := FoldArguments(declared, phantoms[..last], args[..last]);
      PolymorphicHas(declared, phantoms[..last], args[..last], a);
      LastArgument(phantoms, args, a);
      MembersHas(args[last], Requires(a));
      FoldRequiredByHas(Members(args[last]), a);
      IntersectHas(acc, FoldRequiredBy(Members(args[last])), a);
    }
  }

  lemma LastArgument(phantoms: seq<bool>, args: seq<AbilitySet>, a: Ability)
    requires |phantoms| == |args| > 0
    ensures var last := |args| - 1;
            (forall i | 0 <= i < |args| :: Supports(phantoms, args, a, i)) <==>
            (&& (forall i | 0 <= i < last :: Supports(phantoms[..last], args[..last], a, i))
             && Supports(phantoms, args, a, last))
  {
    var last := |args| - 1;
    assert forall i | 0 <= i < last ::
      Supports(phantoms[..last], args[..last], a, i) <==> Supports(phantoms, args, a, i);
  }

  function One(s: AbilitySet, a: Ability, n: nat): nat {
    if HasAbility(s, a) then n else 0
  }

  /** The bits of a set as a number. */
  function IntoU8(s: AbilitySet): (n: nat)
    ensures n <= 0xF
  {
    One(s, Copy, 1) + One(s, Drop, 2) + One(s, Store, 4) + One(s, Key, 8)
  }

  /** The set with the given bits; there are no others. */
  function FromU8(n: nat): Option<AbilitySet> {
    if n > 0xF then None
    else
      Some((if n % 2 == 1 then Bit(Copy) else 0) | (if n / 2 % 2 == 1 then Bit(Drop) else 0)
           | (if n / 4 % 2 == 1 then Bit(Store) else 0) | (if n / 8 == 1 then Bit(Key) else 0))
  }

  lemma FromBits(s: AbilitySet)
    ensures FromU8(IntoU8(s)) == Some(s)
  {
  }

  lemma IntoBits(n: nat)
    requires n <= 0xF
    ensures IntoU8(FromU8(n).value) == n
  {
  }
}

/** Types and tables of compiled modules and scripts. */
module FileFormat {
  import opened Abilities
  import opened Bytecodes
  import opened Wrappers

  type Identifier = string
  type AccountAddress = seq<nat>

  datatype SignatureToken =
    | Bool
    | U8
    | U64
    | U128
    | Address
    | Signer
    | Vector(elem: SignatureToken)
    | Struct(handle: nat)
    | StructInstantiation(handle: nat, args: seq<SignatureToken>)
    | Reference(inner: SignatureToken)
    | MutableReference(inner: SignatureToken)
    | TypeParameter(index: nat)

  type Signature = seq<SignatureToken>

  datatype Visibility = Private | Public | Script | Friend

  /** The name of a published module. */
  datatype ModuleId = ModuleId(address: AccountAddress, name: Identifier)

  datatype ModuleHandle = ModuleHandle(address: nat, name: nat)

  datatype StructTypeParameter = StructTypeParameter(constraints: AbilitySet, isPhantom: bool)

  datatype StructHandle = StructHandle(
    mod: nat, name: nat, abilities: AbilitySet, typeParameters: seq<StructTypeParameter>)

  datatype FunctionHandle = FunctionHandle(
    mod: nat, name: nat, parameters: nat, return_: nat, typeParameters: seq<AbilitySet>)

  datatype FieldHandle = FieldHandle(owner: nat, field: nat)

  datatype StructDefInstantiation = StructDefInstantiation(def: nat, typeParameters: nat)

  datatype FunctionInstantiation = FunctionInstantiation(handle: nat, typeParameters: nat)

  datatype FieldInstantiation = FieldInstantiation(handle: nat, typeParameters: nat)

  datatype FieldDefinition = FieldDefinition(name: nat, signature: SignatureToken)

  datatype StructFieldInformation = Native | Declared(fields: seq<FieldDefinition>)

  datatype StructDefinition = StructDefinition(structHandle: nat, fieldInformation: StructFieldInformation)

  datatype CodeUnit = CodeUnit(locals: nat, code: seq<Bytecode>)

  datatype FunctionDefinition = FunctionDefinition(
    function_: nat, visibility: Visibility, acquires: seq<nat>, code: Option<CodeUnit>)

  datatype Constant = Constant(type_: SignatureToken, data: seq<nat>)

  datatype CompiledModule = CompiledModule(
    version: nat,
    selfHandle: nat,
    moduleHandles: seq<ModuleHandle>,
    structHandles: seq<StructHandle>,
    functionHandles: seq<FunctionHandle>,
    fieldHandles: seq<FieldHandle>,
    friendDecls: seq<ModuleHandle>,
    structInstantiations: seq<StructDefInstantiation>,
    functionInstantiations: seq<FunctionInstantiation>,
    fieldInstantiations: seq<FieldInstantiation>,
    signatures: seq<Signature>,
    identifiers: seq<Identifier>,
    addressIdentifiers: seq<AccountAddress>,
    constantPool: seq<Constant>,
    structDefs: seq<StructDefinition>,
    functionDefs: seq<FunctionDefinition>)

  datatype CompiledScript = CompiledScript(
    version: nat,
    moduleHandles: seq<ModuleHandle>,
    structHandles: seq<StructHandle>,
    functionHandles: seq<FunctionHandle>,
    functionInstantiations: seq<FunctionInstantiation>,
    signatures: seq<Signature>,
    identifiers: seq<Identifier>,
    addressIdentifiers: seq<AccountAddress>,
    constantPool: seq<Constant>,
    typeParameters: seq<AbilitySet>,
    parameters: nat,
    code: CodeUnit)
}
