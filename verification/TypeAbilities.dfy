/** The abilities of types, and the checks that keep fields in line with them. */
module TypeAbilities {
  import opened Abilities
  import opened FileFormat
  import opened Wrappers

  // ---------------------------------------------------------------------------------------------
  // Types
  // ---------------------------------------------------------------------------------------------

  /** What the bounds checker guarantees of a type: known structs, matching arities, parameters below `n`. */
  predicate WellFormed(handles: seq<StructHandle>, ty: SignatureToken, n: nat) {
    match ty
    case Vector(elem) => WellFormed(handles, elem, n)
    case Reference(inner) => WellFormed(handles, inner, n)
    case MutableReference(inner) => WellFormed(handles, inner, n)
    case Struct(h) => h < |handles| && |handles[h].typeParameters| == 0
    case StructInstantiation(h, args) =>
      && h < |handles| && |handles[h].typeParameters| == |args|
      && forall arg | arg in args :: WellFormed(handles, arg, n)
    case TypeParameter(i) => i < n
    case _ => true
  }

  predicate AllWellFormed(handles: seq<StructHandle>, tys: seq<SignatureToken>, n: nat) {
    forall i | 0 <= i < |tys| :: WellFormed(handles, tys[i], n)
  }

  /** Replaces every type parameter by its argument; well-formed types have no parameter out of range. */
  function Instantiate(ty: SignatureToken, subst: seq<SignatureToken>): SignatureToken {
    match ty
    case Vector(elem) => Vector(Instantiate(elem, subst))
    case StructInstantiation(h, args) =>
      StructInstantiation(h, seq(|args|, i requires 0 <= i < |args| => Instantiate(args[i], subst)))
    case Reference(inner) => Reference(Instantiate(inner, subst))
    case MutableReference(inner) => MutableReference(Instantiate(inner, subst))
    case TypeParameter(i) => if i < |subst| then subst[i] else ty
    case _ => ty
  }

  function IsPhantom(params: seq<StructTypeParameter>): (r: seq<bool>)
    ensures |r| == |params| && forall i | 0 <= i < |r| :: r[i] == params[i].isPhantom
  {
    seq(|params|, i requires 0 <= i < |params| => params[i].isPhantom)
  }

  // ---------------------------------------------------------------------------------------------
  // Abilities of a type
  // ---------------------------------------------------------------------------------------------

  /** The abilities of a type whose parameters have the abilities in `constraints`. */
  function AbilitiesOf(handles: seq<StructHandle>, ty: SignatureToken, constraints: seq<AbilitySet>)
    : Result<AbilitySet, AbilityError>
    requires WellFormed(handles, ty, |constraints|)
    decreases ty, 0
  {
    match ty
    case Bool | U8 | U64 | U128 | Address => Ok(PRIMITIVES)
    case Reference(_) | MutableReference(_) => Ok(REFERENCES)
    case Signer => Ok(SIGNER)
    case TypeParameter(i) => Ok(constraints[i])
    case Vector(elem) =>
      var a :- AbilitiesOf(handles, elem, constraints);
      PolymorphicAbilities(VECTOR, [false], [a])
    case Struct(h) => Ok(handles[h].abilities)
    case StructInstantiation(h, args) =>
      var abilities :- AbilitiesOfAll(handles, args, constraints);
      PolymorphicAbilities(handles[h].abilities, IsPhantom(handles[h].typeParameters), abilities)
  }

  function AbilitiesOfAll(handles: seq<StructHandle>, tys: seq<SignatureToken>, constraints: seq<AbilitySet>)
    : Result<seq<AbilitySet>, AbilityError>
    requires forall ty | ty in tys :: WellFormed(handles, ty, |constraints|)
    decreases tys, 1
  {
    if tys == [] then Ok([])
    else
      var first :- AbilitiesOf(handles, tys[0], constraints);
      var rest :- AbilitiesOfAll(handles, tys[1..], constraints);
      Ok([first] + rest)
  }

  /** A well-formed type always has abilities. */
  lemma {:induction false} AbilitiesExist(handles: seq<StructHandle>, ty: SignatureToken, constraints: seq<AbilitySet>)
    requires WellFormed(handles, ty, |constraints|)
    ensures AbilitiesOf(handles, ty, constraints).Ok?
    decreases ty, 0
  {
    match ty
    case Vector(elem) => AbilitiesExist(handles, elem, constraints);
    case StructInstantiation(h, args) => AllAbilitiesExist(handles, args, constraints);
    case _ =>
  }

  lemma {:induction false} AllAbilitiesExist(
    handles: seq<StructHandle>, tys: seq<SignatureToken>, constraints: seq<AbilitySet>)
    requires forall ty | ty in tys :: WellFormed(handles, ty, |constraints|)
    ensures AbilitiesOfAll(handles, tys, constraints).Ok?
    ensures |AbilitiesOfAll(handles, tys, constraints).value| == |tys|
    ensures forall i | 0 <= i < |tys| ::
              AbilitiesOf(handles, tys[i], constraints) == Ok(AbilitiesOfAll(handles, tys, constraints).value[i])
    decreases tys, 1
  {
    if tys != [] {
      AbilitiesExist(handles, tys[0], constraints);
      AllAbilitiesExist(handles, tys[1..], constraints);
    }
  }

  /** Whether a well-formed type has an ability. */
  predicate Has(handles: seq<StructHandle>, ty: SignatureToken, constraints: seq<AbilitySet>, a: Ability)
    requires WellFormed(handles, ty, |constraints|)
  {
    AbilitiesExist(handles, ty, constraints);
    HasAbility(AbilitiesOf(handles, ty, constraints).value, a)
  }

  /** The abilities of a struct instantiation: the declared ones that every non-phantom argument supports. */
  lemma StructHas(
    handles: seq<StructHandle>, h: nat, args: seq<SignatureToken>, constraints: seq<AbilitySet>, a: Ability)
    requires WellFormed(handles, StructInstantiation(h, args), |constraints|)
    ensures Has(handles, StructInstantiation(h, args), constraints, a) <==>
              && HasAbility(handles[h].abilities, a)
              && forall i | 0 <= i < |args| && !handles[h].typeParameters[i].isPhantom ::
                   WellFormed(handles, args[i], |constraints|) && Has(handles, args[i], constraints, Requires(a))
  {
    AllAbilitiesExist(handles, args, constraints);
    var phantoms := IsPhantom(handles[h].typeParameters);
    var given := AbilitiesOfAll(handles, args, constraints).value;
    PolymorphicHas(handles[h].abilities, phantoms, given, a);
    assert forall i | 0 <= i < |args| :: Supports(phantoms, given, a, i) <==>
             (handles[h].typeParameters[i].isPhantom || Has(handles, args[i], constraints, Requires(a)));
  }

  lemma VectorHas(handles: seq<StructHandle>, elem: SignatureToken, constraints: seq<AbilitySet>, a: Ability)
    requires WellFormed(handles, Vector(elem), |constraints|)
    ensures Has(handles, Vector(elem), constraints, a) <==>
              HasAbility(VECTOR, a) && Has(handles, elem, constraints, Requires(a))
  {
    AbilitiesExist(handles, elem, constraints);
    var given := [AbilitiesOf(handles, elem, constraints).value];
    PolymorphicHas(VECTOR, [false], given, a);
    assert Supports([false], given, a, 0) <==> Has(handles, elem, constraints, Requires(a));
  }

  /** What the fields and elements of a type with the ability must be able to do. */
  function Inside(a: Ability): Ability {
    if a == Key then Store else a
  }

  /** Which types have an ability, spelled out: values without parts, vectors, structs and type parameters. */
  predicate MayDo(handles: seq<StructHandle>, ty: SignatureToken, constraints: seq<AbilitySet>, a: Ability)
    requires WellFormed(handles, ty, |constraints|)
  {
    match ty
    case Bool | U8 | U64 | U128 | Address => a == Copy || a == Drop || a == Store
    case Signer => a == Drop
    case Reference(_) | MutableReference(_) => a == Copy || a == Drop
    case TypeParameter(i) => HasAbility(constraints[i], a)
    case Vector(elem) => a != Key && MayDo(handles, elem, constraints, a)
    case Struct(h) => HasAbility(handles[h].abilities, a)
    case StructInstantiation(h, args) =>
      && HasAbility(handles[h].abilities, a)
      && forall i | 0 <= i < |args| && !handles[h].typeParameters[i].isPhantom ::
           assert args[i] in args;
           MayDo(handles, args[i], constraints, Inside(a))
  }

  /** The sets of abilities that are computed are exactly these. */
  lemma {:induction false} HasIff(
    handles: seq<StructHandle>, ty: SignatureToken, constraints: seq<AbilitySet>, a: Ability)
    requires WellFormed(handles, ty, |constraints|)
    ensures Has(handles, ty, constraints, a) <==> MayDo(handles, ty, constraints, a)
  {
    match ty
    case Vector(elem) =>
      VectorHas(handles, elem, constraints, a);
      HasIff(handles, elem, constraints, Requires(a));
    case StructInstantiation(h, args) =>
      StructHas(handles, h, args, constraints, a);
      forall i | 0 <= i < |args|
        ensures WellFormed(handles, args[i], |constraints|)
        ensures Has(handles, args[i], constraints, Requires(a)) <==> MayDo(handles, args[i], constraints, Inside(a))
      {
        assert args[i] in args;
        HasIff(handles, args[i], constraints, Requires(a));
      }
    case _ =>
  }

  // ---------------------------------------------------------------------------------------------
  // Substitution
  // ---------------------------------------------------------------------------------------------

  /** Instantiating a well-formed type gives a well-formed type. */
  lemma {:induction false} InstantiateWellFormed(
    handles: seq<StructHandle>, ty: SignatureToken, subst: seq<SignatureToken>, n: nat)
    requires WellFormed(handles, ty, |subst|) && AllWellFormed(handles, subst, n)
    ensures WellFormed(handles, Instantiate(ty, subst), n)
  {
    match ty
    case Vector(elem) => InstantiateWellFormed(handles, elem, subst, n);
    case Reference(inner) => InstantiateWellFormed(handles, inner, subst, n);
    case MutableReference(inner) => InstantiateWellFormed(handles, inner, subst, n);
    case StructInstantiation(h, args) =>
      forall i | 0 <= i < |args| ensures WellFormed(handles, Instantiate(args[i], subst), n) {
        assert args[i] in args;
        InstantiateWellFormed(handles, args[i], subst, n);
      }
    case _ =>
  }

  /** Abilities commute with substitution: they depend on a type argument only through its abilities. */
  lemma {:induction false} AbilitiesCommute(
    handles: seq<StructHandle>, ty: SignatureToken, subst: seq<SignatureToken>,
    constraints: seq<AbilitySet>, given: seq<AbilitySet>)
    requires WellFormed(handles, ty, |subst|) && AllWellFormed(handles, subst, |constraints|)
    requires |given| == |subst|
    requires forall i | 0 <= i < |subst| :: AbilitiesOf(handles, subst[i], constraints) == Ok(given[i])
    ensures WellFormed(handles, Instantiate(ty, subst), |constraints|)
    ensures AbilitiesOf(handles, Instantiate(ty, subst), constraints) == AbilitiesOf(handles, ty, given)
  {
    InstantiateWellFormed(handles, ty, subst, |constraints|);
    match ty
    case Vector(elem) => AbilitiesCommute(handles, elem, subst, constraints, given);
    case StructInstantiation(h, args) =>
      var args' := Instantiate(ty, subst).args;
      AllAbilitiesExist(handles, args, given);
      AllAbilitiesExist(handles, args', constraints);
      forall i | 0 <= i < |args|
        ensures AbilitiesOfAll(handles, args', constraints).value[i] == AbilitiesOfAll(handles, args, given).value[i]
      {
        assert args[i] in args;
        AbilitiesCommute(handles, args[i], subst, constraints, given);
      }
      assert AbilitiesOfAll(handles, args', constraints).value == AbilitiesOfAll(handles, args, given).value;
    case _ =>
  }

  /** Abilities are monotone in the abilities of the type parameters. */
  lemma {:induction false} AbilitiesMonotone(
    handles: seq<StructHandle>, ty: SignatureToken, low: seq<AbilitySet>, high: seq<AbilitySet>, a: Ability)
    requires |low| == |high| && WellFormed(handles, ty, |low|)
    requires forall i | 0 <= i < |low| :: IsSubset(low[i], high[i])
    requires Has(handles, ty, low, a)
    ensures Has(handles, ty, high, a)
  {
    match ty
    case TypeParameter(i) => SubsetHas(low[i], high[i], a);
    case Vector(elem) =>
      VectorHas(handles, elem, low, a);
      VectorHas(handles, elem, high, a);
      AbilitiesMonotone(handles, elem, low, high, Requires(a));
    case StructInstantiation(h, args) =>
      StructHas(handles, h, args, low, a);
      StructHas(handles, h, args, high, a);
      forall i | 0 <= i < |args| && !handles[h].typeParameters[i].isPhantom
        ensures Has(handles, args[i], high, Requires(a))
      {
        assert args[i] in args;
        AbilitiesMonotone(handles, args[i], low, high, Requires(a));
      }
    case _ =>
  }

  // ---------------------------------------------------------------------------------------------
  // The checks on fields
  // ---------------------------------------------------------------------------------------------

  /** The structs that a verifier sees, with the types of the fields it can see. */
  datatype StructTable = StructTable(handles: seq<StructHandle>, fields: map<nat, seq<SignatureToken>>)

  /** Phantom parameters occur in phantom positions only. */
  predicate PhantomsOk(
    handles: seq<StructHandle>, params: seq<StructTypeParameter>, ty: SignatureToken, phantomPosition: bool)
    requires WellFormed(handles, ty, |params|)
    decreases ty
  {
    match ty
    case Vector(elem) => PhantomsOk(handles, params, elem, false)
    case StructInstantiation(h, args) =>
      forall i | 0 <= i < |args| ::
        assert args[i] in args;
        PhantomsOk(handles, params, args[i], handles[h].typeParameters[i].isPhantom)
    case TypeParameter(i) => params[i].isPhantom ==> phantomPosition
    case _ => true
  }

  /** The abilities that the fields of a struct must have. */
  function RequiredAbilities(handle: StructHandle): AbilitySet {
    FoldRequires(Members(handle.abilities))
  }

  function AllAbilities(n: nat): seq<AbilitySet> {
    seq(n, _ => ALL)
  }

  /** A field passes if it has the required abilities when all type parameters have all abilities. */
  predicate FieldAbilitiesOk(handles: seq<StructHandle>, handle: StructHandle, field: SignatureToken)
    requires WellFormed(handles, field, |handle.typeParameters|)
  {
    match AbilitiesOf(handles, field, AllAbilities(|handle.typeParameters|))
    case Ok(abilities) => IsSubset(RequiredAbilities(handle), abilities)
    case Err(_) => false
  }

  /** What the bounds checker guarantees of the table. */
  predicate TableWellFormed(table: StructTable) {
    forall h | h in table.fields ::
      h < |table.handles| && AllWellFormed(table.handles, table.fields[h], |table.handles[h].typeParameters|)
  }

  /** All visible fields pass the field-ability check and the phantom-position check. */
  predicate FieldsOk(table: StructTable)
    requires TableWellFormed(table)
  {
    forall h | h in table.fields ::
      var handle := table.handles[h];
      forall i | 0 <= i < |table.fields[h]| ::
        && FieldAbilitiesOk(table.handles, handle, table.fields[h][i])
        && PhantomsOk(table.handles, handle.typeParameters, table.fields[h][i], false)
  }

  /** What the bounds checker guarantees of the struct definitions of a module. */
  predicate DefinitionsWellFormed(m: CompiledModule) {
    forall d | 0 <= d < |m.structDefs| ::
      var def := m.structDefs[d];
      && def.structHandle < |m.structHandles|
      && (def.fieldInformation.Declared? ==>
            forall i | 0 <= i < |def.fieldInformation.fields| ::
              WellFormed(m.structHandles, def.fieldInformation.fields[i].signature,
                         |m.structHandles[def.structHandle].typeParameters|))
  }

  /** The field-ability check of a module: native structs are passed over, every declared field is checked. */
  predicate VerifyFieldAbilities(m: CompiledModule)
    requires DefinitionsWellFormed(m)
  {
    forall d | 0 <= d < |m.structDefs| && m.structDefs[d].fieldInformation.Declared? ::
      forall i | 0 <= i < |m.structDefs[d].fieldInformation.fields| ::
        FieldAbilitiesOk(m.structHandles, m.structHandles[m.structDefs[d].structHandle],
                         m.structDefs[d].fieldInformation.fields[i].signature)
  }

  /** The phantom-position check of a module. */
  predicate VerifyPhantoms(m: CompiledModule)
    requires DefinitionsWellFormed(m)
  {
    forall d | 0 <= d < |m.structDefs| && m.structDefs[d].fieldInformation.Declared? ::
      forall i | 0 <= i < |m.structDefs[d].fieldInformation.fields| ::
        PhantomsOk(m.structHandles, m.structHandles[m.structDefs[d].structHandle].typeParameters,
                   m.structDefs[d].fieldInformation.fields[i].signature, false)
  }

  function FieldTypes(fields: seq<FieldDefinition>): (r: seq<SignatureToken>)
    ensures |r| == |fields| && forall i | 0 <= i < |r| :: r[i] == fields[i].signature
  {
    seq(|fields|, i requires 0 <= i < |fields| => fields[i].signature)
  }

  /** The fields that the first `n` definitions declare. */
  function DeclaredFields(defs: seq<StructDefinition>, n: nat): map<nat, seq<SignatureToken>>
    requires n <= |defs|
  {
    if n == 0 then map[]
    else
      var rest := DeclaredFields(defs, n - 1);
      if defs[n - 1].fieldInformation.Native? then rest
      else rest[defs[n - 1].structHandle := FieldTypes(defs[n - 1].fieldInformation.fields)]
  }

  /** Definition `d` declares the fields of the struct. */
  predicate Declares(defs: seq<StructDefinition>, d: nat, h: nat, types: seq<SignatureToken>) {
    && d < |defs| && defs[d].structHandle == h && defs[d].fieldInformation.Declared?
    && types == FieldTypes(defs[d].fieldInformation.fields)
  }

  lemma {:induction false} DeclaredBy(defs: seq<StructDefinition>, n: nat, h: nat) returns (d: nat)
    requires n <= |defs| && h in DeclaredFields(defs, n)
    ensures Declares(defs, d, h, DeclaredFields(defs, n)[h])
    decreases n
  {
    if defs[n - 1].fieldInformation.Declared? && defs[n - 1].structHandle == h {
      d := n - 1;
    } else {
      d := DeclaredBy(defs, n - 1, h);
    }
  }

  /** No struct is defined twice. */
  predicate DefinedOnce(defs: seq<StructDefinition>) {
    forall d, d' | 0 <= d < d' < |defs| :: defs[d].structHandle != defs[d'].structHandle
  }

  lemma {:induction false} DeclaredAt(defs: seq<StructDefinition>, n: nat, d: nat)
    requires d < n <= |defs| && DefinedOnce(defs) && defs[d].fieldInformation.Declared?
    ensures defs[d].structHandle in DeclaredFields(defs, n)
    ensures Declares(defs, d, defs[d].structHandle, DeclaredFields(defs, n)[defs[d].structHandle])
    decreases n
  {
    if d < n - 1 {
      DeclaredAt(defs, n - 1, d);
    }
  }

  /** The structs that a module sees. */
  function ModuleTable(m: CompiledModule): StructTable {
    StructTable(m.structHandles, DeclaredFields(m.structDefs, |m.structDefs|))
  }

  /** The two checks of a module establish what the theorems below assume of its table. */
  lemma ModuleFieldsOk(m: CompiledModule)
    requires DefinitionsWellFormed(m) && VerifyFieldAbilities(m) && VerifyPhantoms(m)
    ensures TableWellFormed(ModuleTable(m)) && FieldsOk(ModuleTable(m))
  {
    var table := ModuleTable(m);
    forall h | h in table.fields ensures h < |table.handles| {
      var d := DeclaredBy(m.structDefs, |m.structDefs|, h);
    }
    forall h, i | h in table.fields && 0 <= i < |table.fields[h]|
      ensures h < |table.handles|
      ensures WellFormed(table.handles, table.fields[h][i], |table.handles[h].typeParameters|)
      ensures FieldAbilitiesOk(table.handles, table.handles[h], table.fields[h][i])
      ensures PhantomsOk(table.handles, table.handles[h].typeParameters, table.fields[h][i], false)
    {
      var d := DeclaredBy(m.structDefs, |m.structDefs|, h);
      assert table.fields[h][i] == m.structDefs[d].fieldInformation.fields[i].signature;
    }
  }

  // ---------------------------------------------------------------------------------------------
  // Nothing hides in a field
  // ---------------------------------------------------------------------------------------------

  /**
   A field type that has an ability under the assumption that its parameters have all abilities keeps it when only
   the non-phantom parameters do.
   */
  lemma {:induction false} PhantomsDoNotMatter(
    handles: seq<StructHandle>, params: seq<StructTypeParameter>, ty: SignatureToken,
    constraints: seq<AbilitySet>, a: Ability)
    requires |constraints| == |params| && WellFormed(handles, ty, |params|)
    requires PhantomsOk(handles, params, ty, false)
    requires Has(handles, ty, AllAbilities(|params|), a) && Requires(a) == a
    requires forall i | 0 <= i < |params| && !params[i].isPhantom :: HasAbility(constraints[i], a)
    ensures Has(handles, ty, constraints, a)
  {
    var all := AllAbilities(|params|);
    match ty
    case Vector(elem) =>
      VectorHas(handles, elem, all, a);
      VectorHas(handles, elem, constraints, a);
      PhantomsDoNotMatter(handles, params, elem, constraints, a);
    case StructInstantiation(h, args) =>
      StructHas(handles, h, args, all, a);
      StructHas(handles, h, args, constraints, a);
      forall i | 0 <= i < |args| && !handles[h].typeParameters[i].isPhantom
        ensures Has(handles, args[i], constraints, a)
      {
        assert args[i] in args;
        PhantomsDoNotMatter(handles, params, args[i], constraints, a);
      }
    case _ =>
  }

  /** The type arguments of a struct type. */
  function TypeArguments(ty: SignatureToken): seq<SignatureToken> {
    if ty.StructInstantiation? then ty.args else []
  }

  /** A value of type `outer` directly contains values of type `inner`: as a vector element or in a field. */
  ghost predicate Contains(table: StructTable, outer: SignatureToken, inner: SignatureToken) {
    || outer == Vector(inner)
    || (&& (outer.Struct? || outer.StructInstantiation?) && outer.handle in table.fields
        && exists i :: 0 <= i < |table.fields[outer.handle]| &&
                       inner == Instantiate(table.fields[outer.handle][i], TypeArguments(outer)))
  }

  /** One level down: what a type contains has the ability that its own ability requires. */
  lemma ContainedHas(
    table: StructTable, outer: SignatureToken, inner: SignatureToken, constraints: seq<AbilitySet>, a: Ability)
    requires TableWellFormed(table) && FieldsOk(table)
    requires WellFormed(table.handles, outer, |constraints|) && Has(table.handles, outer, constraints, a)
    requires Contains(table, outer, inner)
    ensures WellFormed(table.handles, inner, |constraints|) && Has(table.handles, inner, constraints, Requires(a))
  {
    var handles := table.handles;
    if outer == Vector(inner) {
      VectorHas(handles, inner, constraints, a);
    } else {
      var args := TypeArguments(outer);
      var i :| 0 <= i < |table.fields[outer.handle]| && inner == Instantiate(table.fields[outer.handle][i], args);
      if outer.StructInstantiation? {
        StructHas(handles, outer.handle, args, constraints, a);
      }
      FieldKeeps(handles, handles[outer.handle], table.fields[outer.handle][i], args, constraints, a);
    }
  }

  /** An instantiated field has what the struct requires if the non-phantom arguments do. */
  lemma FieldKeeps(
    handles: seq<StructHandle>, handle: StructHandle, field: SignatureToken, args: seq<SignatureToken>,
    constraints: seq<AbilitySet>, a: Ability)
    requires |args| == |handle.typeParameters| && WellFormed(handles, field, |args|)
    requires forall arg | arg in args :: WellFormed(handles, arg, |constraints|)
    requires FieldAbilitiesOk(handles, handle, field) && HasAbility(handle.abilities, a)
    requires PhantomsOk(handles, handle.typeParameters, field, false)
    requires forall i | 0 <= i < |args| && !handle.typeParameters[i].isPhantom ::
               WellFormed(handles, args[i], |constraints|) && Has(handles, args[i], constraints, Requires(a))
    ensures WellFormed(handles, Instantiate(field, args), |constraints|)
    ensures Has(handles, Instantiate(field, args), constraints, Requires(a))
  {
    AllAbilitiesExist(handles, args, constraints);
    var given := AbilitiesOfAll(handles, args, constraints).value;
    FieldHas(handles, handle, field, a);
    PhantomsDoNotMatter(handles, handle.typeParameters, field, given, Requires(a));
    AbilitiesCommute(handles, field, args, constraints, given);
  }

  /** What the field-ability check establishes of a field. */
  lemma FieldHas(handles: seq<StructHandle>, handle: StructHandle, field: SignatureToken, a: Ability)
    requires WellFormed(handles, field, |handle.typeParameters|)
    requires FieldAbilitiesOk(handles, handle, field) && HasAbility(handle.abilities, a)
    ensures Has(handles, field, AllAbilities(|handle.typeParameters|), Requires(a))
  {
    MembersHas(handle.abilities, a);
    FoldRequiresHas(Members(handle.abilities), Requires(a));
    SubsetHas(RequiredAbilities(handle),
              AbilitiesOf(handles, field, AllAbilities(|handle.typeParameters|)).value, Requires(a));
  }

  /** A chain of types, each directly contained in the one before. */
  ghost predicate ContainmentChain(table: StructTable, chain: seq<SignatureToken>) {
    |chain| > 0 && forall k | 0 < k < |chain| :: Contains(table, chain[k - 1], chain[k])
  }

  /**
   At any depth: if a type has ability `a`, then every type reached through fields and vector elements has the
   ability that `a` requires. No component that cannot be copied, dropped or stored hides inside a type that can.
   */
  lemma {:induction false} NothingHides(
    table: StructTable, chain: seq<SignatureToken>, constraints: seq<AbilitySet>, a: Ability)
    requires TableWellFormed(table) && FieldsOk(table)
    requires ContainmentChain(table, chain)
    requires WellFormed(table.handles, chain[0], |constraints|) && Has(table.handles, chain[0], constraints, a)
    ensures var last := chain[|chain| - 1];
            && WellFormed(table.handles, last, |constraints|)
            && Has(table.handles, last, constraints, if |chain| == 1 then a else Requires(a))
  {
    var n := |chain| - 1;
    if n > 0 {
      NothingHides(table, chain[..n], constraints, a);
      ContainedHas(table, chain[n - 1], chain[n], constraints, if n == 1 then a else Requires(a));
    }
  }

  /**
   No signer hides in anything that can be copied or stored, and no reference in anything that can be stored: a type
   that contains a signer, at any depth, can at most be dropped.
   */
  lemma SignersAreNotCopied(
    table: StructTable, chain: seq<SignatureToken>, constraints: seq<AbilitySet>, a: Ability)
    requires TableWellFormed(table) && FieldsOk(table) && ContainmentChain(table, chain)
    requires WellFormed(table.handles, chain[0], |constraints|) && Has(table.handles, chain[0], constraints, a)
    ensures chain[|chain| - 1] == Signer ==> a == Drop
    ensures chain[|chain| - 1].Reference? || chain[|chain| - 1].MutableReference? ==> a == Copy || a == Drop
  {
    NothingHides(table, chain, constraints, a);
    HasIff(table.handles, chain[|chain| - 1], constraints, if |chain| == 1 then a else Requires(a));
  }

  // ---------------------------------------------------------------------------------------------
  // Across modules
  // ---------------------------------------------------------------------------------------------

  /** The type with every struct handle of a module replaced by the struct it links to. */
  function Relabel(ty: SignatureToken, links: seq<nat>): SignatureToken {
    match ty
    case Vector(elem) => Vector(Relabel(elem, links))
    case Reference(inner) => Reference(Relabel(inner, links))
    case MutableReference(inner) => MutableReference(Relabel(inner, links))
    case Struct(h) => if h < |links| then Struct(links[h]) else ty
    case StructInstantiation(h, args) =>
      StructInstantiation(if h < |links| then links[h] else h,
                          seq(|args|, i requires 0 <= i < |args| => Relabel(args[i], links)))
    case _ => ty
  }

  /**
   A module sees a struct through a handle of its own. The dependency check admits a view with fewer abilities and
   fewer phantom parameters than the definition has.
   */
  ghost predicate Links(local: seq<StructHandle>, defined: seq<StructHandle>, links: seq<nat>) {
    && |links| == |local|
    && forall h | 0 <= h < |local| ::
         && links[h] < |defined|
         && IsSubset(local[h].abilities, defined[links[h]].abilities)
         && |local[h].typeParameters| == |defined[links[h]].typeParameters|
         && forall i | 0 <= i < |local[h].typeParameters| ::
              local[h].typeParameters[i].isPhantom ==> defined[links[h]].typeParameters[i].isPhantom
  }

  lemma {:induction false} RelabelWellFormed(
    local: seq<StructHandle>, defined: seq<StructHandle>, links: seq<nat>, ty: SignatureToken, n: nat)
    requires Links(local, defined, links) && WellFormed(local, ty, n)
    ensures WellFormed(defined, Relabel(ty, links), n)
  {
    match ty
    case Vector(elem) => RelabelWellFormed(local, defined, links, elem, n);
    case Reference(inner) => RelabelWellFormed(local, defined, links, inner, n);
    case MutableReference(inner) => RelabelWellFormed(local, defined, links, inner, n);
    case StructInstantiation(h, args) =>
      forall i | 0 <= i < |args| ensures WellFormed(defined, Relabel(args[i], links), n) {
        assert args[i] in args;
        RelabelWellFormed(local, defined, links, args[i], n);
      }
    case _ =>
  }

  /** A local view never promises too much: what a type has by the local handles, it has by the definitions. */
  lemma {:induction false} LocalViewSound(
    local: seq<StructHandle>, defined: seq<StructHandle>, links: seq<nat>, ty: SignatureToken,
    constraints: seq<AbilitySet>, a: Ability)
    requires Links(local, defined, links)
    requires WellFormed(local, ty, |constraints|) && Has(local, ty, constraints, a)
    ensures WellFormed(defined, Relabel(ty, links), |constraints|)
    ensures Has(defined, Relabel(ty, links), constraints, a)
  {
    RelabelWellFormed(local, defined, links, ty, |constraints|);
    match ty
    case Vector(elem) =>
      VectorHas(local, elem, constraints, a);
      LocalViewSound(local, defined, links, elem, constraints, Requires(a));
      VectorHas(defined, Relabel(elem, links), constraints, a);
    case Struct(h) => SubsetHas(local[h].abilities, defined[links[h]].abilities, a);
    case StructInstantiation(h, args) =>
      var args' := Relabel(ty, links).args;
      StructHas(local, h, args, constraints, a);
      SubsetHas(local[h].abilities, defined[links[h]].abilities, a);
      forall i | 0 <= i < |args'| && !defined[links[h]].typeParameters[i].isPhantom
        ensures WellFormed(defined, args'[i], |constraints|) && Has(defined, args'[i], constraints, Requires(a))
      {
        assert args[i] in args;
        LocalViewSound(local, defined, links, args[i], constraints, Requires(a));
      }
      StructHas(defined, links[h], args', constraints, a);
    case _ =>
  }

  lemma {:induction false} PhantomsLinked(
    local: seq<StructHandle>, defined: seq<StructHandle>, links: seq<nat>, params: seq<StructTypeParameter>,
    ty: SignatureToken, position: bool, position': bool)
    requires Links(local, defined, links) && WellFormed(local, ty, |params|)
    requires PhantomsOk(local, params, ty, position) && (position ==> position')
    ensures WellFormed(defined, Relabel(ty, links), |params|)
    ensures PhantomsOk(defined, params, Relabel(ty, links), position')
  {
    RelabelWellFormed(local, defined, links, ty, |params|);
    match ty
    case Vector(elem) => PhantomsLinked(local, defined, links, params, elem, false, false);
    case StructInstantiation(h, args) =>
      var args' := Relabel(ty, links).args;
      forall i | 0 <= i < |args'|
        ensures args'[i] in args'
        ensures WellFormed(defined, args'[i], |params|)
        ensures PhantomsOk(defined, params, args'[i], defined[links[h]].typeParameters[i].isPhantom)
      {
        assert args[i] in args;
        PhantomsLinked(local, defined, links, params, args[i],
                       local[h].typeParameters[i].isPhantom, defined[links[h]].typeParameters[i].isPhantom);
      }
    case _ =>
  }

  /** A module of a program: the structs it sees and, for each, the struct of the program it links to. */
  datatype LinkedModule = LinkedModule(table: StructTable, links: seq<nat>)

  /** Module `m` defines struct `g` of the program by its own struct `h`. */
  ghost predicate Defines(program: StructTable, m: LinkedModule, g: nat, h: nat) {
    && h in m.table.fields && h < |m.table.handles| && h < |m.links| && m.links[h] == g
    && g in program.fields && g < |program.handles|
    && m.table.handles[h].abilities == program.handles[g].abilities
    && m.table.handles[h].typeParameters == program.handles[g].typeParameters
    && |program.fields[g]| == |m.table.fields[h]|
    && forall i | 0 <= i < |program.fields[g]| :: program.fields[g][i] == Relabel(m.table.fields[h][i], m.links)
  }

  /** A program of linked modules: every handle links, and every struct with fields is defined by some module. */
  ghost predicate LinkedProgram(program: StructTable, modules: seq<LinkedModule>) {
    && (forall k | 0 <= k < |modules| ::
          TableWellFormed(modules[k].table) && Links(modules[k].table.handles, program.handles, modules[k].links))
    && (forall g | g in program.fields :: exists k, h :: 0 <= k < |modules| && Defines(program, modules[k], g, h))
  }

  /** The checks of one module carry over to the program. */
  lemma FieldCarriesOver(program: StructTable, m: LinkedModule, g: nat, h: nat, i: nat)
    requires TableWellFormed(m.table) && FieldsOk(m.table)
    requires Links(m.table.handles, program.handles, m.links)
    requires Defines(program, m, g, h) && i < |program.fields[g]|
    ensures var handle := program.handles[g];
            && WellFormed(program.handles, program.fields[g][i], |handle.typeParameters|)
            && FieldAbilitiesOk(program.handles, handle, program.fields[g][i])
            && PhantomsOk(program.handles, handle.typeParameters, program.fields[g][i], false)
  {
    var handle, field := m.table.handles[h], m.table.fields[h][i];
    var all := AllAbilities(|handle.typeParameters|);
    RelabelWellFormed(m.table.handles, program.handles, m.links, field, |handle.typeParameters|);
    PhantomsLinked(m.table.handles, program.handles, m.links, handle.typeParameters, field, false, false);
    AbilitiesExist(program.handles, Relabel(field, m.links), all);
    var required := RequiredAbilities(handle);
    forall a | HasAbility(required, a) ensures Has(program.handles, Relabel(field, m.links), all, a) {
      SubsetHas(required, AbilitiesOf(m.table.handles, field, all).value, a);
      LocalViewSound(m.table.handles, program.handles, m.links, field, all, a);
    }
    SubsetIff(required, AbilitiesOf(program.handles, Relabel(field, m.links), all).value);
  }

  /** If every module passes its checks on its own view, the program passes them on the definitions. */
  lemma ProgramFieldsOk(program: StructTable, modules: seq<LinkedModule>)
    requires LinkedProgram(program, modules)
    requires forall k | 0 <= k < |modules| :: FieldsOk(modules[k].table)
    ensures TableWellFormed(program) && FieldsOk(program)
  {
    forall g, i | g in program.fields && 0 <= i < |program.fields[g]|
      ensures g < |program.handles|
      ensures var handle := program.handles[g];
              && WellFormed(program.handles, program.fields[g][i], |handle.typeParameters|)
              && FieldAbilitiesOk(program.handles, handle, program.fields[g][i])
              && PhantomsOk(program.handles, handle.typeParameters, program.fields[g][i], false)
    {
      var k, h :| 0 <= k < |modules| && Defines(program, modules[k], g, h);
      FieldCarriesOver(program, modules[k], g, h, i);
    }
  }

  /**
   The law for whole programs: although each module was checked alone and against its own view of its imports, a type
   with ability `a` contains at no depth, through no module, a type without what `a` requires.
   */
  lemma NothingHidesInProgram(
    program: StructTable, modules: seq<LinkedModule>, chain: seq<SignatureToken>, constraints: seq<AbilitySet>,
    a: Ability)
    requires LinkedProgram(program, modules)
    requires forall k | 0 <= k < |modules| :: FieldsOk(modules[k].table)
    requires ContainmentChain(program, chain) && |chain| > 1
    requires WellFormed(program.handles, chain[0], |constraints|) && Has(program.handles, chain[0], constraints, a)
    ensures WellFormed(program.handles, chain[|chain| - 1], |constraints|)
    ensures Has(program.handles, chain[|chain| - 1], constraints, Requires(a))
  {
    ProgramFieldsOk(program, modules);
    NothingHides(program, chain, constraints, a);
  }
}
