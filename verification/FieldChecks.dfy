/** What the checks of fields demand, and that they demand no more than they must. */
module FieldChecks {
  import opened Abilities
  import opened FileFormat
  import opened TypeAbilities
  import opened Wrappers

  /** The check of a field, spelled out ability by ability. */
  lemma FieldCheckIff(handles: seq<StructHandle>, handle: StructHandle, field: SignatureToken)
    requires WellFormed(handles, field, |handle.typeParameters|)
    ensures FieldAbilitiesOk(handles, handle, field) <==>
            forall a | HasAbility(handle.abilities, a) ::
              MayDo(handles, field, AllAbilities(|handle.typeParameters|), Inside(a))
  {
    var all := AllAbilities(|handle.typeParameters|);
    AbilitiesExist(handles, field, all);
    SubsetIff(RequiredAbilities(handle), AbilitiesOf(handles, field, all).value);
    forall b ensures HasAbility(RequiredAbilities(handle), b) <==>
                     exists a :: HasAbility(handle.abilities, a) && Requires(a) == b
    {
      FoldRequiresHas(Members(handle.abilities), b);
      forall a ensures a in Members(handle.abilities) <==> HasAbility(handle.abilities, a) {
        MembersHas(handle.abilities, a);
      }
    }
    forall a ensures Has(handles, field, all, Requires(a)) <==> MayDo(handles, field, all, Inside(a)) {
      HasIff(handles, field, all, Requires(a));
    }
  }

  /** Whatever the type arguments, the field can do what the struct promises, if those that are not phantom can. */
  ghost predicate FieldSound(handles: seq<StructHandle>, handle: StructHandle, field: SignatureToken)
    requires WellFormed(handles, field, |handle.typeParameters|)
  {
    forall constraints: seq<AbilitySet>, a: Ability |
      |constraints| == |handle.typeParameters| && HasAbility(handle.abilities, a) ::
      ArgumentsOk(handle, constraints, a) ==> Has(handles, field, constraints, Requires(a))
  }

  ghost predicate ArgumentsOk(handle: StructHandle, constraints: seq<AbilitySet>, a: Ability)
    requires |constraints| == |handle.typeParameters|
  {
    forall i | 0 <= i < |constraints| && !handle.typeParameters[i].isPhantom :: HasAbility(constraints[i], Requires(a))
  }

  lemma CheckedIsSound(handles: seq<StructHandle>, handle: StructHandle, field: SignatureToken)
    requires WellFormed(handles, field, |handle.typeParameters|)
    requires PhantomsOk(handles, handle.typeParameters, field, false) && FieldAbilitiesOk(handles, handle, field)
    ensures FieldSound(handles, handle, field)
  {
    forall constraints: seq<AbilitySet>, a: Ability |
      && |constraints| == |handle.typeParameters| && HasAbility(handle.abilities, a)
      && ArgumentsOk(handle, constraints, a)
      ensures Has(handles, field, constraints, Requires(a))
    {
      FieldHas(handles, handle, field, a);
      PhantomsDoNotMatter(handles, handle.typeParameters, field, constraints, Requires(a));
    }
  }

  lemma SoundIsChecked(handles: seq<StructHandle>, handle: StructHandle, field: SignatureToken)
    requires WellFormed(handles, field, |handle.typeParameters|) && FieldSound(handles, handle, field)
    ensures FieldAbilitiesOk(handles, handle, field)
  {
    var all := AllAbilities(|handle.typeParameters|);
    forall a | HasAbility(handle.abilities, a) ensures MayDo(handles, field, all, Inside(a)) {
      assert ArgumentsOk(handle, all, a);
      HasIff(handles, field, all, Requires(a));
    }
    FieldCheckIff(handles, handle, field);
  }

  /** The check of a field refuses no more than it must. */
  lemma FieldSoundIff(handles: seq<StructHandle>, handle: StructHandle, field: SignatureToken)
    requires WellFormed(handles, field, |handle.typeParameters|)
    requires PhantomsOk(handles, handle.typeParameters, field, false)
    ensures FieldAbilitiesOk(handles, handle, field) <==> FieldSound(handles, handle, field)
  {
    if FieldAbilitiesOk(handles, handle, field) {
      CheckedIsSound(handles, handle, field);
    }
    if FieldSound(handles, handle, field) {
      SoundIsChecked(handles, handle, field);
    }
  }

  /** The part of a type at the end of a path of positions; there are none behind references. */
  function PartAt(ty: SignatureToken, path: seq<nat>): Option<SignatureToken>
    decreases |path|
  {
    if path == [] then Some(ty)
    else
      match ty
      case Vector(elem) => if path[0] == 0 then PartAt(elem, path[1..]) else None
      case StructInstantiation(_, args) => if path[0] < |args| then PartAt(args[path[0]], path[1..]) else None
      case _ => None
  }

  /** The position is that of a phantom parameter of a struct. */
  predicate IsPhantomPosition(handles: seq<StructHandle>, ty: SignatureToken, path: seq<nat>, position: bool) {
    if path == [] then position
    else
      var n := |path| - 1;
      match PartAt(ty, path[..n])
      case Some(StructInstantiation(h, args)) =>
        h < |handles| && path[n] < |handles[h].typeParameters| && handles[h].typeParameters[path[n]].isPhantom
      case _ => false
  }

  /** The part is not a phantom parameter, or is in the position of one. */
  predicate PhantomAllowed(
    handles: seq<StructHandle>, params: seq<StructTypeParameter>, ty: SignatureToken, position: bool, path: seq<nat>)
  {
    match PartAt(ty, path)
    case Some(TypeParameter(i)) =>
      i < |params| && params[i].isPhantom ==> IsPhantomPosition(handles, ty, path, position)
    case _ => true
  }

  predicate HasPart(ty: SignatureToken, k: nat) {
    (ty.Vector? && k == 0) || (ty.StructInstantiation? && k < |ty.args|)
  }

  function Part(ty: SignatureToken, k: nat): SignatureToken
    requires HasPart(ty, k)
  {
    if ty.Vector? then ty.elem else ty.args[k]
  }

  predicate InPhantom(handles: seq<StructHandle>, ty: SignatureToken, k: nat) {
    && ty.StructInstantiation? && ty.handle < |handles| && k < |handles[ty.handle].typeParameters|
    && handles[ty.handle].typeParameters[k].isPhantom
  }

  lemma PathBelow(handles: seq<StructHandle>, params: seq<StructTypeParameter>, ty: SignatureToken, position: bool,
                  k: nat, rest: seq<nat>)
    requires HasPart(ty, k)
    ensures PhantomAllowed(handles, params, ty, position, [k] + rest) <==>
            PhantomAllowed(handles, params, Part(ty, k), InPhantom(handles, ty, k), rest)
  {
    var path, n := [k] + rest, |rest|;
    assert path[1..] == rest;
    if rest == [] {
      assert path[..n] == [];
    } else {
      assert path[..n] == [k] + rest[..n - 1] && path[..n][1..] == rest[..n - 1];
    }
  }

  lemma {:induction false} AllowedBelow(
    handles: seq<StructHandle>, params: seq<StructTypeParameter>, ty: SignatureToken, position: bool, path: seq<nat>)
    requires WellFormed(handles, ty, |params|) && PhantomsOk(handles, params, ty, position)
    ensures PhantomAllowed(handles, params, ty, position, path)
    decreases ty
  {
    if path != [] && PartAt(ty, path).Some? {
      var k, rest := path[0], path[1..];
      assert path == [k] + rest;
      PathBelow(handles, params, ty, position, k, rest);
      if ty.StructInstantiation? {
        assert ty.args[k] in ty.args;
      }
      AllowedBelow(handles, params, Part(ty, k), InPhantom(handles, ty, k), rest);
    }
  }

  ghost predicate AllAllowed(
    handles: seq<StructHandle>, params: seq<StructTypeParameter>, ty: SignatureToken, position: bool)
  {
    forall path :: PhantomAllowed(handles, params, ty, position, path)
  }

  lemma AllowedInside(
    handles: seq<StructHandle>, params: seq<StructTypeParameter>, ty: SignatureToken, position: bool, k: nat)
    requires AllAllowed(handles, params, ty, position) && HasPart(ty, k)
    ensures AllAllowed(handles, params, Part(ty, k), InPhantom(handles, ty, k))
  {
    forall rest ensures PhantomAllowed(handles, params, Part(ty, k), InPhantom(handles, ty, k), rest) {
      PathBelow(handles, params, ty, position, k, rest);
    }
  }

  /** The check of phantom parameters, spelled out place by place. */
  lemma {:induction false} PhantomCheckIff(
    handles: seq<StructHandle>, params: seq<StructTypeParameter>, ty: SignatureToken, position: bool)
    requires WellFormed(handles, ty, |params|)
    ensures PhantomsOk(handles, params, ty, position) <==> AllAllowed(handles, params, ty, position)
    decreases ty
  {
    if PhantomsOk(handles, params, ty, position) {
      forall path ensures PhantomAllowed(handles, params, ty, position, path) {
        AllowedBelow(handles, params, ty, position, path);
      }
    }
    if AllAllowed(handles, params, ty, position) {
      match ty
      case Vector(elem) =>
        AllowedInside(handles, params, ty, position, 0);
        PhantomCheckIff(handles, params, elem, false);
      case StructInstantiation(h, args) =>
        forall i | 0 <= i < |args|
          ensures args[i] in args && PhantomsOk(handles, params, args[i], handles[h].typeParameters[i].isPhantom)
        {
          assert args[i] in args;
          AllowedInside(handles, params, ty, position, i);
          PhantomCheckIff(handles, params, args[i], handles[h].typeParameters[i].isPhantom);
        }
      case TypeParameter(i) => assert PhantomAllowed(handles, params, ty, position, []);
      case _ =>
    }
  }

  // ---------------------------------------------------------------------------------------------
  // Modules
  // ---------------------------------------------------------------------------------------------

  /** Definition `d` has a field number `i`. */
  predicate IsDeclaredField(m: CompiledModule, d: nat, i: nat) {
    && d < |m.structDefs| && m.structDefs[d].fieldInformation.Declared?
    && i < |m.structDefs[d].fieldInformation.fields|
  }

  /** The field has phantom parameters where they may be only, and can do what the struct promises. */
  ghost predicate FieldInOrder(m: CompiledModule, d: nat, i: nat)
    requires DefinitionsWellFormed(m) && IsDeclaredField(m, d, i)
  {
    var handle := m.structHandles[m.structDefs[d].structHandle];
    var field := m.structDefs[d].fieldInformation.fields[i].signature;
    AllAllowed(m.structHandles, handle.typeParameters, field, false) && FieldSound(m.structHandles, handle, field)
  }

  lemma FieldInOrderIff(m: CompiledModule, d: nat, i: nat)
    requires DefinitionsWellFormed(m) && IsDeclaredField(m, d, i)
    ensures var handle := m.structHandles[m.structDefs[d].structHandle];
            var field := m.structDefs[d].fieldInformation.fields[i].signature;
            FieldInOrder(m, d, i) <==>
            && FieldAbilitiesOk(m.structHandles, handle, field)
            && PhantomsOk(m.structHandles, handle.typeParameters, field, false)
  {
    var handle := m.structHandles[m.structDefs[d].structHandle];
    var field := m.structDefs[d].fieldInformation.fields[i].signature;
    PhantomCheckIff(m.structHandles, handle.typeParameters, field, false);
    if PhantomsOk(m.structHandles, handle.typeParameters, field, false) {
      FieldSoundIff(m.structHandles, handle, field);
    }
  }

  /** Both checks of a module pass exactly if all its fields are in order. */
  lemma ModuleChecksIff(m: CompiledModule)
    requires DefinitionsWellFormed(m)
    ensures VerifyFieldAbilities(m) && VerifyPhantoms(m) <==>
            forall d: nat, i: nat | IsDeclaredField(m, d, i) :: FieldInOrder(m, d, i)
  {
    forall d: nat, i: nat | IsDeclaredField(m, d, i)
      ensures var handle := m.structHandles[m.structDefs[d].structHandle];
              var field := m.structDefs[d].fieldInformation.fields[i].signature;
              FieldInOrder(m, d, i) <==>
              && FieldAbilitiesOk(m.structHandles, handle, field)
              && PhantomsOk(m.structHandles, handle.typeParameters, field, false)
    {
      FieldInOrderIff(m, d, i);
    }
    if forall d: nat, i: nat | IsDeclaredField(m, d, i) :: FieldInOrder(m, d, i) {
      forall d, i |
        && 0 <= d < |m.structDefs| && m.structDefs[d].fieldInformation.Declared?
        && 0 <= i < |m.structDefs[d].fieldInformation.fields|
        ensures var handle := m.structHandles[m.structDefs[d].structHandle];
                var field := m.structDefs[d].fieldInformation.fields[i].signature;
                && FieldAbilitiesOk(m.structHandles, handle, field)
                && PhantomsOk(m.structHandles, handle.typeParameters, field, false)
      {
        assert IsDeclaredField(m, d, i) && FieldInOrder(m, d, i);
      }
    }
  }
}
