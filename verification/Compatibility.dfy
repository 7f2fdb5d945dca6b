/** Whether a module may be upgraded to a new version of it. */
module Compatibilities {
  import opened Abilities
  import opened FileFormat
  import opened Normalized

  datatype Compatibility = Compatibility(structAndFunctionLinking: bool, structLayout: bool) {
    predicate IsFullyCompatible() {
      structAndFunctionLinking && structLayout
    }
  }

  // ---------------------------------------------------------------------------------------------
  // What is allowed to change
  // ---------------------------------------------------------------------------------------------

  predicate ConstraintsCompatible(old_: AbilitySet, new_: AbilitySet) {
    IsSubset(new_, old_)
  }

  predicate PhantomCompatible(old_: StructTypeParameter, new_: StructTypeParameter) {
    !old_.isPhantom || new_.isPhantom
  }

  predicate FunctionParametersCompatible(old_: seq<AbilitySet>, new_: seq<AbilitySet>) {
    |old_| == |new_| && forall i | 0 <= i < |old_| :: ConstraintsCompatible(old_[i], new_[i])
  }

  predicate StructParametersCompatible(old_: seq<StructTypeParameter>, new_: seq<StructTypeParameter>) {
    |old_| == |new_| && forall i | 0 <= i < |old_| ::
      PhantomCompatible(old_[i], new_[i]) && ConstraintsCompatible(old_[i].constraints, new_[i].constraints)
  }

  predicate StructCompatible(old_: NormalStruct, new_: NormalStruct) {
    IsSubset(old_.abilities, new_.abilities) && StructParametersCompatible(old_.typeParameters, new_.typeParameters)
  }

  predicate VisibilityCompatible(old_: Visibility, new_: Visibility)
    requires old_ != Private
  {
    match old_
    case Public => new_ == Public
    case Script => new_ == Script
    case Friend => new_ == Public || new_ == Friend
  }

  predicate FunctionCompatible(old_: NormalFunction, new_: NormalFunction)
    requires old_.visibility != Private
  {
    && VisibilityCompatible(old_.visibility, new_.visibility)
    && old_.parameters == new_.parameters && old_.return_ == new_.return_
    && FunctionParametersCompatible(old_.typeParameters, new_.typeParameters)
  }

  /** No private function is exposed. */
  predicate Exposes(n: NormalModule) {
    forall name | name in n.exposedFunctions :: n.exposedFunctions[name].visibility != Private
  }

  /** Whatever dependents could use of the old module is still there in the new one, and demands no more. */
  ghost predicate LinkingCompatible(old_: NormalModule, new_: NormalModule)
    requires Exposes(old_)
  {
    && old_.id == new_.id
    && (forall name | name in old_.structs ::
          name in new_.structs && StructCompatible(old_.structs[name], new_.structs[name]))
    && (forall name | name in old_.exposedFunctions ::
          && name in new_.exposedFunctions
          && FunctionCompatible(old_.exposedFunctions[name], new_.exposedFunctions[name]))
    && forall f | f in old_.friends :: f in new_.friends
  }

  /** No struct that both modules have changed its fields. */
  ghost predicate LayoutCompatible(old_: NormalModule, new_: NormalModule) {
    forall name | name in old_.structs && name in new_.structs :: old_.structs[name].fields == new_.structs[name].fields
  }

  ghost predicate FullyCompatible(old_: NormalModule, new_: NormalModule)
    requires Exposes(old_)
  {
    LinkingCompatible(old_, new_) && LayoutCompatible(old_, new_)
  }

  // ---------------------------------------------------------------------------------------------
  // The check
  // ---------------------------------------------------------------------------------------------

  method CheckStructs(old_: NormalModule, new_: NormalModule) returns (linking: bool, layout: bool)
    ensures linking <==> forall name | name in old_.structs ::
                           name in new_.structs && StructCompatible(old_.structs[name], new_.structs[name])
    ensures layout <==> LayoutCompatible(old_, new_)
  {
    linking, layout := true, true;
    var work := old_.structs.Keys;
    while work != {}
      invariant work <= old_.structs.Keys
      invariant linking <==> forall name | name in old_.structs && name !in work ::
                               name in new_.structs && StructCompatible(old_.structs[name], new_.structs[name])
      invariant layout <==> forall name | name in old_.structs && name !in work && name in new_.structs ::
                              old_.structs[name].fields == new_.structs[name].fields
    {
      var name :| name in work;
      work := work - {name};
      if name !in new_.structs {
        linking := false;
      } else {
        if !StructCompatible(old_.structs[name], new_.structs[name]) {
          linking := false;
        }
        if new_.structs[name].fields != old_.structs[name].fields {
          layout := false;
        }
      }
    }
  }

  method CheckFunctions(old_: NormalModule, new_: NormalModule) returns (linking: bool)
    requires Exposes(old_)
    ensures linking <==> forall name | name in old_.exposedFunctions ::
                           && name in new_.exposedFunctions
                           && FunctionCompatible(old_.exposedFunctions[name], new_.exposedFunctions[name])
  {
    linking := true;
    var work := old_.exposedFunctions.Keys;
    while work != {}
      invariant work <= old_.exposedFunctions.Keys
      invariant linking <==> forall name | name in old_.exposedFunctions && name !in work ::
                               && name in new_.exposedFunctions
                               && FunctionCompatible(old_.exposedFunctions[name], new_.exposedFunctions[name])
    {
      var name :| name in work;
      work := work - {name};
      if name !in new_.exposedFunctions {
        linking := false;
      } else if !FunctionCompatible(old_.exposedFunctions[name], new_.exposedFunctions[name]) {
        linking := false;
      }
    }
  }

  /** Assesses an upgrade. */
  method Check(old_: NormalModule, new_: NormalModule) returns (c: Compatibility)
    requires Exposes(old_)
    ensures c.structAndFunctionLinking <==> LinkingCompatible(old_, new_)
    ensures c.structLayout <==> LayoutCompatible(old_, new_)
    ensures c.IsFullyCompatible() <==> FullyCompatible(old_, new_)
  {
    var linking := true;
    if old_.id.address != new_.id.address || old_.id.name != new_.id.name {
      linking := false;
    }
    var structLinking, layout := CheckStructs(old_, new_);
    var functionLinking := CheckFunctions(old_, new_);
    var oldFriends, newFriends := set f | f in old_.friends, set f | f in new_.friends;
    if !structLinking || !functionLinking || !(oldFriends <= newFriends) {
      linking := false;
    }
    assert forall f :: (f in oldFriends <==> f in old_.friends) && (f in newFriends <==> f in new_.friends);
    c := Compatibility(linking, layout);
  }

  // ---------------------------------------------------------------------------------------------
  // Successive upgrades
  // ---------------------------------------------------------------------------------------------

  lemma SubsetTransitive(r: AbilitySet, s: AbilitySet, t: AbilitySet)
    requires IsSubset(r, s) && IsSubset(s, t)
    ensures IsSubset(r, t)
  {
  }

  lemma StructTransitive(a: NormalStruct, b: NormalStruct, c: NormalStruct)
    requires StructCompatible(a, b) && StructCompatible(b, c)
    ensures StructCompatible(a, c)
  {
    SubsetTransitive(a.abilities, b.abilities, c.abilities);
    forall i | 0 <= i < |a.typeParameters|
      ensures PhantomCompatible(a.typeParameters[i], c.typeParameters[i])
      ensures ConstraintsCompatible(a.typeParameters[i].constraints, c.typeParameters[i].constraints)
    {
      assert PhantomCompatible(a.typeParameters[i], b.typeParameters[i]);
      assert PhantomCompatible(b.typeParameters[i], c.typeParameters[i]);
      SubsetTransitive(
        c.typeParameters[i].constraints, b.typeParameters[i].constraints, a.typeParameters[i].constraints);
    }
  }

  lemma FunctionTransitive(a: NormalFunction, b: NormalFunction, c: NormalFunction)
    requires a.visibility != Private && b.visibility != Private && FunctionCompatible(a, b) && FunctionCompatible(b, c)
    ensures FunctionCompatible(a, c)
  {
    forall i | 0 <= i < |a.typeParameters| ensures ConstraintsCompatible(a.typeParameters[i], c.typeParameters[i]) {
      assert ConstraintsCompatible(a.typeParameters[i], b.typeParameters[i]);
      assert ConstraintsCompatible(b.typeParameters[i], c.typeParameters[i]);
      SubsetTransitive(c.typeParameters[i], b.typeParameters[i], a.typeParameters[i]);
    }
  }

  lemma LinkingTransitive(a: NormalModule, b: NormalModule, c: NormalModule)
    requires Exposes(a) && Exposes(b) && LinkingCompatible(a, b) && LinkingCompatible(b, c)
    ensures LinkingCompatible(a, c)
  {
    forall name | name in a.structs ensures name in c.structs && StructCompatible(a.structs[name], c.structs[name]) {
      StructTransitive(a.structs[name], b.structs[name], c.structs[name]);
    }
    forall name | name in a.exposedFunctions
      ensures name in c.exposedFunctions && FunctionCompatible(a.exposedFunctions[name], c.exposedFunctions[name])
    {
      FunctionTransitive(a.exposedFunctions[name], b.exposedFunctions[name], c.exposedFunctions[name]);
    }
  }

  /** Full compatibility composes. */
  lemma FullyTransitive(a: NormalModule, b: NormalModule, c: NormalModule)
    requires Exposes(a) && Exposes(b) && FullyCompatible(a, b) && FullyCompatible(b, c)
    ensures FullyCompatible(a, c)
  {
    LinkingTransitive(a, b, c);
  }

  /** Every version is fully compatible with the one before. */
  ghost predicate Upgrades(versions: seq<NormalModule>) {
    && (forall i | 0 <= i < |versions| :: Exposes(versions[i]))
    && forall i | 0 < i < |versions| :: FullyCompatible(versions[i - 1], versions[i])
  }

  lemma LinkingReflexive(a: NormalModule)
    requires Exposes(a)
    ensures LinkingCompatible(a, a)
  {
  }

  /** However many upgrades there were, every version is fully compatible with every earlier one. */
  lemma {:induction false} UpgradesCompose(versions: seq<NormalModule>, i: nat, j: nat)
    requires Upgrades(versions) && i <= j < |versions|
    ensures FullyCompatible(versions[i], versions[j])
    decreases j
  {
    if i == j {
      LinkingReflexive(versions[i]);
    } else {
      UpgradesCompose(versions, i, j - 1);
      FullyTransitive(versions[i], versions[j - 1], versions[j]);
    }
  }

  /** Every struct that `b` dropped and `c` has again has its old fields again. */
  ghost predicate ReturnsUnchanged(a: NormalModule, b: NormalModule, c: NormalModule) {
    forall name | name in a.structs && name !in b.structs && name in c.structs ::
      a.structs[name].fields == c.structs[name].fields
  }

  /** Layout compatibility alone composes exactly if no struct that was dropped returns with other fields. */
  lemma LayoutComposesIff(a: NormalModule, b: NormalModule, c: NormalModule)
    requires LayoutCompatible(a, b) && LayoutCompatible(b, c)
    ensures LayoutCompatible(a, c) <==> ReturnsUnchanged(a, b, c)
  {
    if ReturnsUnchanged(a, b, c) {
      forall name | name in a.structs && name in c.structs ensures a.structs[name].fields == c.structs[name].fields {
        if name in b.structs {
          assert a.structs[name].fields == b.structs[name].fields;
        }
      }
    }
  }

  /** A struct that returns with other fields: every single upgrade keeps the layout, both together do not. */
  lemma LayoutDoesNotCompose() returns (a: NormalModule, b: NormalModule, c: NormalModule)
    ensures LayoutCompatible(a, b) && LayoutCompatible(b, c) && !LayoutCompatible(a, c)
  {
    var id := ModuleId([1], "M");
    var before := NormalStruct(0, [], [NormalField("f", U8Type)]);
    var after := NormalStruct(0, [], [NormalField("f", U64Type)]);
    a := NormalModule(id, [], map["S" := before], map[]);
    b := NormalModule(id, [], map[], map[]);
    c := NormalModule(id, [], map["S" := after], map[]);
    assert "S" in a.structs && "S" in c.structs;
    assert before.fields[0] != after.fields[0];
  }
}
