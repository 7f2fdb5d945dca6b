/** Compatible upgrades against linking: what was linked stays linked. */
module Upgrades {
  import opened Abilities
  import opened FileFormat
  import opened Tables
  import opened Normalized
  import opened Wrappers
  import opened Compatibilities
  import opened Dependencies
  import opened Linker

  lemma NormalExposes(m: CompiledModule)
    requires NamesUnique(m)
    ensures Exposes(Normalize(m))
  {
    forall name | name in Normalize(m).exposedFunctions
      ensures Normalize(m).exposedFunctions[name].visibility != Private
    {
      var i := FunctionDefined(m, |m.functionDefs|, name);
      FunctionFound(m, |m.functionDefs|, i);
    }
  }

  /** `new_` is a version of `old_` that keeps dependents linked, as far as the compatibility check says. */
  ghost predicate Accepted(old_: CompiledModule, new_: CompiledModule) {
    && NamesUnique(old_) && NamesUnique(new_)
    && (NormalExposes(old_); LinkingCompatible(Normalize(old_), Normalize(new_)))
  }

  /** Whoever could call a function with the one visibility can call it with the other. */
  predicate StillVisible(old_: Visibility, new_: Visibility) {
    match old_
    case Public => new_ == Public
    case Script => new_ == Script || new_ == Public
    case Friend => new_ == Friend || new_ == Public
    case Private => true
  }

  predicate StructKept(old_: CompiledModule, i: nat, new_: CompiledModule, j: nat) {
    && i < |old_.structDefs| && j < |new_.structDefs| && DefinedStruct(new_, j) == DefinedStruct(old_, i)
    && StructCompatible(StructOf(old_, old_.structDefs[i]), StructOf(new_, new_.structDefs[j]))
  }

  predicate FunctionKept(old_: CompiledModule, i: nat, new_: CompiledModule, j: nat) {
    && i < |old_.functionDefs| && j < |new_.functionDefs| && DefinedFunction(new_, j) == DefinedFunction(old_, i)
    && StillVisible(old_.functionDefs[i].visibility, new_.functionDefs[j].visibility)
    && var f, g := FunctionOf(old_, old_.functionDefs[i]), FunctionOf(new_, new_.functionDefs[j]);
    && f.parameters == g.parameters && f.return_ == g.return_
    && FunctionParametersCompatible(f.typeParameters, g.typeParameters)
    && (g.visibility == Friend ==> forall id | id in FriendsOf(old_) :: id in FriendsOf(new_))
  }

  ghost predicate StructRemains(old_: CompiledModule, i: nat, new_: CompiledModule) {
    exists j: nat :: StructKept(old_, i, new_, j)
  }

  ghost predicate FunctionRemains(old_: CompiledModule, i: nat, new_: CompiledModule) {
    exists j: nat :: FunctionKept(old_, i, new_, j)
  }

  /** Some other module or script can call the function. */
  predicate Usable(m: CompiledModule, i: nat) {
    && i < |m.functionDefs| && m.functionDefs[i].visibility != Private
    && (m.functionDefs[i].visibility == Friend ==> FriendsOf(m) != [])
  }

  /**
   Whatever others can use of the one module, they can use of the other. This is less than the compatibility check asks
   for: a function for scripts may become public, a friend may be dropped that no function is left for, and functions
   for friends may change while there are none.
   */
  ghost predicate Keeps(old_: CompiledModule, new_: CompiledModule) {
    && NamesUnique(old_) && NamesUnique(new_) && OwnId(old_) == OwnId(new_)
    && (forall i | 0 <= i < |old_.structDefs| :: StructRemains(old_, i, new_))
    && forall i | 0 <= i < |old_.functionDefs| && Usable(old_, i) :: FunctionRemains(old_, i, new_)
  }

  /** The types of two functions instantiate the same of their structs. */
  predicate SameFunctionForm(a: Tables, f: FunctionHandle, b: Tables, g: FunctionHandle) {
    && SameForms(SignatureAt(a, f.parameters), SignatureAt(b, g.parameters))
    && SameForms(SignatureAt(a, f.return_), SignatureAt(b, g.return_))
  }

  function HandleOf(m: CompiledModule, i: nat): FunctionHandle
    requires i < |m.functionDefs|
  {
    FunctionHandleAt(ModuleTables(m), m.functionDefs[i].function_)
  }

  /** The types of the functions that others may use instantiate the same structs in both versions. */
  ghost predicate FormsAgree(old_: CompiledModule, new_: CompiledModule) {
    forall i, j |
      && 0 <= i < |old_.functionDefs| && Usable(old_, i)
      && 0 <= j < |new_.functionDefs| && DefinedFunction(new_, j) == DefinedFunction(old_, i) ::
      SameFunctionForm(ModuleTables(old_), HandleOf(old_, i), ModuleTables(new_), HandleOf(new_, j))
  }

  /** A version that keeps what others use, and writes its types in the same form. */
  ghost predicate Upgrade(old_: CompiledModule, new_: CompiledModule) {
    Keeps(old_, new_) && FormsAgree(old_, new_)
  }

  lemma AcceptedStruct(old_: CompiledModule, new_: CompiledModule, i: nat) returns (j: nat)
    requires Accepted(old_, new_) && i < |old_.structDefs|
    ensures StructKept(old_, i, new_, j)
  {
    StructFound(old_, |old_.structDefs|, i);
    j := StructDefined(new_, |new_.structDefs|, DefinedStruct(old_, i));
    StructFound(new_, |new_.structDefs|, j);
  }

  lemma AcceptedFunction(old_: CompiledModule, new_: CompiledModule, i: nat) returns (j: nat)
    requires Accepted(old_, new_) && i < |old_.functionDefs| && old_.functionDefs[i].visibility != Private
    ensures FunctionKept(old_, i, new_, j)
    ensures old_.functionDefs[i].visibility == Script ==> new_.functionDefs[j].visibility == Script
  {
    FunctionFound(old_, |old_.functionDefs|, i);
    j := FunctionDefined(new_, |new_.functionDefs|, DefinedFunction(old_, i));
    FunctionFound(new_, |new_.functionDefs|, j);
    assert Normalize(old_).friends == FriendsOf(old_) && Normalize(new_).friends == FriendsOf(new_);
  }

  /** An upgrade that the compatibility check accepts keeps what others use. */
  lemma AcceptedKeeps(old_: CompiledModule, new_: CompiledModule)
    requires Accepted(old_, new_)
    ensures Keeps(old_, new_)
  {
    assert Normalize(old_).id == OwnId(old_) && Normalize(new_).id == OwnId(new_);
    forall i | 0 <= i < |old_.structDefs| ensures StructRemains(old_, i, new_) {
      var j := AcceptedStruct(old_, new_, i);
    }
    forall i | 0 <= i < |old_.functionDefs| && Usable(old_, i) ensures FunctionRemains(old_, i, new_)
    {
      var j := AcceptedFunction(old_, new_, i);
    }
  }

  /** A function that is not private is kept, and stays for scripts if it is. */
  ghost predicate FunctionStays(old_: CompiledModule, i: nat, new_: CompiledModule) {
    exists j: nat ::
      && FunctionKept(old_, i, new_, j)
      && (old_.functionDefs[i].visibility == Script ==> new_.functionDefs[j].visibility == Script)
  }

  /** What the compatibility check asks for beyond what others use. */
  ghost predicate AsksMore(old_: CompiledModule, new_: CompiledModule) {
    && (forall i | 0 <= i < |old_.functionDefs| && old_.functionDefs[i].visibility != Private ::
          FunctionStays(old_, i, new_))
    && forall f | f in FriendsOf(old_) :: f in FriendsOf(new_)
  }

  lemma KeptStruct(old_: CompiledModule, new_: CompiledModule, name: Identifier)
    requires Keeps(old_, new_) && name in Normalize(old_).structs
    ensures name in Normalize(new_).structs
    ensures StructCompatible(Normalize(old_).structs[name], Normalize(new_).structs[name])
  {
    var i := StructDefined(old_, |old_.structDefs|, name);
    StructFound(old_, |old_.structDefs|, i);
    assert StructRemains(old_, i, new_);
    var j: nat :| StructKept(old_, i, new_, j);
    StructFound(new_, |new_.structDefs|, j);
  }

  lemma KeptFunction(old_: CompiledModule, new_: CompiledModule, name: Identifier)
    requires NamesUnique(old_) && NamesUnique(new_) && AsksMore(old_, new_) && name in Normalize(old_).exposedFunctions
    ensures name in Normalize(new_).exposedFunctions
    ensures Normalize(old_).exposedFunctions[name].visibility != Private
    ensures FunctionCompatible(Normalize(old_).exposedFunctions[name], Normalize(new_).exposedFunctions[name])
  {
    var i := FunctionDefined(old_, |old_.functionDefs|, name);
    FunctionFound(old_, |old_.functionDefs|, i);
    assert FunctionStays(old_, i, new_);
    var j: nat :| FunctionKept(old_, i, new_, j)
      && (old_.functionDefs[i].visibility == Script ==> new_.functionDefs[j].visibility == Script);
    FunctionFound(new_, |new_.functionDefs|, j);
  }

  /** What the compatibility check accepts, exactly. */
  lemma AcceptedIff(old_: CompiledModule, new_: CompiledModule)
    ensures Accepted(old_, new_) <==> Keeps(old_, new_) && AsksMore(old_, new_)
  {
    if Accepted(old_, new_) {
      AcceptedKeeps(old_, new_);
      assert Normalize(old_).friends == FriendsOf(old_) && Normalize(new_).friends == FriendsOf(new_);
      forall i | 0 <= i < |old_.functionDefs| && old_.functionDefs[i].visibility != Private
        ensures FunctionStays(old_, i, new_)
      {
        var j := AcceptedFunction(old_, new_, i);
      }
    }
    if Keeps(old_, new_) && AsksMore(old_, new_) {
      KeptIsAccepted(old_, new_);
    }
  }

  lemma KeptIsAccepted(old_: CompiledModule, new_: CompiledModule)
    requires Keeps(old_, new_) && AsksMore(old_, new_)
    ensures Accepted(old_, new_)
  {
    NormalExposes(old_);
    forall name | name in Normalize(old_).structs
      ensures name in Normalize(new_).structs
      ensures StructCompatible(Normalize(old_).structs[name], Normalize(new_).structs[name])
    {
      KeptStruct(old_, new_, name);
    }
    forall name | name in Normalize(old_).exposedFunctions
      ensures name in Normalize(new_).exposedFunctions
      ensures FunctionCompatible(Normalize(old_).exposedFunctions[name], Normalize(new_).exposedFunctions[name])
    {
      KeptFunction(old_, new_, name);
    }
  }

  // ---------------------------------------------------------------------------------------------
  // Structs
  // ---------------------------------------------------------------------------------------------

  lemma StructStillMatches(local: StructHandle, a: StructHandle, b: StructHandle)
    requires StructMatches(local, a)
    requires IsSubset(a.abilities, b.abilities) && StructParametersCompatible(a.typeParameters, b.typeParameters)
    ensures StructMatches(local, b)
  {
    StructTransitive(
      NormalStruct(local.abilities, local.typeParameters, []), NormalStruct(a.abilities, a.typeParameters, []),
      NormalStruct(b.abilities, b.typeParameters, []));
  }

  /** The definition that an imported struct links to after the upgrade. */
  lemma StructImport(v: View, h: nat, old_: CompiledModule, new_: CompiledModule, i: nat) returns (j: nat)
    requires Keeps(old_, new_) && ImportsStruct(v, h, old_, i)
    ensures ImportsStruct(v, h, new_, j)
  {
    assert StructRemains(old_, i, new_);
    j :| StructKept(old_, i, new_, j);
    StructStillMatches(
      StructHandleAt(TablesOf(v), h),
      StructHandleAt(ModuleTables(old_), old_.structDefs[i].structHandle),
      StructHandleAt(ModuleTables(new_), new_.structDefs[j].structHandle));
  }

  // ---------------------------------------------------------------------------------------------
  // Functions
  // ---------------------------------------------------------------------------------------------

  lemma SameSignature(
    t: Tables, x: seq<SignatureToken>, a: Tables, y: seq<SignatureToken>, b: Tables, z: seq<SignatureToken>)
    requires CompareSignatures(t, x, a, y) && TypesOf(a, y) == TypesOf(b, z)
    ensures CompareSignatures(t, x, b, z) <==> SameForms(x, z)
  {
    SignaturesIff(t, x, a, y);
    SignaturesIff(t, x, b, z);
  }

  lemma ParametersTransitive(a: seq<AbilitySet>, b: seq<AbilitySet>, c: seq<AbilitySet>)
    requires FunctionParametersCompatible(a, b) && FunctionParametersCompatible(b, c)
    ensures FunctionParametersCompatible(a, c)
  {
    forall i | 0 <= i < |a| ensures ConstraintsCompatible(a[i], c[i]) {
      assert ConstraintsCompatible(a[i], b[i]) && ConstraintsCompatible(b[i], c[i]);
      SubsetTransitive(c[i], b[i], a[i]);
    }
  }

  lemma FunctionStillMatches(
    t: Tables, local: FunctionHandle, a: Tables, f: FunctionHandle, b: Tables, g: FunctionHandle)
    requires FunctionMatches(t, local, a, f) && FunctionParametersCompatible(f.typeParameters, g.typeParameters)
    requires TypesOf(a, SignatureAt(a, f.parameters)) == TypesOf(b, SignatureAt(b, g.parameters))
    requires TypesOf(a, SignatureAt(a, f.return_)) == TypesOf(b, SignatureAt(b, g.return_))
    ensures FunctionMatches(t, local, b, g) <==> SameFunctionForm(t, local, b, g)
  {
    SameSignature(
      t, SignatureAt(t, local.parameters), a, SignatureAt(a, f.parameters), b, SignatureAt(b, g.parameters));
    SameSignature(t, SignatureAt(t, local.return_), a, SignatureAt(a, f.return_), b, SignatureAt(b, g.return_));
    ParametersTransitive(local.typeParameters, f.typeParameters, g.typeParameters);
  }

  /** The import writes its types as function `j` of the module does. */
  predicate ImportKept(v: View, h: nat, m: CompiledModule, j: nat)
    requires j < |m.functionDefs|
  {
    SameFunctionForm(TablesOf(v), FunctionHandleAt(TablesOf(v), h), ModuleTables(m), HandleOf(m, j))
  }

  /**
   The definition that an imported function may link to after the upgrade, with script visibility only if before.
   It does link if and only if the types have kept their form.
   */
  lemma FunctionImport(v: View, h: nat, old_: CompiledModule, new_: CompiledModule, i: nat) returns (j: nat)
    requires Keeps(old_, new_) && ImportsFunction(v, h, old_, i)
    ensures j < |new_.functionDefs| && DefinedFunction(new_, j) == FunctionName(TablesOf(v), h)
    ensures DefinedFunction(old_, i) == DefinedFunction(new_, j) && old_.functionDefs[i].visibility != Private
    ensures ImportsFunction(v, h, new_, j) <==> ImportKept(v, h, new_, j)
    ensures new_.functionDefs[j].visibility == Script ==> old_.functionDefs[i].visibility == Script
  {
    assert FunctionRemains(old_, i, new_);
    j :| FunctionKept(old_, i, new_, j);
    FunctionStillMatches(
      TablesOf(v), FunctionHandleAt(TablesOf(v), h), ModuleTables(old_), HandleOf(old_, i),
      ModuleTables(new_), HandleOf(new_, j));
  }

  /** A name has one definition, and so one visibility. */
  lemma OneVisibility(v: View, h: nat, m: CompiledModule, i: nat)
    requires NamesUnique(m) && i < |m.functionDefs| && DefinedFunction(m, i) == FunctionName(TablesOf(v), h)
    ensures (exists j: nat :: ForeignScript(v, h, m, j)) <==> m.functionDefs[i].visibility == Script
  {
    forall j: nat | ForeignScript(v, h, m, j) ensures j == i {
      assert DefinedFunction(m, i) == DefinedFunction(m, j);
    }
    if m.functionDefs[i].visibility == Script {
      assert ForeignScript(v, h, m, i);
    }
  }

  // ---------------------------------------------------------------------------------------------
  // Dependents
  // ---------------------------------------------------------------------------------------------

  lemma StructStaysLinked(v: View, deps: DependencyMap, id: ModuleId, new_: CompiledModule, h: nat)
    requires id in deps && Keeps(deps[id], new_) && StructLinks(v, deps, h)
    ensures StructLinks(v, deps[id := new_], h)
  {
    var mod := StructHandleAt(TablesOf(v), h).mod;
    var owner := ModuleAt(TablesOf(v), mod);
    if !IsSelf(v, mod) {
      var i: nat :| ImportsStruct(v, h, deps[owner], i);
      if owner == id {
        var j := StructImport(v, h, deps[id], new_, i);
        assert ImportsStruct(v, h, deps[id := new_][owner], j);
      } else {
        assert ImportsStruct(v, h, deps[id := new_][owner], i);
      }
    }
  }

  /** If the function is imported from the module, it writes its types as the module does. */
  predicate FormKept(v: View, id: ModuleId, m: CompiledModule, h: nat) {
    var mod := FunctionHandleAt(TablesOf(v), h).mod;
    !IsSelf(v, mod) && ModuleAt(TablesOf(v), mod) == id ==>
      forall j | 0 <= j < |m.functionDefs| && DefinedFunction(m, j) == FunctionName(TablesOf(v), h) ::
        ImportKept(v, h, m, j)
  }

  /** All imports from the module write their types as the module does. */
  predicate FormsKept(v: View, id: ModuleId, m: CompiledModule) {
    forall h | 0 <= h < |TablesOf(v).functionHandles| :: FormKept(v, id, m, h)
  }

  lemma OneImport(v: View, h: nat, m: CompiledModule, j: nat)
    requires NamesUnique(m) && j < |m.functionDefs| && DefinedFunction(m, j) == FunctionName(TablesOf(v), h)
    ensures (exists i: nat :: ImportsFunction(v, h, m, i)) <==> ImportsFunction(v, h, m, j)
    ensures forall i | 0 <= i < |m.functionDefs| && DefinedFunction(m, i) == DefinedFunction(m, j) :: i == j
  {
  }

  lemma FunctionStaysLinked(v: View, deps: DependencyMap, id: ModuleId, new_: CompiledModule, h: nat)
    requires id in deps && Keeps(deps[id], new_) && FunctionLinks(v, deps, h)
    ensures FunctionLinks(v, deps[id := new_], h) <==> FormKept(v, id, new_, h)
    ensures IsScript(v, deps[id := new_], h) ==> IsScript(v, deps, h)
  {
    var mod := FunctionHandleAt(TablesOf(v), h).mod;
    var owner := ModuleAt(TablesOf(v), mod);
    if !IsSelf(v, mod) {
      var i: nat :| ImportsFunction(v, h, deps[owner], i);
      if owner == id {
        var j := FunctionImport(v, h, deps[id], new_, i);
        OneImport(v, h, new_, j);
        OneVisibility(v, h, deps[id], i);
        OneVisibility(v, h, new_, j);
      } else {
        assert ImportsFunction(v, h, deps[id := new_][owner], i);
      }
    }
  }

  /** Every function that is called has a handle. */
  predicate CalleesOk(v: View) {
    forall i, k | 0 <= i < |SelfDefs(v)| && SelfDefs(v)[i].code.Some? && 0 <= k < |SelfDefs(v)[i].code.value.code| ::
      var callee := Callee(v, SelfDefs(v)[i].code.value.code[k]);
      callee.Some? ==> callee.value < |TablesOf(v).functionHandles|
  }

  /**
   A module or script that is linked stays linked when what it uses of a dependency is kept, if and only if the new
   version keeps the form of the types that it imports.
   */
  lemma StaysLinkedIff(v: View, deps: DependencyMap, id: ModuleId, new_: CompiledModule)
    requires CalleesOk(v) && id in deps && Keeps(deps[id], new_) && Linked(v, deps)
    ensures Linked(v, deps[id := new_]) <==> FormsKept(v, id, new_)
  {
    var deps' := deps[id := new_];
    forall h | 0 <= h < |TablesOf(v).moduleHandles| ensures ModuleLinks(v, deps', h) {
      assert ModuleLinks(v, deps, h);
    }
    forall h | 0 <= h < |TablesOf(v).structHandles| ensures StructLinks(v, deps', h) {
      StructStaysLinked(v, deps, id, new_, h);
    }
    forall h | 0 <= h < |TablesOf(v).functionHandles|
      ensures FunctionLinks(v, deps', h) <==> FormKept(v, id, new_, h)
      ensures IsScript(v, deps', h) ==> IsScript(v, deps, h)
    {
      FunctionStaysLinked(v, deps, id, new_, h);
    }
    forall i | 0 <= i < |SelfDefs(v)| && SelfDefs(v)[i].code.Some?
      ensures CallsOk(v, deps', SelfDefs(v)[i].visibility, SelfDefs(v)[i].code.value.code)
    {
      assert CallsOk(v, deps, SelfDefs(v)[i].visibility, SelfDefs(v)[i].code.value.code);
    }
  }

  lemma SignatureKept(
    t: Tables, x: seq<SignatureToken>, a: Tables, y: seq<SignatureToken>, b: Tables, z: seq<SignatureToken>)
    requires CompareSignatures(t, x, a, y) && TypesOf(a, y) == TypesOf(b, z) && SameForms(y, z)
    ensures SameForms(x, z)
  {
    SignaturesIff(a, y, b, z);
    forall i | 0 <= i < |x| && i < |z| ensures SameForm(x[i], z[i]) {
      CompareTransitive(t, x[i], a, y[i], b, z[i]);
      CompareIff(t, x[i], b, z[i]);
    }
  }

  lemma FormStaysKept(
    t: Tables, local: FunctionHandle, a: Tables, f: FunctionHandle, b: Tables, g: FunctionHandle)
    requires FunctionMatches(t, local, a, f) && SameFunctionForm(a, f, b, g)
    requires TypesOf(a, SignatureAt(a, f.parameters)) == TypesOf(b, SignatureAt(b, g.parameters))
    requires TypesOf(a, SignatureAt(a, f.return_)) == TypesOf(b, SignatureAt(b, g.return_))
    ensures SameFunctionForm(t, local, b, g)
  {
    SignatureKept(
      t, SignatureAt(t, local.parameters), a, SignatureAt(a, f.parameters), b, SignatureAt(b, g.parameters));
    SignatureKept(t, SignatureAt(t, local.return_), a, SignatureAt(a, f.return_), b, SignatureAt(b, g.return_));
  }

  lemma ImportStaysKept(v: View, h: nat, old_: CompiledModule, new_: CompiledModule, i: nat)
    requires Upgrade(old_, new_) && ImportsFunction(v, h, old_, i)
    ensures forall j | 0 <= j < |new_.functionDefs| && DefinedFunction(new_, j) == FunctionName(TablesOf(v), h) ::
              ImportKept(v, h, new_, j)
  {
    assert FunctionRemains(old_, i, new_);
    var j: nat :| FunctionKept(old_, i, new_, j);
    FormStaysKept(
      TablesOf(v), FunctionHandleAt(TablesOf(v), h), ModuleTables(old_), HandleOf(old_, i),
      ModuleTables(new_), HandleOf(new_, j));
    OneImport(v, h, new_, j);
  }

  /** A module or script that is linked stays linked when one of its dependencies is upgraded. */
  lemma StaysLinked(v: View, deps: DependencyMap, id: ModuleId, new_: CompiledModule)
    requires CalleesOk(v) && id in deps && Upgrade(deps[id], new_) && Linked(v, deps)
    ensures Linked(v, deps[id := new_])
  {
    forall h | 0 <= h < |TablesOf(v).functionHandles| ensures FormKept(v, id, new_, h) {
      var mod := FunctionHandleAt(TablesOf(v), h).mod;
      assert FunctionLinks(v, deps, h);
      if !IsSelf(v, mod) && ModuleAt(TablesOf(v), mod) == id {
        var i: nat :| ImportsFunction(v, h, deps[id], i);
        ImportStaysKept(v, h, deps[id], new_, i);
      }
    }
    StaysLinkedIff(v, deps, id, new_);
  }

  /** If all instantiations have arguments, there is only one form. */
  lemma FilledUpgrade(old_: CompiledModule, new_: CompiledModule)
    requires Keeps(old_, new_) && SignaturesOk(ModuleTables(old_)) && SignaturesOk(ModuleTables(new_))
    ensures Upgrade(old_, new_)
  {
    forall i, j |
      && 0 <= i < |old_.functionDefs| && Usable(old_, i)
      && 0 <= j < |new_.functionDefs| && DefinedFunction(new_, j) == DefinedFunction(old_, i)
      ensures SameFunctionForm(ModuleTables(old_), HandleOf(old_, i), ModuleTables(new_), HandleOf(new_, j))
    {
      assert FunctionRemains(old_, i, new_);
      var k: nat :| FunctionKept(old_, i, new_, k);
      assert k == j by {
        assert DefinedFunction(new_, k) == DefinedFunction(new_, j);
      }
      FilledFunctionForm(ModuleTables(old_), HandleOf(old_, i), ModuleTables(new_), HandleOf(new_, j));
    }
  }

  lemma FilledFunctionForm(a: Tables, f: FunctionHandle, b: Tables, g: FunctionHandle)
    requires SignaturesOk(a) && SignaturesOk(b)
    requires TypesOf(a, SignatureAt(a, f.parameters)) == TypesOf(b, SignatureAt(b, g.parameters))
    requires TypesOf(a, SignatureAt(a, f.return_)) == TypesOf(b, SignatureAt(b, g.return_))
    ensures SameFunctionForm(a, f, b, g)
  {
    FilledSignature(a, SignatureAt(a, f.parameters), b, SignatureAt(b, g.parameters));
    FilledSignature(a, SignatureAt(a, f.return_), b, SignatureAt(b, g.return_));
  }

  lemma FilledSignature(a: Tables, ts: seq<SignatureToken>, b: Tables, us: seq<SignatureToken>)
    requires TokensOk(ts) && TokensOk(us) && TypesOf(a, ts) == TypesOf(b, us)
    ensures SameForms(ts, us)
  {
    forall i | 0 <= i < |ts| && i < |us| ensures SameForm(ts[i], us[i]) {
      assert TypesOf(a, ts)[i] == TypesOf(b, us)[i];
      FilledForms(a, ts[i], b, us[i]);
    }
  }

  /** Every version can take the place of the one before. */
  ghost predicate UpgradeChain(versions: seq<CompiledModule>) {
    forall i | 0 < i < |versions| :: Upgrade(versions[i - 1], versions[i])
  }

  /** However many upgrades there were, the dependent is still linked. */
  lemma {:induction false} StaysLinkedThrough(v: View, deps: DependencyMap, id: ModuleId, versions: seq<CompiledModule>,
                                              k: nat)
    requires CalleesOk(v) && UpgradeChain(versions) && k < |versions| && Linked(v, deps[id := versions[0]])
    ensures Linked(v, deps[id := versions[k]])
    decreases k
  {
    if k > 0 {
      StaysLinkedThrough(v, deps, id, versions, k - 1);
      StaysLinked(v, deps[id := versions[k - 1]], id, versions[k]);
      assert deps[id := versions[k - 1]][id := versions[k]] == deps[id := versions[k]];
    }
  }

  /**
   After one of the modules that a module or script was checked against was upgraded compatibly, the dependency check
   accepts it again if and only if the upgrade is without effect, or keeps the form of the types that it imports.
   */
  lemma UpgradeAcceptedIff(v: View, modules: seq<CompiledModule>, i: nat, new_: CompiledModule)
    requires CalleesOk(v) && i < |modules| && Keeps(modules[i], new_)
    requires Linked(v, DependencyMapOf(SelfIdOf(v), modules))
    ensures var after := DependencyMapOf(SelfIdOf(v), modules[i := new_]);
            Linked(v, after) <==>
              after == DependencyMapOf(SelfIdOf(v), modules) || FormsKept(v, OwnId(new_), new_)
  {
    var before := DependencyMapOf(SelfIdOf(v), modules);
    MapUpgraded(SelfIdOf(v), modules, i, new_);
    if DependencyMapOf(SelfIdOf(v), modules[i := new_]) != before {
      StaysLinkedIff(v, before, OwnId(new_), new_);
    }
  }

  /**
   The dependency check still accepts a module or script that it accepted, after one of the modules it was checked
   against was upgraded.
   */
  lemma UpgradeIsAccepted(v: View, modules: seq<CompiledModule>, i: nat, new_: CompiledModule)
    requires CalleesOk(v) && i < |modules| && Upgrade(modules[i], new_)
    requires Linked(v, DependencyMapOf(SelfIdOf(v), modules))
    ensures Linked(v, DependencyMapOf(SelfIdOf(v), modules[i := new_]))
  {
    var before := DependencyMapOf(SelfIdOf(v), modules);
    var after := DependencyMapOf(SelfIdOf(v), modules[i := new_]);
    MapUpgraded(SelfIdOf(v), modules, i, new_);
    if after != before {
      StaysLinked(v, before, OwnId(new_), new_);
    }
  }
}
