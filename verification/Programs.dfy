/** Modules that link with each other make up a program, to which the law about abilities applies. */
module Programs {
  import opened Abilities
  import opened FileFormat
  import opened Tables
  import opened Normalized
  import opened Wrappers
  import opened Compatibilities
  import opened Dependencies
  import opened Linker
  import opened TypeAbilities

  // ---------------------------------------------------------------------------------------------
  // Numbering
  // ---------------------------------------------------------------------------------------------

  /** The number of structs that the first `k` modules define. */
  ghost function Offset(modules: seq<CompiledModule>, k: nat): nat
    requires k <= |modules|
  {
    if k == 0 then 0 else Offset(modules, k - 1) + |modules[k - 1].structDefs|
  }

  /** The definitions of the first `k` modules: the module and the number of the definition in it. */
  ghost function Places(modules: seq<CompiledModule>, k: nat): (places: seq<(nat, nat)>)
    requires k <= |modules|
    ensures |places| == Offset(modules, k)
  {
    if k == 0 then []
    else Places(modules, k - 1) + seq(|modules[k - 1].structDefs|, d requires 0 <= d => (k - 1, d))
  }

  ghost predicate IsPlace(modules: seq<CompiledModule>, place: (nat, nat)) {
    place.0 < |modules| && place.1 < |modules[place.0].structDefs|
  }

  ghost function Number(modules: seq<CompiledModule>, place: (nat, nat)): nat
    requires IsPlace(modules, place)
  {
    Offset(modules, place.0) + place.1
  }

  lemma {:induction false} PlaceOfNumber(modules: seq<CompiledModule>, n: nat, g: nat)
    requires n <= |modules| && g < Offset(modules, n)
    ensures IsPlace(modules, Places(modules, n)[g]) && Places(modules, n)[g].0 < n
    ensures Number(modules, Places(modules, n)[g]) == g
    decreases n
  {
    if g < Offset(modules, n - 1) {
      PlaceOfNumber(modules, n - 1, g);
    }
  }

  lemma {:induction false} NumberOfPlace(modules: seq<CompiledModule>, n: nat, place: (nat, nat))
    requires n <= |modules| && IsPlace(modules, place) && place.0 < n
    ensures Number(modules, place) < Offset(modules, n)
    ensures Places(modules, n)[Number(modules, place)] == place
    decreases n
  {
    if place.0 < n - 1 {
      NumberOfPlace(modules, n - 1, place);
    }
  }

  // ---------------------------------------------------------------------------------------------
  // The program
  // ---------------------------------------------------------------------------------------------

  ghost function DefinitionAt(modules: seq<CompiledModule>, place: (nat, nat)): StructDefinition
    requires IsPlace(modules, place)
  {
    modules[place.0].structDefs[place.1]
  }

  ghost function DefinedHandle(modules: seq<CompiledModule>, place: (nat, nat)): StructHandle
    requires IsPlace(modules, place)
  {
    StructHandleAt(ModuleTables(modules[place.0]), DefinitionAt(modules, place).structHandle)
  }

  /** The definition with the name that handle `h` of module `k` gives. */
  ghost predicate Targets(modules: seq<CompiledModule>, k: nat, h: nat, place: (nat, nat))
    requires k < |modules|
  {
    var tables := ModuleTables(modules[k]);
    && IsPlace(modules, place)
    && OwnId(modules[place.0]) == ModuleAt(tables, StructHandleAt(tables, h).mod)
    && DefinedStruct(modules[place.0], place.1) == StructName(tables, h)
  }

  ghost function Link(modules: seq<CompiledModule>, k: nat, h: nat): nat
    requires k < |modules|
  {
    if exists place :: Targets(modules, k, h, place)
    then
      var place :| Targets(modules, k, h, place);
      Number(modules, place)
    else 0
  }

  ghost function LinksOf(modules: seq<CompiledModule>, k: nat): (links: seq<nat>)
    requires k < |modules|
    ensures |links| == |modules[k].structHandles|
    ensures forall h | 0 <= h < |links| :: links[h] == Link(modules, k, h)
  {
    seq(|modules[k].structHandles|, h requires 0 <= h => Link(modules, k, h))
  }

  ghost function RelabelAll(types: seq<SignatureToken>, links: seq<nat>): (r: seq<SignatureToken>)
    ensures |r| == |types| && forall i | 0 <= i < |r| :: r[i] == Relabel(types[i], links)
  {
    seq(|types|, i requires 0 <= i < |types| => Relabel(types[i], links))
  }

  /** The fields of a definition, in terms of the program. */
  ghost function LinkedFields(modules: seq<CompiledModule>, place: (nat, nat)): seq<SignatureToken>
    requires IsPlace(modules, place) && DefinitionAt(modules, place).fieldInformation.Declared?
  {
    RelabelAll(FieldTypes(DefinitionAt(modules, place).fieldInformation.fields), LinksOf(modules, place.0))
  }

  ghost function HandlesOf(modules: seq<CompiledModule>): (handles: seq<StructHandle>)
    ensures |handles| == Offset(modules, |modules|)
    ensures forall g | 0 <= g < |handles| ::
              var place := Places(modules, |modules|)[g];
              IsPlace(modules, place) ==> handles[g] == DefinedHandle(modules, place)
  {
    var places := Places(modules, |modules|);
    seq(|places|, g requires 0 <= g < |places| =>
      if IsPlace(modules, places[g]) then DefinedHandle(modules, places[g]) else StructHandle(0, 0, 0, []))
  }

  /** Struct `g` of the program has fields. */
  ghost predicate HasFields(modules: seq<CompiledModule>, g: nat) {
    && g < Offset(modules, |modules|) && IsPlace(modules, Places(modules, |modules|)[g])
    && DefinitionAt(modules, Places(modules, |modules|)[g]).fieldInformation.Declared?
  }

  /** All structs that the modules define, with their fields. */
  ghost function ProgramOf(modules: seq<CompiledModule>): StructTable {
    StructTable(
      HandlesOf(modules),
      map g: nat | g < Offset(modules, |modules|) && HasFields(modules, g) ::
        LinkedFields(modules, Places(modules, |modules|)[g]))
  }

  ghost function LinkedModulesOf(modules: seq<CompiledModule>): (linked: seq<LinkedModule>)
    ensures |linked| == |modules|
    ensures forall k | 0 <= k < |modules| :: linked[k] == LinkedModule(ModuleTable(modules[k]), LinksOf(modules, k))
  {
    seq(|modules|, k requires 0 <= k < |modules| => LinkedModule(ModuleTable(modules[k]), LinksOf(modules, k)))
  }

  // ---------------------------------------------------------------------------------------------
  // What was checked
  // ---------------------------------------------------------------------------------------------

  /** What the duplication check promises: structs are defined under own handles, and own handles are defined. */
  predicate OwnStructsOk(m: CompiledModule)
    requires DefinitionsWellFormed(m)
  {
    && (forall d | 0 <= d < |m.structDefs| :: m.structHandles[m.structDefs[d].structHandle].mod == m.selfHandle)
    && forall h | 0 <= h < |m.structHandles| && m.structHandles[h].mod == m.selfHandle :: OwnStructDefined(m, h)
  }

  predicate OwnStructDefined(m: CompiledModule, h: nat) {
    exists d :: 0 <= d < |m.structDefs| && m.structDefs[d].structHandle == h
  }

  /** The checks of a module on its own. */
  predicate ModuleChecked(m: CompiledModule) {
    && NamesUnique(m) && DefinitionsWellFormed(m) && OwnStructsOk(m)
    && VerifyFieldAbilities(m) && VerifyPhantoms(m)
  }

  /** Modules with different names that were checked on their own, and against each other. */
  ghost predicate Checked(modules: seq<CompiledModule>) {
    && (forall j, k | 0 <= j < k < |modules| :: OwnId(modules[j]) != OwnId(modules[k]))
    && (forall k | 0 <= k < |modules| :: ModuleChecked(modules[k]))
    && forall k | 0 <= k < |modules| ::
         Linked(ModuleView(modules[k]), DependencyMapOf(Some(OwnId(modules[k])), modules))
  }

  lemma {:induction false} MapMember(self: Option<ModuleId>, modules: seq<CompiledModule>, id: ModuleId)
    returns (j: nat)
    requires id in DependencyMapOf(self, modules)
    ensures j < |modules| && modules[j] == DependencyMapOf(self, modules)[id] && OwnId(modules[j]) == id
    decreases |modules|
  {
    var n := |modules| - 1;
    if Some(OwnId(modules[n])) != self && OwnId(modules[n]) == id {
      j := n;
    } else {
      j := MapMember(self, modules[..n], id);
    }
  }

  lemma TargetUnique(modules: seq<CompiledModule>, k: nat, h: nat, place: (nat, nat), other: (nat, nat))
    requires Checked(modules) && k < |modules| && Targets(modules, k, h, place) && Targets(modules, k, h, other)
    ensures place == other
  {
    assert place.0 == other.0 by {
      assert OwnId(modules[place.0]) == OwnId(modules[other.0]);
    }
    assert ModuleChecked(modules[place.0]);
    assert DefinedStruct(modules[place.0], place.1) == DefinedStruct(modules[place.0], other.1);
  }

  lemma MatchesItself(h: StructHandle)
    ensures StructMatches(h, h)
  {
    forall s: AbilitySet ensures IsSubset(s, s) {
      SubsetIff(s, s);
    }
  }

  /** Every handle of every module links to a definition that matches. */
  lemma TargetFound(modules: seq<CompiledModule>, k: nat, h: nat) returns (place: (nat, nat))
    requires Checked(modules) && k < |modules| && h < |modules[k].structHandles|
    ensures Targets(modules, k, h, place)
    ensures StructMatches(modules[k].structHandles[h], DefinedHandle(modules, place))
  {
    var m := modules[k];
    var v, deps := ModuleView(m), DependencyMapOf(Some(OwnId(m)), modules);
    assert ModuleChecked(m) && Linked(v, deps);
    assert StructLinks(v, deps, h);
    if m.structHandles[h].mod == m.selfHandle {
      assert OwnStructDefined(m, h);
      var d :| 0 <= d < |m.structDefs| && m.structDefs[d].structHandle == h;
      place := (k, d);
      MatchesItself(m.structHandles[h]);
    } else {
      var id := ModuleAt(TablesOf(v), m.structHandles[h].mod);
      var i: nat :| ImportsStruct(v, h, deps[id], i);
      var j := MapMember(Some(OwnId(m)), modules, id);
      place := (j, i);
    }
  }

  lemma LinkIs(modules: seq<CompiledModule>, k: nat, h: nat, place: (nat, nat))
    requires Checked(modules) && k < |modules| && Targets(modules, k, h, place)
    ensures Link(modules, k, h) == Number(modules, place)
  {
    forall other | Targets(modules, k, h, other) ensures other == place {
      TargetUnique(modules, k, h, place, other);
    }
  }

  lemma HandleOfNumber(modules: seq<CompiledModule>, place: (nat, nat))
    requires IsPlace(modules, place)
    ensures Number(modules, place) < |HandlesOf(modules)|
    ensures HandlesOf(modules)[Number(modules, place)] == DefinedHandle(modules, place)
  {
    NumberOfPlace(modules, |modules|, place);
  }

  lemma LinksHold(modules: seq<CompiledModule>, k: nat)
    requires Checked(modules) && k < |modules|
    ensures Links(modules[k].structHandles, HandlesOf(modules), LinksOf(modules, k))
  {
    var local, defined, links := modules[k].structHandles, HandlesOf(modules), LinksOf(modules, k);
    forall h | 0 <= h < |local|
      ensures links[h] < |defined| && StructMatches(local[h], defined[links[h]])
    {
      var place := TargetFound(modules, k, h);
      LinkIs(modules, k, h, place);
      HandleOfNumber(modules, place);
    }
    forall h, i | 0 <= h < |local| && 0 <= i < |local[h].typeParameters|
      ensures local[h].typeParameters[i].isPhantom ==> defined[links[h]].typeParameters[i].isPhantom
    {
      assert StructMatches(local[h], defined[links[h]]);
      assert PhantomCompatible(local[h].typeParameters[i], defined[links[h]].typeParameters[i]);
    }
  }

  lemma OnceDefined(m: CompiledModule)
    requires NamesUnique(m)
    ensures DefinedOnce(m.structDefs)
  {
    forall d, d' | 0 <= d < d' < |m.structDefs| ensures m.structDefs[d].structHandle != m.structDefs[d'].structHandle {
      assert DefinedStruct(m, d) != DefinedStruct(m, d');
    }
  }

  /** Every definition with fields is a struct of the program. */
  lemma DefinitionIsThere(modules: seq<CompiledModule>, place: (nat, nat))
    requires Checked(modules) && IsPlace(modules, place) && DefinitionAt(modules, place).fieldInformation.Declared?
    ensures Number(modules, place) in ProgramOf(modules).fields
    ensures TypeAbilities.Defines(ProgramOf(modules), LinkedModulesOf(modules)[place.0], Number(modules, place),
                    DefinitionAt(modules, place).structHandle)
  {
    var m, h := modules[place.0], DefinitionAt(modules, place).structHandle;
    assert ModuleChecked(m);
    NumberOfPlace(modules, |modules|, place);
    HandleOfNumber(modules, place);
    OnceDefined(m);
    DeclaredAt(m.structDefs, |m.structDefs|, place.1);
    assert HasFields(modules, Number(modules, place));
    assert Targets(modules, place.0, h, place);
    LinkIs(modules, place.0, h, place);
  }

  /** Modules that passed their checks make up a program that links. */
  lemma ModulesAreLinked(modules: seq<CompiledModule>)
    requires Checked(modules)
    ensures LinkedProgram(ProgramOf(modules), LinkedModulesOf(modules))
    ensures forall k | 0 <= k < |modules| :: FieldsOk(LinkedModulesOf(modules)[k].table)
  {
    var program, linked := ProgramOf(modules), LinkedModulesOf(modules);
    forall k | 0 <= k < |modules|
      ensures TableWellFormed(linked[k].table) && FieldsOk(linked[k].table)
      ensures Links(linked[k].table.handles, program.handles, linked[k].links)
    {
      assert ModuleChecked(modules[k]);
      ModuleFieldsOk(modules[k]);
      LinksHold(modules, k);
    }
    forall g | g in program.fields
      ensures exists k, h :: 0 <= k < |linked| && TypeAbilities.Defines(program, linked[k], g, h)
    {
      assert HasFields(modules, g);
      var place := Places(modules, |modules|)[g];
      PlaceOfNumber(modules, |modules|, g);
      DefinitionIsThere(modules, place);
    }
  }

  /**
   The law for compiled modules: if every module of a set passes the checks on its own, and links with the others, then
   a type with ability `a` contains at no depth, through no module, a type without what `a` requires.
   */
  lemma NothingHidesInModules(
    modules: seq<CompiledModule>, chain: seq<SignatureToken>, constraints: seq<AbilitySet>, a: Ability)
    requires Checked(modules) && ContainmentChain(ProgramOf(modules), chain) && |chain| > 1
    requires WellFormed(HandlesOf(modules), chain[0], |constraints|)
    requires Has(HandlesOf(modules), chain[0], constraints, a)
    ensures WellFormed(HandlesOf(modules), chain[|chain| - 1], |constraints|)
    ensures Has(HandlesOf(modules), chain[|chain| - 1], constraints, Requires(a))
  {
    ModulesAreLinked(modules);
    NothingHidesInProgram(ProgramOf(modules), LinkedModulesOf(modules), chain, constraints, a);
  }
}
