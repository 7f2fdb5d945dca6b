/** Which new versions of a module all its dependents can use: those that keep what others use, and no more. */
module Dependents {
  import opened Abilities
  import opened Bytecodes
  import opened FileFormat
  import opened Tables
  import opened Normalized
  import opened Wrappers
  import opened Compatibilities
  import opened Dependencies
  import opened Upgrades

  // ---------------------------------------------------------------------------------------------
  // Larger tables
  // ---------------------------------------------------------------------------------------------

  /** What the bounds check promises of the handles. */
  predicate HandlesInBounds(m: CompiledModule) {
    && m.selfHandle < |m.moduleHandles|
    && (forall h | 0 <= h < |m.moduleHandles| ::
          m.moduleHandles[h].address < |m.addressIdentifiers| && m.moduleHandles[h].name < |m.identifiers|)
    && (forall h | 0 <= h < |m.structHandles| ::
          m.structHandles[h].mod < |m.moduleHandles| && m.structHandles[h].name < |m.identifiers|)
    && forall h | 0 <= h < |m.functionHandles| ::
         m.functionHandles[h].mod < |m.moduleHandles| && m.functionHandles[h].name < |m.identifiers|
  }

  /** The tables with one more module in them, and other functions. */
  predicate Extends(a: CompiledModule, b: Tables) {
    && a.moduleHandles <= b.moduleHandles && a.structHandles == b.structHandles && a.signatures == b.signatures
    && a.identifiers <= b.identifiers && a.addressIdentifiers <= b.addressIdentifiers
  }

  lemma SameModule(a: CompiledModule, b: Tables, h: nat)
    requires HandlesInBounds(a) && Extends(a, b) && h < |a.moduleHandles|
    ensures ModuleAt(b, h) == ModuleAt(ModuleTables(a), h)
  {
  }

  lemma SameStruct(a: CompiledModule, b: Tables, h: nat)
    requires HandlesInBounds(a) && Extends(a, b)
    ensures StructHandleAt(b, h) == StructHandleAt(ModuleTables(a), h)
    ensures StructName(b, h) == StructName(ModuleTables(a), h)
    ensures ModuleAt(b, StructHandleAt(b, h).mod) == ModuleAt(ModuleTables(a), StructHandleAt(b, h).mod)
  {
    assert 0 < |a.moduleHandles| && 0 < |a.identifiers| by {
      assert a.moduleHandles[a.selfHandle].name < |a.identifiers|;
    }
    SameModule(a, b, StructHandleAt(b, h).mod);
  }

  lemma {:induction false} SameType(a: CompiledModule, b: Tables, t: SignatureToken)
    requires HandlesInBounds(a) && Extends(a, b)
    ensures TypeOf(b, t) == TypeOf(ModuleTables(a), t)
    decreases t, 0
  {
    match t
    case Vector(x) => SameType(a, b, x);
    case Reference(x) => SameType(a, b, x);
    case MutableReference(x) => SameType(a, b, x);
    case Struct(h) => SameStruct(a, b, h);
    case StructInstantiation(h, xs) =>
      SameStruct(a, b, h);
      AllSameTypes(a, b, xs);
    case _ =>
  }

  lemma {:induction false} AllSameTypes(a: CompiledModule, b: Tables, ts: seq<SignatureToken>)
    requires HandlesInBounds(a) && Extends(a, b)
    ensures TypesOf(b, ts) == TypesOf(ModuleTables(a), ts)
    decreases ts, 1
  {
    forall i | 0 <= i < |ts| ensures TypesOf(b, ts)[i] == TypesOf(ModuleTables(a), ts)[i] {
      SameType(a, b, ts[i]);
    }
  }

  // ---------------------------------------------------------------------------------------------
  // Dependents
  // ---------------------------------------------------------------------------------------------

  /** A module that imports all structs of the other, and the given functions. */
  function Importer(
    m: CompiledModule, self: ModuleId, handles: seq<FunctionHandle>, defs: seq<FunctionDefinition>): CompiledModule
  {
    CompiledModule(
      m.version, |m.moduleHandles|,
      m.moduleHandles + [ModuleHandle(|m.addressIdentifiers|, |m.identifiers|)],
      m.structHandles, handles, [], [], [], [], [],
      m.signatures, m.identifiers + [self.name], m.addressIdentifiers + [self.address], [], [], defs)
  }

  function StructImporter(m: CompiledModule, self: ModuleId): View {
    ModuleView(Importer(m, self, [], []))
  }

  /** The function that calls the imported one; it is for scripts if that is. */
  function Caller(m: CompiledModule, i: nat): FunctionDefinition
    requires i < |m.functionDefs|
  {
    FunctionDefinition(
      1, if m.functionDefs[i].visibility == Script then Script else Public, [], Some(CodeUnit(0, [Call(0)])))
  }

  function FunctionImporter(m: CompiledModule, self: ModuleId, i: nat): View
    requires i < |m.functionDefs|
  {
    var own := FunctionHandle(|m.moduleHandles|, |m.identifiers|, |m.signatures|, |m.signatures|, []);
    ModuleView(Importer(m, self, [HandleOf(m, i), own], [Caller(m, i)]))
  }

  /** The module is linked with its dependencies, and its definitions are in order. */
  ghost predicate Published(m: CompiledModule, deps: DependencyMap) {
    && HandlesInBounds(m) && NamesUnique(m) && OwnId(m) !in deps && Linked(ModuleView(m), deps)
    && (forall i | 0 <= i < |m.functionDefs| ::
          m.functionDefs[i].function_ < |m.functionHandles| && HandleOf(m, i).mod == m.selfHandle)
    && (forall i | 0 <= i < |m.structDefs| ::
          && m.structDefs[i].structHandle < |m.structHandles|
          && m.structHandles[m.structDefs[i].structHandle].mod == m.selfHandle)
    && forall h | 0 <= h < |m.structHandles| && m.structHandles[h].mod == m.selfHandle :: DefinesStruct(m, h)
  }

  ghost predicate DefinesStruct(m: CompiledModule, h: nat) {
    exists i: nat :: i < |m.structDefs| && m.structDefs[i].structHandle == h
  }

  /** The view has the tables of the module, and a name of its own. */
  predicate Imports(v: View, m: CompiledModule, self: ModuleId) {
    && v.ModuleView? && Extends(m, TablesOf(v)) && v.m.selfHandle == |m.moduleHandles|
    && |v.m.moduleHandles| == |m.moduleHandles| + 1 && OwnId(v.m) == self
  }

  lemma ImporterImports(
    m: CompiledModule, self: ModuleId, handles: seq<FunctionHandle>, defs: seq<FunctionDefinition>)
    ensures Imports(ModuleView(Importer(m, self, handles, defs)), m, self)
  {
  }

  // ---------------------------------------------------------------------------------------------
  // When they link
  // ---------------------------------------------------------------------------------------------

  lemma ModulesLink(v: View, m: CompiledModule, self: ModuleId, deps: DependencyMap, n: CompiledModule, h: nat)
    requires Published(m, deps) && Imports(v, m, self) && h < |v.m.moduleHandles|
    ensures ModuleLinks(v, deps[OwnId(m) := n], h)
  {
    if h < |m.moduleHandles| {
      SameModule(m, TablesOf(v), h);
      assert ModuleLinks(ModuleView(m), deps, h);
    }
  }

  /** The version has the struct of the handle, and it matches. */
  ghost predicate HasStruct(m: CompiledModule, h: nat, n: CompiledModule) {
    exists j: nat :: ImportsStruct(ModuleView(m), h, n, j)
  }

  lemma StructsLink(v: View, m: CompiledModule, self: ModuleId, deps: DependencyMap, n: CompiledModule, h: nat)
    requires Published(m, deps) && Imports(v, m, self) && h < |m.structHandles|
    ensures StructLinks(v, deps[OwnId(m) := n], h) <==> (m.structHandles[h].mod == m.selfHandle ==> HasStruct(m, h, n))
  {
    SameStruct(m, TablesOf(v), h);
    assert forall x: CompiledModule, j: nat :: ImportsStruct(v, h, x, j) <==> ImportsStruct(ModuleView(m), h, x, j);
    if m.structHandles[h].mod != m.selfHandle {
      assert StructLinks(ModuleView(m), deps, h);
    }
  }

  /** All structs of the module are still there. */
  ghost predicate HasStructs(m: CompiledModule, n: CompiledModule) {
    forall h | 0 <= h < |m.structHandles| && m.structHandles[h].mod == m.selfHandle :: HasStruct(m, h, n)
  }

  lemma StructImporterLinksIff(m: CompiledModule, self: ModuleId, deps: DependencyMap, n: CompiledModule)
    requires Published(m, deps)
    ensures Linked(StructImporter(m, self), deps[OwnId(m) := n]) <==> HasStructs(m, n)
  {
    var v, deps' := StructImporter(m, self), deps[OwnId(m) := n];
    ImporterImports(m, self, [], []);
    forall h | 0 <= h < |TablesOf(v).moduleHandles| ensures ModuleLinks(v, deps', h) {
      ModulesLink(v, m, self, deps, n, h);
    }
    forall h | 0 <= h < |m.structHandles|
      ensures StructLinks(v, deps', h) <==> (m.structHandles[h].mod == m.selfHandle ==> HasStruct(m, h, n))
    {
      StructsLink(v, m, self, deps, n, h);
    }
  }

  /** The version has the function, others may call it, and it is for scripts only if it was. */
  ghost predicate HasFunction(v: View, m: CompiledModule, i: nat, n: CompiledModule)
    requires i < |m.functionDefs|
  {
    && (exists j: nat :: ImportsFunction(v, 0, n, j))
    && (m.functionDefs[i].visibility == Script || forall j: nat :: !ForeignScript(v, 0, n, j))
  }

  lemma LinksTo(v: View, deps: DependencyMap, n: CompiledModule, h: nat)
    requires !IsSelf(v, FunctionHandleAt(TablesOf(v), h).mod)
    requires var id := ModuleAt(TablesOf(v), FunctionHandleAt(TablesOf(v), h).mod); id in deps && deps[id] == n
    ensures FunctionLinks(v, deps, h) <==> exists j: nat :: ImportsFunction(v, h, n, j)
    ensures IsScript(v, deps, h) <==> exists j: nat :: ForeignScript(v, h, n, j)
  {
  }

  lemma FunctionsLink(m: CompiledModule, self: ModuleId, i: nat, deps: DependencyMap, n: CompiledModule)
    requires Published(m, deps) && i < |m.functionDefs|
    ensures var v, deps' := FunctionImporter(m, self, i), deps[OwnId(m) := n];
            && FunctionLinks(v, deps', 1)
            && (FunctionLinks(v, deps', 0) && ScriptCallsOk(v, deps') <==> HasFunction(v, m, i, n))
  {
    var v, deps' := FunctionImporter(m, self, i), deps[OwnId(m) := n];
    var own := FunctionHandle(|m.moduleHandles|, |m.identifiers|, |m.signatures|, |m.signatures|, []);
    ImporterImports(m, self, [HandleOf(m, i), own], [Caller(m, i)]);
    SameModule(m, TablesOf(v), m.selfHandle);
    assert FunctionHandleAt(TablesOf(v), 0) == HandleOf(m, i) && FunctionHandleAt(TablesOf(v), 1) == own;
    LinksTo(v, deps', n, 0);
    CallerIsOk(v, deps', Caller(m, i));
  }

  lemma CallerIsOk(v: View, deps: DependencyMap, def: FunctionDefinition)
    requires SelfDefs(v) == [def] && def.code == Some(CodeUnit(0, [Call(0)]))
    ensures ScriptCallsOk(v, deps) <==> def.visibility == Script || !IsScript(v, deps, 0)
  {
    assert Callee(v, [Call(0)][0]) == Some(0);
    assert SelfDefs(v)[0] == def;
    if ScriptCallsOk(v, deps) {
      assert CallsOk(v, deps, SelfDefs(v)[0].visibility, SelfDefs(v)[0].code.value.code);
    }
  }

  lemma FunctionImporterLinksIff(
    m: CompiledModule, self: ModuleId, i: nat, deps: DependencyMap, n: CompiledModule)
    requires Published(m, deps) && i < |m.functionDefs|
    ensures Linked(FunctionImporter(m, self, i), deps[OwnId(m) := n]) <==>
            HasStructs(m, n) && HasFunction(FunctionImporter(m, self, i), m, i, n)
  {
    var v, deps' := FunctionImporter(m, self, i), deps[OwnId(m) := n];
    var own := FunctionHandle(|m.moduleHandles|, |m.identifiers|, |m.signatures|, |m.signatures|, []);
    ImporterImports(m, self, [HandleOf(m, i), own], [Caller(m, i)]);
    forall h | 0 <= h < |TablesOf(v).moduleHandles| ensures ModuleLinks(v, deps', h) {
      ModulesLink(v, m, self, deps, n, h);
    }
    forall h | 0 <= h < |m.structHandles|
      ensures StructLinks(v, deps', h) <==> (m.structHandles[h].mod == m.selfHandle ==> HasStruct(m, h, n))
    {
      StructsLink(v, m, self, deps, n, h);
    }
    FunctionsLink(m, self, i, deps, n);
  }

  // ---------------------------------------------------------------------------------------------
  // With the old version
  // ---------------------------------------------------------------------------------------------

  lemma OwnStructMatches(h: StructHandle)
    ensures StructMatches(h, h)
  {
  }

  lemma OldHasStructs(m: CompiledModule, deps: DependencyMap)
    requires Published(m, deps)
    ensures HasStructs(m, m)
  {
    forall h | 0 <= h < |m.structHandles| && m.structHandles[h].mod == m.selfHandle ensures HasStruct(m, h, m) {
      assert DefinesStruct(m, h);
      var i: nat :| i < |m.structDefs| && m.structDefs[i].structHandle == h;
      OwnStructMatches(m.structHandles[h]);
      assert ImportsStruct(ModuleView(m), h, m, i);
    }
  }

  lemma {:induction false} SameFormAsItself(t: SignatureToken)
    ensures SameForm(t, t)
    decreases t
  {
    match t
    case Vector(x) => SameFormAsItself(x);
    case Reference(x) => SameFormAsItself(x);
    case MutableReference(x) => SameFormAsItself(x);
    case StructInstantiation(_, xs) =>
      forall i | 0 <= i < |xs| ensures SameForm(xs[i], xs[i]) {
        SameFormAsItself(xs[i]);
      }
    case _ =>
  }

  lemma SameSignatures(a: CompiledModule, b: Tables, ts: Signature)
    requires HandlesInBounds(a) && Extends(a, b)
    ensures CompareSignatures(b, ts, ModuleTables(a), ts)
  {
    AllSameTypes(a, b, ts);
    forall i | 0 <= i < |ts| ensures SameForm(ts[i], ts[i]) {
      SameFormAsItself(ts[i]);
    }
    SignaturesIff(b, ts, ModuleTables(a), ts);
  }

  /** The importer knows the function by its name. */
  lemma ImportedName(m: CompiledModule, self: ModuleId, i: nat, deps: DependencyMap)
    requires Published(m, deps) && i < |m.functionDefs|
    ensures FunctionName(TablesOf(FunctionImporter(m, self, i)), 0) == DefinedFunction(m, i)
    ensures FunctionHandleAt(TablesOf(FunctionImporter(m, self, i)), 0) == HandleOf(m, i)
  {
  }

  lemma OldHasFunction(m: CompiledModule, self: ModuleId, i: nat, deps: DependencyMap)
    requires Published(m, deps) && i < |m.functionDefs| && m.functionDefs[i].visibility != Private
    requires m.functionDefs[i].visibility == Friend ==> self in FriendsOf(m)
    ensures HasFunction(FunctionImporter(m, self, i), m, i, m)
  {
    var v := FunctionImporter(m, self, i);
    var own := FunctionHandle(|m.moduleHandles|, |m.identifiers|, |m.signatures|, |m.signatures|, []);
    ImporterImports(m, self, [HandleOf(m, i), own], [Caller(m, i)]);
    ImportedName(m, self, i, deps);
    SameSignatures(m, TablesOf(v), SignatureAt(ModuleTables(m), HandleOf(m, i).parameters));
    SameSignatures(m, TablesOf(v), SignatureAt(ModuleTables(m), HandleOf(m, i).return_));
    assert ImportsFunction(v, 0, m, i);
    OneVisibility(v, 0, m, i);
  }

  // ---------------------------------------------------------------------------------------------
  // With the new version
  // ---------------------------------------------------------------------------------------------

  /** If the importer of structs links, then all structs are kept. */
  lemma StructIsKept(m: CompiledModule, deps: DependencyMap, n: CompiledModule, i: nat)
    requires Published(m, deps) && HasStructs(m, n) && i < |m.structDefs|
    ensures StructRemains(m, i, n)
  {
    var h := m.structDefs[i].structHandle;
    assert HasStruct(m, h, n);
    var j: nat :| ImportsStruct(ModuleView(m), h, n, j);
    assert StructKept(m, i, n, j);
  }

  /** If the importer of a function links, then so is the function, as far as the importer can see. */
  lemma FunctionIsKept(m: CompiledModule, self: ModuleId, i: nat, deps: DependencyMap, n: CompiledModule)
    returns (j: nat)
    requires Published(m, deps) && Usable(m, i) && NamesUnique(n)
    requires HasFunction(FunctionImporter(m, self, i), m, i, n)
    requires m.functionDefs[i].visibility != Friend ==> self !in FriendsOf(n)
    ensures j < |n.functionDefs| && DefinedFunction(n, j) == DefinedFunction(m, i)
    ensures StillVisible(m.functionDefs[i].visibility, n.functionDefs[j].visibility)
    ensures n.functionDefs[j].visibility == Friend ==> self in FriendsOf(n)
    ensures FunctionMatches(
              TablesOf(FunctionImporter(m, self, i)), HandleOf(m, i), ModuleTables(n), HandleOf(n, j))
  {
    var v := FunctionImporter(m, self, i);
    ImporterImports(m, self, v.m.functionHandles, v.m.functionDefs);
    ImportedName(m, self, i, deps);
    j :| ImportsFunction(v, 0, n, j);
    OneVisibility(v, 0, n, j);
  }

  lemma MatchingIsSame(a: CompiledModule, b: Tables, f: FunctionHandle, n: CompiledModule, g: FunctionHandle)
    requires HandlesInBounds(a) && Extends(a, b) && FunctionMatches(b, f, ModuleTables(n), g)
    ensures FunctionParametersCompatible(f.typeParameters, g.typeParameters)
    ensures var t, u := ModuleTables(a), ModuleTables(n);
            && TypesOf(t, SignatureAt(t, f.parameters)) == TypesOf(u, SignatureAt(u, g.parameters))
            && TypesOf(t, SignatureAt(t, f.return_)) == TypesOf(u, SignatureAt(u, g.return_))
            && SameFunctionForm(t, f, u, g)
  {
    var t, u := ModuleTables(a), ModuleTables(n);
    AllSameTypes(a, b, SignatureAt(t, f.parameters));
    AllSameTypes(a, b, SignatureAt(t, f.return_));
    SignaturesIff(b, SignatureAt(b, f.parameters), u, SignatureAt(u, g.parameters));
    SignaturesIff(b, SignatureAt(b, f.return_), u, SignatureAt(u, g.return_));
  }

  // ---------------------------------------------------------------------------------------------
  // All dependents
  // ---------------------------------------------------------------------------------------------

  lemma {:induction false} OtherId(ids: seq<ModuleId>, n: nat) returns (id: ModuleId)
    ensures id !in ids && |id.name| >= n
    decreases |ids|
  {
    if ids == [] {
      id := ModuleId([], seq(n, _ => 'x'));
    } else {
      id := OtherId(ids[1..], if n > |ids[0].name| then n else |ids[0].name| + 1);
      assert ids == [ids[0]] + ids[1..];
    }
  }

  /** Everything that is linked with the one version is linked with the other. */
  ghost predicate AllStay(m: CompiledModule, n: CompiledModule, deps: DependencyMap) {
    forall v | CalleesOk(v) && Linked(v, deps[OwnId(m) := m]) :: Linked(v, deps[OwnId(m) := n])
  }

  lemma StructsAreNeeded(m: CompiledModule, n: CompiledModule, deps: DependencyMap)
    requires Published(m, deps) && AllStay(m, n, deps)
    ensures HasStructs(m, n)
  {
    var self := ModuleId([], "");
    OldHasStructs(m, deps);
    StructImporterLinksIff(m, self, deps, m);
    StructImporterLinksIff(m, self, deps, n);
    assert CalleesOk(StructImporter(m, self));
  }

  lemma FunctionIsNeeded(m: CompiledModule, n: CompiledModule, deps: DependencyMap, self: ModuleId, i: nat)
    requires Published(m, deps) && AllStay(m, n, deps) && Usable(m, i)
    requires m.functionDefs[i].visibility == Friend ==> self in FriendsOf(m)
    ensures HasFunction(FunctionImporter(m, self, i), m, i, n)
  {
    var v := FunctionImporter(m, self, i);
    OldHasStructs(m, deps);
    OldHasFunction(m, self, i, deps);
    FunctionImporterLinksIff(m, self, i, deps, m);
    FunctionImporterLinksIff(m, self, i, deps, n);
    assert CalleesOk(v) by {
      assert SelfDefs(v) == [Caller(m, i)] && |TablesOf(v).functionHandles| == 2;
    }
  }

  /** Function `j` of the new version takes the place of function `i`, for a caller with this name. */
  ghost predicate Replaces(m: CompiledModule, i: nat, n: CompiledModule, j: nat, self: ModuleId)
    requires i < |m.functionDefs|
  {
    && j < |n.functionDefs| && DefinedFunction(n, j) == DefinedFunction(m, i)
    && StillVisible(m.functionDefs[i].visibility, n.functionDefs[j].visibility)
    && (n.functionDefs[j].visibility == Friend ==> self in FriendsOf(n))
    && SameFunctionForm(ModuleTables(m), HandleOf(m, i), ModuleTables(n), HandleOf(n, j))
    && var f, g := FunctionOf(m, m.functionDefs[i]), FunctionOf(n, n.functionDefs[j]);
    && f.parameters == g.parameters && f.return_ == g.return_
    && FunctionParametersCompatible(f.typeParameters, g.typeParameters)
  }

  lemma Replacement(m: CompiledModule, n: CompiledModule, deps: DependencyMap, self: ModuleId, i: nat)
    returns (j: nat)
    requires Published(m, deps) && AllStay(m, n, deps) && Usable(m, i) && NamesUnique(n)
    requires if m.functionDefs[i].visibility == Friend then self in FriendsOf(m) else self !in FriendsOf(n)
    ensures Replaces(m, i, n, j, self)
  {
    var v := FunctionImporter(m, self, i);
    FunctionIsNeeded(m, n, deps, self, i);
    j := FunctionIsKept(m, self, i, deps, n);
    ImporterImports(m, self, v.m.functionHandles, v.m.functionDefs);
    MatchingIsSame(m, TablesOf(v), HandleOf(m, i), n, HandleOf(n, j));
  }

  lemma FriendsAreNeeded(m: CompiledModule, n: CompiledModule, deps: DependencyMap, i: nat, j: nat)
    requires Published(m, deps) && AllStay(m, n, deps) && Usable(m, i) && NamesUnique(n)
    requires m.functionDefs[i].visibility == Friend && j < |n.functionDefs|
    requires DefinedFunction(n, j) == DefinedFunction(m, i) && n.functionDefs[j].visibility == Friend
    ensures forall id | id in FriendsOf(m) :: id in FriendsOf(n)
  {
    forall id | id in FriendsOf(m) ensures id in FriendsOf(n) {
      var k := Replacement(m, n, deps, id, i);
      assert k == j by {
        assert DefinedFunction(n, k) == DefinedFunction(n, j);
      }
    }
  }

  lemma FunctionRemainsFor(m: CompiledModule, n: CompiledModule, deps: DependencyMap, i: nat) returns (j: nat)
    requires Published(m, deps) && AllStay(m, n, deps) && Usable(m, i) && NamesUnique(n)
    ensures FunctionKept(m, i, n, j)
    ensures SameFunctionForm(ModuleTables(m), HandleOf(m, i), ModuleTables(n), HandleOf(n, j))
  {
    if m.functionDefs[i].visibility == Friend {
      var self := FriendsOf(m)[0];
      j := Replacement(m, n, deps, self, i);
      if n.functionDefs[j].visibility == Friend {
        FriendsAreNeeded(m, n, deps, i, j);
      }
    } else {
      var self := OtherId(FriendsOf(n), 0);
      j := Replacement(m, n, deps, self, i);
    }
  }

  lemma AllIsNeeded(m: CompiledModule, n: CompiledModule, deps: DependencyMap)
    requires Published(m, deps) && NamesUnique(n) && OwnId(n) == OwnId(m) && AllStay(m, n, deps)
    ensures Upgrade(m, n)
  {
    StructsAreNeeded(m, n, deps);
    forall i | 0 <= i < |m.structDefs| ensures StructRemains(m, i, n) {
      StructIsKept(m, deps, n, i);
    }
    forall i | 0 <= i < |m.functionDefs| && Usable(m, i) ensures FunctionRemains(m, i, n) {
      var j := FunctionRemainsFor(m, n, deps, i);
    }
    forall i, j |
      && 0 <= i < |m.functionDefs| && Usable(m, i)
      && 0 <= j < |n.functionDefs| && DefinedFunction(n, j) == DefinedFunction(m, i)
      ensures SameFunctionForm(ModuleTables(m), HandleOf(m, i), ModuleTables(n), HandleOf(n, j))
    {
      var k := FunctionRemainsFor(m, n, deps, i);
      assert k == j by {
        assert DefinedFunction(n, k) == DefinedFunction(n, j);
      }
    }
  }

  /**
   The exact condition: everything that is linked with a module is linked with a new version of it, if and only if the
   new version keeps all structs and functions that others can use, and writes their types in the same form.
   */
  lemma DependentsStayIff(m: CompiledModule, n: CompiledModule, deps: DependencyMap)
    requires Published(m, deps) && NamesUnique(n) && OwnId(n) == OwnId(m)
    ensures AllStay(m, n, deps) <==> Upgrade(m, n)
  {
    if AllStay(m, n, deps) {
      AllIsNeeded(m, n, deps);
    }
    if Upgrade(m, n) {
      var id := OwnId(m);
      forall v | CalleesOk(v) && Linked(v, deps[id := m]) ensures Linked(v, deps[id := n]) {
        StaysLinked(v, deps[id := m], id, n);
        assert deps[id := m][id := n] == deps[id := n];
      }
    }
  }
}
