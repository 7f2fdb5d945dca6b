/** The dependency check: look-up tables of all dependencies, and a pass over everything that is imported. */
module Linker {
  import opened Bytecodes
  import opened FileFormat
  import opened Tables
  import opened Normalized
  import opened Wrappers
  import opened Dependencies
  import C = Compatibilities

  datatype StatusCode = MissingDependency | LookupFailed | TypeMismatch | CalledScriptVisibleFromNonScriptVisible

  type Key = (ModuleId, Identifier)

  // ---------------------------------------------------------------------------------------------
  // What the tables hold
  // ---------------------------------------------------------------------------------------------

  /** One of the first `k` structs of the module has this name. */
  ghost predicate NamesStruct(m: CompiledModule, k: nat, name: Identifier, i: nat) {
    i < k <= |m.structDefs| && DefinedStruct(m, i) == name
  }

  /** One of the first `k` functions of the module has this name. */
  ghost predicate NamesFunction(m: CompiledModule, k: nat, name: Identifier, i: nat) {
    i < k <= |m.functionDefs| && DefinedFunction(m, i) == name
  }

  ghost predicate NamesCallable(self: Option<ModuleId>, m: CompiledModule, k: nat, name: Identifier, i: nat) {
    NamesFunction(m, k, name, i) && MayBeCalled(self, m, m.functionDefs[i].visibility)
  }

  /** The entry is that of a struct among the first `k`, or there is none. */
  ghost predicate StructEntry(id: ModuleId, m: CompiledModule, k: nat, structs: map<Key, nat>, name: Identifier) {
    if (id, name) in structs then
      exists i: nat :: NamesStruct(m, k, name, i) && structs[(id, name)] == m.structDefs[i].structHandle
    else forall i: nat :: !NamesStruct(m, k, name, i)
  }

  ghost predicate FunctionEntry(
    self: Option<ModuleId>, id: ModuleId, m: CompiledModule, k: nat, functions: map<Key, nat>, name: Identifier)
  {
    if (id, name) in functions then
      exists i: nat :: NamesCallable(self, m, k, name, i) && functions[(id, name)] == m.functionDefs[i].function_
    else forall i: nat :: !NamesCallable(self, m, k, name, i)
  }

  ghost predicate VisibilityEntry(
    id: ModuleId, m: CompiledModule, k: nat, visibilities: map<Key, Visibility>, name: Identifier)
  {
    if (id, name) in visibilities then
      exists i: nat :: NamesFunction(m, k, name, i) && visibilities[(id, name)] == m.functionDefs[i].visibility
    else forall i: nat :: !NamesFunction(m, k, name, i)
  }

  /** Entries of other modules are the same. */
  ghost predicate OthersKept<X(!new)>(id: ModuleId, before: map<Key, X>, after: map<Key, X>) {
    forall key: Key | key.0 != id :: (key in after <==> key in before) && (key in after ==> after[key] == before[key])
  }

  // ---------------------------------------------------------------------------------------------
  // Filling the tables
  // ---------------------------------------------------------------------------------------------

  lemma AddStruct(id: ModuleId, m: CompiledModule, k: nat, structs: map<Key, nat>, name: Identifier)
    requires k < |m.structDefs| && StructEntry(id, m, k, structs, name)
    ensures StructEntry(id, m, k + 1, structs[(id, DefinedStruct(m, k)) := m.structDefs[k].structHandle], name)
  {
    var next := k + 1;
    if name == DefinedStruct(m, k) {
      assert NamesStruct(m, next, name, k);
    } else if (id, name) in structs {
      var i: nat :| NamesStruct(m, k, name, i) && structs[(id, name)] == m.structDefs[i].structHandle;
      assert NamesStruct(m, next, name, i);
    } else {
      forall i: nat ensures !NamesStruct(m, next, name, i) {
        assert !NamesStruct(m, k, name, i);
      }
    }
  }

  method AddStructs(id: ModuleId, m: CompiledModule, before: map<Key, nat>) returns (structs: map<Key, nat>)
    requires forall name :: (id, name) !in before
    ensures forall name :: StructEntry(id, m, |m.structDefs|, structs, name)
    ensures OthersKept(id, before, structs)
  {
    structs := before;
    for k := 0 to |m.structDefs|
      invariant forall name :: StructEntry(id, m, k, structs, name)
      invariant OthersKept(id, before, structs)
    {
      ghost var was, next := structs, k + 1;
      structs := structs[(id, DefinedStruct(m, k)) := m.structDefs[k].structHandle];
      forall name ensures StructEntry(id, m, next, structs, name) {
        AddStruct(id, m, k, was, name);
      }
    }
  }

  function WithFunction(self: Option<ModuleId>, id: ModuleId, m: CompiledModule, k: nat,
                        functions: map<Key, nat>): map<Key, nat>
    requires k < |m.functionDefs|
  {
    if MayBeCalled(self, m, m.functionDefs[k].visibility)
    then functions[(id, DefinedFunction(m, k)) := m.functionDefs[k].function_]
    else functions
  }

  lemma AddFunction(
    self: Option<ModuleId>, id: ModuleId, m: CompiledModule, k: nat, functions: map<Key, nat>, name: Identifier)
    requires k < |m.functionDefs| && FunctionEntry(self, id, m, k, functions, name)
    ensures FunctionEntry(self, id, m, k + 1, WithFunction(self, id, m, k, functions), name)
  {
    var next := k + 1;
    if name == DefinedFunction(m, k) && MayBeCalled(self, m, m.functionDefs[k].visibility) {
      assert NamesCallable(self, m, next, name, k);
    } else if (id, name) in functions {
      var i: nat :| NamesCallable(self, m, k, name, i) && functions[(id, name)] == m.functionDefs[i].function_;
      assert NamesCallable(self, m, next, name, i);
    } else {
      forall i: nat ensures !NamesCallable(self, m, next, name, i) {
        assert !NamesCallable(self, m, k, name, i);
      }
    }
  }

  lemma AddVisibility(id: ModuleId, m: CompiledModule, k: nat, visibilities: map<Key, Visibility>, name: Identifier)
    requires k < |m.functionDefs| && VisibilityEntry(id, m, k, visibilities, name)
    ensures VisibilityEntry(
      id, m, k + 1, visibilities[(id, DefinedFunction(m, k)) := m.functionDefs[k].visibility], name)
  {
    var next := k + 1;
    if name == DefinedFunction(m, k) {
      assert NamesFunction(m, next, name, k);
    } else if (id, name) in visibilities {
      var i: nat :| NamesFunction(m, k, name, i) && visibilities[(id, name)] == m.functionDefs[i].visibility;
      assert NamesFunction(m, next, name, i);
    } else {
      forall i: nat ensures !NamesFunction(m, next, name, i) {
        assert !NamesFunction(m, k, name, i);
      }
    }
  }

  method AddFunctions(
    self: Option<ModuleId>, id: ModuleId, m: CompiledModule, functionsBefore: map<Key, nat>,
    visibilitiesBefore: map<Key, Visibility>)
    returns (functions: map<Key, nat>, visibilities: map<Key, Visibility>)
    requires forall name :: (id, name) !in functionsBefore && (id, name) !in visibilitiesBefore
    ensures forall name :: FunctionEntry(self, id, m, |m.functionDefs|, functions, name)
    ensures forall name :: VisibilityEntry(id, m, |m.functionDefs|, visibilities, name)
    ensures OthersKept(id, functionsBefore, functions) && OthersKept(id, visibilitiesBefore, visibilities)
  {
    functions, visibilities := functionsBefore, visibilitiesBefore;
    for k := 0 to |m.functionDefs|
      invariant forall name :: FunctionEntry(self, id, m, k, functions, name)
      invariant forall name :: VisibilityEntry(id, m, k, visibilities, name)
      invariant OthersKept(id, functionsBefore, functions) && OthersKept(id, visibilitiesBefore, visibilities)
    {
      ghost var f, g, next := functions, visibilities, k + 1;
      visibilities := visibilities[(id, DefinedFunction(m, k)) := m.functionDefs[k].visibility];
      functions := WithFunction(self, id, m, k, functions);
      forall name ensures FunctionEntry(self, id, m, next, functions, name) {
        AddFunction(self, id, m, k, f, name);
      }
      forall name ensures VisibilityEntry(id, m, next, visibilities, name) {
        AddVisibility(id, m, k, g, name);
      }
    }
  }

  /** The tables hold what the module defines. */
  ghost predicate Indexed(
    self: Option<ModuleId>, id: ModuleId, m: CompiledModule, structs: map<Key, nat>, functions: map<Key, nat>,
    foreign: map<Key, Visibility>)
  {
    forall name ::
      && StructEntry(id, m, |m.structDefs|, structs, name)
      && FunctionEntry(self, id, m, |m.functionDefs|, functions, name)
      && VisibilityEntry(id, m, |m.functionDefs|, foreign, name)
  }

  ghost predicate AllIndexed(
    self: Option<ModuleId>, deps: DependencyMap, structs: map<Key, nat>, functions: map<Key, nat>,
    foreign: map<Key, Visibility>)
  {
    && (forall id | id in deps :: Indexed(self, id, deps[id], structs, functions, foreign))
    && forall key: Key | key in structs || key in functions || key in foreign :: key.0 in deps
  }

  lemma IndexedKept(
    self: Option<ModuleId>, id: ModuleId, m: CompiledModule, other: ModuleId,
    structs: map<Key, nat>, functions: map<Key, nat>, foreign: map<Key, Visibility>,
    structs': map<Key, nat>, functions': map<Key, nat>, foreign': map<Key, Visibility>)
    requires Indexed(self, id, m, structs, functions, foreign) && id != other
    requires OthersKept(other, structs, structs') && OthersKept(other, functions, functions')
    requires OthersKept(other, foreign, foreign')
    ensures Indexed(self, id, m, structs', functions', foreign')
  {
    forall name
      ensures StructEntry(id, m, |m.structDefs|, structs', name)
      ensures FunctionEntry(self, id, m, |m.functionDefs|, functions', name)
      ensures VisibilityEntry(id, m, |m.functionDefs|, foreign', name)
    {
      var key: Key := (id, name);
      assert StructEntry(id, m, |m.structDefs|, structs, name);
      assert FunctionEntry(self, id, m, |m.functionDefs|, functions, name);
      assert VisibilityEntry(id, m, |m.functionDefs|, foreign, name);
      assert (key in structs' <==> key in structs) && (key in functions' <==> key in functions);
      assert key in foreign' <==> key in foreign;
    }
  }

  /** Indexes the definitions of all dependencies. */
  method IndexDependencies(self: Option<ModuleId>, deps: DependencyMap)
    returns (structs: map<Key, nat>, functions: map<Key, nat>, foreign: map<Key, Visibility>)
    ensures AllIndexed(self, deps, structs, functions, foreign)
  {
    structs, functions, foreign := map[], map[], map[];
    var work := deps.Keys;
    ghost var done: DependencyMap := map[];
    while work != {}
      invariant work <= deps.Keys && done.Keys == deps.Keys - work && forall id | id in done :: done[id] == deps[id]
      invariant AllIndexed(self, done, structs, functions, foreign)
    {
      var id :| id in work;
      var m := deps[id];
      ghost var s, f, g := structs, functions, foreign;
      structs := AddStructs(id, m, structs);
      functions, foreign := AddFunctions(self, id, m, functions, foreign);
      forall other | other in done ensures Indexed(self, other, done[other], structs, functions, foreign) {
        IndexedKept(self, other, done[other], id, s, f, g, structs, functions, foreign);
      }
      work := work - {id};
      done := done[id := m];
    }
    assert done == deps;
  }

  // ---------------------------------------------------------------------------------------------
  // Visibilities of the functions with a handle
  // ---------------------------------------------------------------------------------------------

  function Owner(v: View, mod: nat): ModuleId {
    ModuleAt(TablesOf(v), mod)
  }

  function FunctionKey(v: View, h: nat): Key {
    (Owner(v, FunctionHandleAt(TablesOf(v), h).mod), FunctionName(TablesOf(v), h))
  }

  predicate IsOwn(v: View, h: nat) {
    IsSelf(v, FunctionHandleAt(TablesOf(v), h).mod)
  }

  /** What the checks before promise: handles are within bounds, and exactly the own ones are defined, once each. */
  ghost predicate ViewOk(v: View) {
    && (forall h | 0 <= h < |TablesOf(v).structHandles| ::
          TablesOf(v).structHandles[h].mod < |TablesOf(v).moduleHandles|)
    && (forall h | 0 <= h < |TablesOf(v).functionHandles| ::
          TablesOf(v).functionHandles[h].mod < |TablesOf(v).moduleHandles|)
    && (forall i | 0 <= i < |SelfDefs(v)| ::
          SelfDefs(v)[i].function_ < |TablesOf(v).functionHandles| && IsOwn(v, SelfDefs(v)[i].function_))
    && (forall i, j | 0 <= i < j < |SelfDefs(v)| :: SelfDefs(v)[i].function_ != SelfDefs(v)[j].function_)
    && forall h: nat | h < |TablesOf(v).functionHandles| && IsOwn(v, h) ::
      exists i: nat :: Defines(v, |SelfDefs(v)|, h, i)
  }

  ghost predicate Defines(v: View, k: nat, h: nat, i: nat) {
    i < k <= |SelfDefs(v)| && SelfDefs(v)[i].function_ == h
  }

  /** The visibilities of the functions that the first `k` definitions define. */
  ghost predicate OwnVisibilities(v: View, k: nat, visibilities: map<nat, Visibility>) {
    && (forall h: nat, i: nat | Defines(v, k, h, i) ::
      h in visibilities && visibilities[h] == SelfDefs(v)[i].visibility)
    && forall h | h in visibilities :: exists i: nat :: Defines(v, k, h, i)
  }

  /** The visibilities of the own functions, and of those of the first `k` imported ones that are defined. */
  ghost predicate HandleVisibility(
    v: View, foreign: map<Key, Visibility>, visibilities: map<nat, Visibility>, k: nat, h: nat)
  {
    if IsOwn(v, h) then
      forall i: nat | Defines(v, |SelfDefs(v)|, h, i) ::
        h in visibilities && visibilities[h] == SelfDefs(v)[i].visibility
    else
      && (h in visibilities ==> FunctionKey(v, h) in foreign && visibilities[h] == foreign[FunctionKey(v, h)])
      && (h < k && FunctionKey(v, h) in foreign ==> h in visibilities)
  }

  method OwnFunctions(v: View) returns (visibilities: map<nat, Visibility>)
    requires ViewOk(v)
    ensures OwnVisibilities(v, |SelfDefs(v)|, visibilities)
  {
    visibilities := map[];
    for k := 0 to |SelfDefs(v)|
      invariant OwnVisibilities(v, k, visibilities)
    {
      NextOwn(v, k, visibilities);
      visibilities := visibilities[SelfDefs(v)[k].function_ := SelfDefs(v)[k].visibility];
    }
  }

  lemma NextOwn(v: View, k: nat, was: map<nat, Visibility>)
    requires k < |SelfDefs(v)| && OwnVisibilities(v, k, was)
    requires forall i | 0 <= i < k :: SelfDefs(v)[i].function_ != SelfDefs(v)[k].function_
    ensures OwnVisibilities(v, k + 1, was[SelfDefs(v)[k].function_ := SelfDefs(v)[k].visibility])
  {
    var next, visibilities := k + 1, was[SelfDefs(v)[k].function_ := SelfDefs(v)[k].visibility];
    forall h: nat, i: nat | Defines(v, next, h, i)
      ensures h in visibilities && visibilities[h] == SelfDefs(v)[i].visibility
    {
      assert i < k ==> Defines(v, k, h, i);
    }
    forall h | h in visibilities ensures exists i: nat :: Defines(v, next, h, i) {
      if h in was {
        var i: nat :| Defines(v, k, h, i);
        assert Defines(v, next, h, i);
      } else {
        assert Defines(v, next, h, k);
      }
    }
  }

  lemma OwnFirst(v: View, foreign: map<Key, Visibility>, visibilities: map<nat, Visibility>, h: nat)
    requires ViewOk(v) && OwnVisibilities(v, |SelfDefs(v)|, visibilities)
    ensures HandleVisibility(v, foreign, visibilities, 0, h)
  {
    assert h in visibilities ==> IsOwn(v, h);
  }

  lemma NextVisibility(v: View, foreign: map<Key, Visibility>, was: map<nat, Visibility>, k: nat, h: nat)
    requires HandleVisibility(v, foreign, was, k, h)
    ensures HandleVisibility(v, foreign, WithForeign(v, foreign, was, k), k + 1, h)
  {
  }

  function WithForeign(v: View, foreign: map<Key, Visibility>, visibilities: map<nat, Visibility>, k: nat)
    : map<nat, Visibility>
  {
    if !IsOwn(v, k) && FunctionKey(v, k) in foreign then visibilities[k := foreign[FunctionKey(v, k)]]
    else visibilities
  }

  method FunctionVisibilities(v: View, foreign: map<Key, Visibility>) returns (visibilities: map<nat, Visibility>)
    requires ViewOk(v)
    ensures forall h: nat :: HandleVisibility(v, foreign, visibilities, |TablesOf(v).functionHandles|, h)
  {
    visibilities := OwnFunctions(v);
    forall h: nat ensures HandleVisibility(v, foreign, visibilities, 0, h) {
      OwnFirst(v, foreign, visibilities, h);
    }
    for k := 0 to |TablesOf(v).functionHandles|
      invariant forall h: nat :: HandleVisibility(v, foreign, visibilities, k, h)
    {
      ghost var was, next := visibilities, k + 1;
      visibilities := WithForeign(v, foreign, visibilities, k);
      forall h: nat ensures HandleVisibility(v, foreign, visibilities, next, h) {
        NextVisibility(v, foreign, was, k, h);
      }
    }
  }

  // ---------------------------------------------------------------------------------------------
  // The check
  // ---------------------------------------------------------------------------------------------

  method VerifyImportedModules(v: View, deps: DependencyMap) returns (r: Result<(), StatusCode>)
    ensures r.Ok? <==> forall h | 0 <= h < |TablesOf(v).moduleHandles| :: ModuleLinks(v, deps, h)
  {
    for h := 0 to |TablesOf(v).moduleHandles|
      invariant forall i | 0 <= i < h :: ModuleLinks(v, deps, i)
    {
      if !IsSelf(v, h) && ModuleAt(TablesOf(v), h) !in deps {
        assert !ModuleLinks(v, deps, h);
        return Err(MissingDependency);
      }
    }
    r := Ok(());
  }

  function StructKey(v: View, h: nat): Key {
    (Owner(v, StructHandleAt(TablesOf(v), h).mod), StructName(TablesOf(v), h))
  }

  /** The table decides whether a struct links. */
  lemma StructDecided(v: View, deps: DependencyMap, structs: map<Key, nat>, h: nat)
    requires !IsSelf(v, StructHandleAt(TablesOf(v), h).mod) && StructKey(v, h).0 in deps
    requires var (id, name) := StructKey(v, h);
             NamesUnique(deps[id]) && StructEntry(id, deps[id], |deps[id].structDefs|, structs, name)
    ensures var key := StructKey(v, h);
            StructLinks(v, deps, h) <==>
            && key in structs
            && StructMatches(StructHandleAt(TablesOf(v), h), StructHandleAt(ModuleTables(deps[key.0]), structs[key]))
  {
    var (id, name) := StructKey(v, h);
    var m := deps[id];
    if (id, name) in structs {
      var i: nat :| NamesStruct(m, |m.structDefs|, name, i) && structs[(id, name)] == m.structDefs[i].structHandle;
      if StructLinks(v, deps, h) {
        var j: nat :| ImportsStruct(v, h, m, j);
        assert i == j;
      } else {
        assert !ImportsStruct(v, h, m, i);
      }
    } else if StructLinks(v, deps, h) {
      var j: nat :| ImportsStruct(v, h, m, j);
      assert NamesStruct(m, |m.structDefs|, name, j);
    }
  }

  method VerifyImportedStructs(v: View, deps: DependencyMap, structs: map<Key, nat>) returns (r: Result<(), StatusCode>)
    requires ViewOk(v) && forall h | 0 <= h < |TablesOf(v).moduleHandles| :: ModuleLinks(v, deps, h)
    requires forall id | id in deps :: NamesUnique(deps[id])
    requires forall id, name | id in deps :: StructEntry(id, deps[id], |deps[id].structDefs|, structs, name)
    ensures r.Ok? <==> forall h | 0 <= h < |TablesOf(v).structHandles| :: StructLinks(v, deps, h)
  {
    var tables := TablesOf(v);
    for h := 0 to |tables.structHandles|
      invariant forall i | 0 <= i < h :: StructLinks(v, deps, i)
    {
      if IsSelf(v, tables.structHandles[h].mod) {
        continue;
      }
      assert ModuleLinks(v, deps, tables.structHandles[h].mod);
      var key := StructKey(v, h);
      StructDecided(v, deps, structs, h);
      if key !in structs {
        return Err(LookupFailed);
      }
      if !StructMatches(tables.structHandles[h], StructHandleAt(ModuleTables(deps[key.0]), structs[key])) {
        return Err(TypeMismatch);
      }
    }
    r := Ok(());
  }

  /** The table decides whether a function links. */
  lemma FunctionDecided(v: View, deps: DependencyMap, functions: map<Key, nat>, h: nat)
    requires !IsOwn(v, h) && FunctionKey(v, h).0 in deps
    requires var (id, name) := FunctionKey(v, h);
             NamesUnique(deps[id]) && FunctionEntry(SelfIdOf(v), id, deps[id], |deps[id].functionDefs|, functions, name)
    ensures var key := FunctionKey(v, h);
            FunctionLinks(v, deps, h) <==>
            && key in functions
            && FunctionMatches(
                 TablesOf(v), FunctionHandleAt(TablesOf(v), h),
                 ModuleTables(deps[key.0]), FunctionHandleAt(ModuleTables(deps[key.0]), functions[key]))
  {
    var (id, name) := FunctionKey(v, h);
    var m, self := deps[id], SelfIdOf(v);
    if (id, name) in functions {
      var i: nat :| NamesCallable(self, m, |m.functionDefs|, name, i)
        && functions[(id, name)] == m.functionDefs[i].function_;
      if FunctionLinks(v, deps, h) {
        var j: nat :| ImportsFunction(v, h, m, j);
        assert i == j;
      } else {
        assert !ImportsFunction(v, h, m, i);
      }
    } else if FunctionLinks(v, deps, h) {
      var j: nat :| ImportsFunction(v, h, m, j);
      assert NamesCallable(self, m, |m.functionDefs|, name, j);
    }
  }

  method VerifyImportedFunctions(v: View, deps: DependencyMap, functions: map<Key, nat>)
    returns (r: Result<(), StatusCode>)
    requires ViewOk(v) && forall h | 0 <= h < |TablesOf(v).moduleHandles| :: ModuleLinks(v, deps, h)
    requires forall id | id in deps :: NamesUnique(deps[id])
    requires forall id, name | id in deps ::
               FunctionEntry(SelfIdOf(v), id, deps[id], |deps[id].functionDefs|, functions, name)
    ensures r.Ok? <==> forall h | 0 <= h < |TablesOf(v).functionHandles| :: FunctionLinks(v, deps, h)
  {
    var tables := TablesOf(v);
    for h := 0 to |tables.functionHandles|
      invariant forall i | 0 <= i < h :: FunctionLinks(v, deps, i)
    {
      var handle := tables.functionHandles[h];
      if IsSelf(v, handle.mod) {
        continue;
      }
      assert ModuleLinks(v, deps, handle.mod);
      var key := FunctionKey(v, h);
      FunctionDecided(v, deps, functions, h);
      if key !in functions {
        return Err(LookupFailed);
      }
      var owner := ModuleTables(deps[key.0]);
      var def := FunctionHandleAt(owner, functions[key]);
      if !C.FunctionParametersCompatible(handle.typeParameters, def.typeParameters) {
        return Err(TypeMismatch);
      }
      if !CompareSignatures(tables, SignatureAt(tables, handle.parameters), owner, SignatureAt(owner, def.parameters)) {
        return Err(TypeMismatch);
      }
      if !CompareSignatures(tables, SignatureAt(tables, handle.return_), owner, SignatureAt(owner, def.return_)) {
        return Err(TypeMismatch);
      }
    }
    r := Ok(());
  }

  /** The visibility of a function that links. */
  lemma VisibilityDecided(
    v: View, deps: DependencyMap, foreign: map<Key, Visibility>, visibilities: map<nat, Visibility>, h: nat)
    requires ViewOk(v) && h < |TablesOf(v).functionHandles| && FunctionLinks(v, deps, h)
    requires HandleVisibility(v, foreign, visibilities, |TablesOf(v).functionHandles|, h)
    requires forall id | id in deps :: NamesUnique(deps[id])
    requires forall id, name | id in deps :: VisibilityEntry(id, deps[id], |deps[id].functionDefs|, foreign, name)
    ensures h in visibilities && (visibilities[h] == Script <==> IsScript(v, deps, h))
  {
    if IsOwn(v, h) {
      var i: nat :| Defines(v, |SelfDefs(v)|, h, i);
      assert visibilities[h] == Script <==> OwnScript(v, h, i);
      forall j: nat | OwnScript(v, h, j) ensures j == i {
      }
    } else {
      var (id, name) := FunctionKey(v, h);
      var m := deps[id];
      var j: nat :| ImportsFunction(v, h, m, j);
      assert VisibilityEntry(id, m, |m.functionDefs|, foreign, name);
      assert NamesFunction(m, |m.functionDefs|, name, j);
      var i: nat :| NamesFunction(m, |m.functionDefs|, name, i) && foreign[(id, name)] == m.functionDefs[i].visibility;
      assert visibilities[h] == Script <==> ForeignScript(v, h, m, i);
      forall l: nat | ForeignScript(v, h, m, l) ensures l == i {
      }
    }
  }

  /** The visibility of every function with a handle is known. */
  ghost predicate Known(v: View, deps: DependencyMap, visibilities: map<nat, Visibility>) {
    forall h: nat | h < |TablesOf(v).functionHandles| ::
      h in visibilities && (visibilities[h] == Script <==> IsScript(v, deps, h))
  }

  ghost predicate CodeOk(v: View, code: seq<Bytecode>) {
    forall k | 0 <= k < |code| && Callee(v, code[k]).Some? :: Callee(v, code[k]).value < |TablesOf(v).functionHandles|
  }

  method VerifyScriptVisibility(
    v: View, current: Visibility, code: seq<Bytecode>, visibilities: map<nat, Visibility>, ghost deps: DependencyMap)
    returns (r: Result<(), StatusCode>)
    requires CodeOk(v, code) && Known(v, deps, visibilities)
    ensures r.Ok? <==> CallsOk(v, deps, current, code)
  {
    for k := 0 to |code|
      invariant current == Script ||
                forall i | 0 <= i < k && Callee(v, code[i]).Some? :: !IsScript(v, deps, Callee(v, code[i]).value)
    {
      var callee := Callee(v, code[k]);
      if callee.None? {
        continue;
      }
      if current != Script && visibilities[callee.value] == Script {
        assert IsScript(v, deps, callee.value);
        return Err(CalledScriptVisibleFromNonScriptVisible);
      }
    }
    r := Ok(());
  }

  method VerifyAllScriptVisibility(v: View, visibilities: map<nat, Visibility>, ghost deps: DependencyMap)
    returns (r: Result<(), StatusCode>)
    requires Known(v, deps, visibilities)
    requires forall i | 0 <= i < |SelfDefs(v)| && SelfDefs(v)[i].code.Some? :: CodeOk(v, SelfDefs(v)[i].code.value.code)
    requires v.ScriptView? ==> CodeOk(v, v.s.code.code)
    ensures r.Ok? <==> ScriptCallsOk(v, deps)
  {
    if v.ScriptView? {
      r := VerifyScriptVisibility(v, Script, v.s.code.code, visibilities, deps);
      return;
    }
    var defs := SelfDefs(v);
    for i := 0 to |defs|
      invariant forall j | 0 <= j < i && defs[j].code.Some? ::
                  CallsOk(v, deps, defs[j].visibility, defs[j].code.value.code)
    {
      if defs[i].code.None? {
        continue;
      }
      var _ :- VerifyScriptVisibility(v, defs[i].visibility, defs[i].code.value.code, visibilities, deps);
    }
    r := Ok(());
  }

  /** The dependencies by name, without the module itself; of several with the same name the last counts. */
  function DependencyMapOf(self: Option<ModuleId>, modules: seq<CompiledModule>): DependencyMap {
    if modules == [] then map[]
    else
      var before := DependencyMapOf(self, modules[..|modules| - 1]);
      var last := modules[|modules| - 1];
      if Some(OwnId(last)) == self then before else before[OwnId(last) := last]
  }

  /** Module `i` is the last one with the name. */
  ghost predicate IsLast(modules: seq<CompiledModule>, id: ModuleId, i: nat) {
    && i < |modules| && OwnId(modules[i]) == id
    && forall j | i < j < |modules| :: OwnId(modules[j]) != id
  }

  /** A dependency is found by its name, unless it is the module itself; and it is the last one with the name. */
  lemma {:induction false} MapIff(self: Option<ModuleId>, modules: seq<CompiledModule>, id: ModuleId, m: CompiledModule)
    ensures id in DependencyMapOf(self, modules) && DependencyMapOf(self, modules)[id] == m <==>
            self != Some(id) && exists i: nat :: IsLast(modules, id, i) && modules[i] == m
    decreases |modules|
  {
    if modules != [] {
      var n := |modules| - 1;
      MapIff(self, modules[..n], id, m);
      if OwnId(modules[n]) == id {
        assert IsLast(modules, id, n);
      } else {
        assert forall i: nat :: IsLast(modules, id, i) <==> IsLast(modules[..n], id, i);
      }
    }
  }

  /** Whether a module or script links with its dependencies. */
  method Verify(v: View, modules: seq<CompiledModule>) returns (r: Result<(), StatusCode>)
    requires ViewOk(v) && forall i | 0 <= i < |modules| :: NamesUnique(modules[i])
    requires forall i | 0 <= i < |SelfDefs(v)| && SelfDefs(v)[i].code.Some? :: CodeOk(v, SelfDefs(v)[i].code.value.code)
    requires v.ScriptView? ==> CodeOk(v, v.s.code.code)
    ensures r.Ok? <==> Linked(v, DependencyMapOf(SelfIdOf(v), modules))
  {
    var deps := DependencyMapOf(SelfIdOf(v), modules);
    MapUnique(SelfIdOf(v), modules);
    var structs, functions, foreign := IndexDependencies(SelfIdOf(v), deps);
    var visibilities := FunctionVisibilities(v, foreign);
    IndexedEntries(SelfIdOf(v), deps, structs, functions, foreign);
    var _ :- VerifyImportedModules(v, deps);
    var _ :- VerifyImportedStructs(v, deps, structs);
    var _ :- VerifyImportedFunctions(v, deps, functions);
    forall h: nat | h < |TablesOf(v).functionHandles|
      ensures h in visibilities && (visibilities[h] == Script <==> IsScript(v, deps, h))
    {
      VisibilityDecided(v, deps, foreign, visibilities, h);
    }
    r := VerifyAllScriptVisibility(v, visibilities, deps);
  }

  lemma IndexedEntries(
    self: Option<ModuleId>, deps: DependencyMap, structs: map<Key, nat>, functions: map<Key, nat>,
    foreign: map<Key, Visibility>)
    requires AllIndexed(self, deps, structs, functions, foreign)
    ensures forall id, name | id in deps :: StructEntry(id, deps[id], |deps[id].structDefs|, structs, name)
    ensures forall id, name | id in deps :: FunctionEntry(self, id, deps[id], |deps[id].functionDefs|, functions, name)
    ensures forall id, name | id in deps :: VisibilityEntry(id, deps[id], |deps[id].functionDefs|, foreign, name)
  {
    forall id, name | id in deps
      ensures StructEntry(id, deps[id], |deps[id].structDefs|, structs, name)
      ensures FunctionEntry(self, id, deps[id], |deps[id].functionDefs|, functions, name)
      ensures VisibilityEntry(id, deps[id], |deps[id].functionDefs|, foreign, name)
    {
      assert Indexed(self, id, deps[id], structs, functions, foreign);
    }
  }

  lemma {:induction false} MapUnique(self: Option<ModuleId>, modules: seq<CompiledModule>)
    requires forall i | 0 <= i < |modules| :: NamesUnique(modules[i])
    ensures forall id | id in DependencyMapOf(self, modules) :: NamesUnique(DependencyMapOf(self, modules)[id])
    decreases |modules|
  {
    if modules != [] {
      MapUnique(self, modules[..|modules| - 1]);
    }
  }

  /** Replacing one of the dependencies by another version replaces it in the map, or is without effect. */
  lemma {:induction false} MapUpgraded(self: Option<ModuleId>, modules: seq<CompiledModule>, i: nat,
                                       new_: CompiledModule)
    requires i < |modules| && OwnId(new_) == OwnId(modules[i])
    ensures Swapped(
              DependencyMapOf(self, modules), DependencyMapOf(self, modules[i := new_]), OwnId(new_), modules[i], new_)
    decreases |modules|
  {
    var n := |modules| - 1;
    var before, after := DependencyMapOf(self, modules[..n]), DependencyMapOf(self, modules[i := new_][..n]);
    if i == n {
      assert modules[i := new_][..n] == modules[..n];
      if Some(OwnId(new_)) != self {
        SwapLast(before, OwnId(new_), modules[i], new_);
      }
    } else {
      assert modules[i := new_][..n] == modules[..n][i := new_];
      MapUpgraded(self, modules[..n], i, new_);
      SwapStep(before, after, OwnId(new_), modules[i], new_, OwnId(modules[n]), modules[n]);
    }
  }

  ghost predicate Swapped<K, V>(before: map<K, V>, after: map<K, V>, k: K, x: V, y: V) {
    after == before || (k in before && before[k] == x && after == before[k := y])
  }

  lemma SwapLast<K, V>(m: map<K, V>, k: K, x: V, y: V)
    ensures Swapped(m[k := x], m[k := y], k, x, y)
  {
    assert m[k := x][k := y] == m[k := y];
  }

  lemma SwapStep<K, V>(before: map<K, V>, after: map<K, V>, k: K, x: V, y: V, key: K, value: V)
    requires Swapped(before, after, k, x, y)
    ensures Swapped(before[key := value], after[key := value], k, x, y)
  {
    if after != before {
      if key == k {
        assert before[k := y][k := value] == before[k := value];
      } else {
        assert before[k := y][key := value] == before[key := value][k := y];
      }
    }
  }
}
