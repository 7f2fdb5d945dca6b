/** What linking demands, spelled out, and what it promises about calls between modules. */
module Linkage {
  import opened Abilities
  import opened Bytecodes
  import opened FileFormat
  import opened Tables
  import opened Normalized
  import opened Wrappers
  import opened Compatibilities
  import opened Dependencies
  import opened Linker
  import opened Programs

  // ---------------------------------------------------------------------------------------------
  // What linking demands
  // ---------------------------------------------------------------------------------------------

  /** Everything that the first set allows, the second does. */
  predicate Allows(first: AbilitySet, second: AbilitySet) {
    forall a | HasAbility(first, a) :: HasAbility(second, a)
  }

  /** Type arguments that meet the first constraints meet the second. */
  predicate Meets(given: seq<AbilitySet>, constraints: seq<AbilitySet>) {
    |given| == |constraints| && forall i | 0 <= i < |given| :: Allows(constraints[i], given[i])
  }

  function ConstraintsOf(params: seq<StructTypeParameter>): (r: seq<AbilitySet>)
    ensures |r| == |params| && forall i | 0 <= i < |r| :: r[i] == params[i].constraints
  {
    seq(|params|, i requires 0 <= i < |params| => params[i].constraints)
  }

  /** Definition `i` of the module is the struct that the handle names, and does all that the handle says. */
  predicate StructServes(v: View, h: nat, m: CompiledModule, i: nat) {
    && i < |m.structDefs| && DefinedStruct(m, i) == StructName(TablesOf(v), h)
    && var local, def := StructHandleAt(TablesOf(v), h), StructHandleAt(ModuleTables(m), m.structDefs[i].structHandle);
    && Allows(local.abilities, def.abilities)
    && Meets(ConstraintsOf(local.typeParameters), ConstraintsOf(def.typeParameters))
    && forall p | 0 <= p < |local.typeParameters| && local.typeParameters[p].isPhantom ::
         def.typeParameters[p].isPhantom
  }

  /** The module declares the view as a friend: one of its declarations has the address and the name of the view. */
  predicate DeclaresFriend(m: CompiledModule, v: View) {
    && v.ModuleView?
    && var own := Get(v.m.moduleHandles, v.m.selfHandle, ModuleHandle(0, 0));
    && exists f :: 0 <= f < |m.friendDecls|
         && Get(m.addressIdentifiers, m.friendDecls[f].address, []) == Get(v.m.addressIdentifiers, own.address, [])
         && Get(m.identifiers, m.friendDecls[f].name, "") == Get(v.m.identifiers, own.name, "")
  }

  /** The view may call the function: it is public, or for scripts, or for friends and the view is one. */
  predicate VisibleTo(v: View, m: CompiledModule, i: nat)
    requires i < |m.functionDefs|
  {
    match m.functionDefs[i].visibility
    case Public => true
    case Script => true
    case Friend => DeclaresFriend(m, v)
    case Private => false
  }

  /** Definition `i` of the module is the function that the handle names, has its type, and may be called. */
  predicate FunctionServes(v: View, h: nat, m: CompiledModule, i: nat) {
    && i < |m.functionDefs| && DefinedFunction(m, i) == FunctionName(TablesOf(v), h) && VisibleTo(v, m, i)
    && var a, b := TablesOf(v), ModuleTables(m);
    && var local, def := FunctionHandleAt(a, h), FunctionHandleAt(b, m.functionDefs[i].function_);
    && Meets(local.typeParameters, def.typeParameters)
    && SameTypes(a, SignatureAt(a, local.parameters), b, SignatureAt(b, def.parameters))
    && SameTypes(a, SignatureAt(a, local.return_), b, SignatureAt(b, def.return_))
  }

  predicate SameTypes(a: Tables, ts: Signature, b: Tables, us: Signature) {
    TypesOf(a, ts) == TypesOf(b, us) && SameForms(ts, us)
  }

  lemma SubsetAllows(s: AbilitySet, t: AbilitySet)
    ensures IsSubset(s, t) <==> Allows(s, t)
  {
    SubsetIff(s, t);
  }

  lemma StructMatchesIff(v: View, h: nat, m: CompiledModule, i: nat)
    ensures ImportsStruct(v, h, m, i) <==> StructServes(v, h, m, i)
  {
    if i < |m.structDefs| {
      var local, def := StructHandleAt(TablesOf(v), h), StructHandleAt(ModuleTables(m), m.structDefs[i].structHandle);
      SubsetAllows(local.abilities, def.abilities);
      forall p | 0 <= p < |local.typeParameters| && p < |def.typeParameters|
        ensures ConstraintsCompatible(local.typeParameters[p].constraints, def.typeParameters[p].constraints) <==>
                Allows(def.typeParameters[p].constraints, local.typeParameters[p].constraints)
      {
        SubsetAllows(def.typeParameters[p].constraints, local.typeParameters[p].constraints);
      }
      ParametersMatchIff(local.typeParameters, def.typeParameters);
    }
  }

  lemma ParametersMatchIff(local: seq<StructTypeParameter>, def: seq<StructTypeParameter>)
    ensures StructParametersCompatible(local, def) <==>
            && Meets(ConstraintsOf(local), ConstraintsOf(def))
            && forall p | 0 <= p < |local| && local[p].isPhantom :: def[p].isPhantom
  {
    var x, y := ConstraintsOf(local), ConstraintsOf(def);
    forall p | 0 <= p < |local| && p < |def|
      ensures ConstraintsCompatible(local[p].constraints, def[p].constraints) <==> Allows(y[p], x[p])
      ensures PhantomCompatible(local[p], def[p]) <==> (local[p].isPhantom ==> def[p].isPhantom)
    {
      SubsetAllows(def[p].constraints, local[p].constraints);
    }
  }

  lemma FriendIff(v: View, m: CompiledModule, i: nat)
    requires i < |m.functionDefs|
    ensures MayBeCalled(SelfIdOf(v), m, m.functionDefs[i].visibility) <==> VisibleTo(v, m, i)
  {
    var friends := FriendsOf(m);
    if v.ModuleView? {
      assert OwnId(v.m) in friends <==> exists f :: 0 <= f < |friends| && friends[f] == OwnId(v.m);
      assert forall f | 0 <= f < |friends| ::
          friends[f] == ModuleId(Get(m.addressIdentifiers, m.friendDecls[f].address, []),
                                 Get(m.identifiers, m.friendDecls[f].name, ""));
    }
  }

  lemma FunctionMatchesIff(v: View, h: nat, m: CompiledModule, i: nat)
    ensures ImportsFunction(v, h, m, i) <==> FunctionServes(v, h, m, i)
  {
    if i < |m.functionDefs| {
      var a, b := TablesOf(v), ModuleTables(m);
      var local, def := FunctionHandleAt(a, h), FunctionHandleAt(b, m.functionDefs[i].function_);
      FriendIff(v, m, i);
      forall p | 0 <= p < |local.typeParameters| && p < |def.typeParameters|
        ensures ConstraintsCompatible(local.typeParameters[p], def.typeParameters[p]) <==>
                Allows(def.typeParameters[p], local.typeParameters[p])
      {
        SubsetAllows(def.typeParameters[p], local.typeParameters[p]);
      }
      SignaturesIff(a, SignatureAt(a, local.parameters), b, SignatureAt(b, def.parameters));
      SignaturesIff(a, SignatureAt(a, local.return_), b, SignatureAt(b, def.return_));
    }
  }

  /** The view is a module, and the handle is that of the module itself. */
  predicate IsOwn(v: View, mod: nat) {
    v.ModuleView? && v.m.selfHandle == mod
  }

  /** The struct that a handle names is the view's own, or some definition of its module serves. */
  ghost predicate StructServed(v: View, deps: DependencyMap, h: nat) {
    var mod := StructHandleAt(TablesOf(v), h).mod;
    var id := ModuleAt(TablesOf(v), mod);
    IsOwn(v, mod) || (id in deps && exists i: nat :: StructServes(v, h, deps[id], i))
  }

  ghost predicate FunctionServed(v: View, deps: DependencyMap, h: nat) {
    var mod := FunctionHandleAt(TablesOf(v), h).mod;
    var id := ModuleAt(TablesOf(v), mod);
    IsOwn(v, mod) || (id in deps && exists i: nat :: FunctionServes(v, h, deps[id], i))
  }

  /** Definition `i` is that of the function that the handle of module `m` names, in the same module or in another. */
  predicate NamesHere(m: CompiledModule, h: nat, i: nat) {
    && FunctionHandleAt(ModuleTables(m), h).mod == m.selfHandle
    && i < |m.functionDefs| && m.functionDefs[i].function_ == h
  }

  predicate NamesThere(m: CompiledModule, h: nat, other: CompiledModule, i: nat) {
    && FunctionHandleAt(ModuleTables(m), h).mod != m.selfHandle
    && i < |other.functionDefs| && DefinedFunction(other, i) == FunctionName(ModuleTables(m), h)
  }

  /** No definition of the function that the handle names is for scripts. */
  predicate NotForScripts(m: CompiledModule, deps: DependencyMap, h: nat) {
    var id := ModuleAt(ModuleTables(m), FunctionHandleAt(ModuleTables(m), h).mod);
    && (forall i | 0 <= i < |m.functionDefs| && NamesHere(m, h, i) :: m.functionDefs[i].visibility != Script)
    && (id in deps ==>
          forall i | 0 <= i < |deps[id].functionDefs| && NamesThere(m, h, deps[id], i) ::
            deps[id].functionDefs[i].visibility != Script)
  }

  /** The instruction calls the function with the handle. */
  predicate CallsHandle(m: CompiledModule, instr: Bytecode, h: nat) {
    match instr
    case Call(f) => h == f
    case CallGeneric(i) => h == Get(m.functionInstantiations, i, FunctionInstantiation(0, 0)).handle
    case _ => false
  }

  /** Function `i` of the module, if it is not for scripts itself, calls none that is. */
  ghost predicate CallsNoScript(m: CompiledModule, deps: DependencyMap, i: nat)
    requires i < |m.functionDefs|
  {
    m.functionDefs[i].code.Some? && m.functionDefs[i].visibility != Script ==>
      var code := m.functionDefs[i].code.value.code;
      forall k, h: nat | 0 <= k < |code| && CallsHandle(m, code[k], h) :: NotForScripts(m, deps, h)
  }

  /** What linking demands, spelled out. */
  ghost predicate AllServed(v: View, deps: DependencyMap) {
    && (forall h | 0 <= h < |TablesOf(v).moduleHandles| :: IsOwn(v, h) || ModuleAt(TablesOf(v), h) in deps)
    && (forall h | 0 <= h < |TablesOf(v).structHandles| :: StructServed(v, deps, h))
    && (forall h | 0 <= h < |TablesOf(v).functionHandles| :: FunctionServed(v, deps, h))
    && (v.ModuleView? ==> forall i | 0 <= i < |v.m.functionDefs| :: CallsNoScript(v.m, deps, i))
  }

  lemma StructServedIff(v: View, deps: DependencyMap, h: nat)
    ensures StructLinks(v, deps, h) <==> StructServed(v, deps, h)
  {
    var id := ModuleAt(TablesOf(v), StructHandleAt(TablesOf(v), h).mod);
    if id in deps {
      forall i: nat ensures ImportsStruct(v, h, deps[id], i) <==> StructServes(v, h, deps[id], i) {
        StructMatchesIff(v, h, deps[id], i);
      }
    }
  }

  lemma FunctionServedIff(v: View, deps: DependencyMap, h: nat)
    ensures FunctionLinks(v, deps, h) <==> FunctionServed(v, deps, h)
  {
    var id := ModuleAt(TablesOf(v), FunctionHandleAt(TablesOf(v), h).mod);
    if id in deps {
      forall i: nat ensures ImportsFunction(v, h, deps[id], i) <==> FunctionServes(v, h, deps[id], i) {
        FunctionMatchesIff(v, h, deps[id], i);
      }
    }
  }

  lemma NotForScriptsIff(m: CompiledModule, deps: DependencyMap, h: nat)
    ensures IsScript(ModuleView(m), deps, h) <==> !NotForScripts(m, deps, h)
  {
    var v, mod := ModuleView(m), FunctionHandleAt(ModuleTables(m), h).mod;
    var id := ModuleAt(ModuleTables(m), mod);
    if mod == m.selfHandle {
      forall i: nat ensures OwnScript(v, h, i) <==> NamesHere(m, h, i) && m.functionDefs[i].visibility == Script {
      }
    } else if id in deps {
      forall i: nat
        ensures ForeignScript(v, h, deps[id], i) <==>
                NamesThere(m, h, deps[id], i) && deps[id].functionDefs[i].visibility == Script
      {
      }
    }
  }

  lemma CallsNoScriptIff(m: CompiledModule, deps: DependencyMap, i: nat)
    requires i < |m.functionDefs|
    ensures CallsNoScript(m, deps, i) <==>
            || m.functionDefs[i].code.None?
            || CallsOk(ModuleView(m), deps, m.functionDefs[i].visibility, m.functionDefs[i].code.value.code)
  {
    if m.functionDefs[i].code.Some? {
      var code := m.functionDefs[i].code.value.code;
      forall k, h: nat | 0 <= k < |code|
        ensures CallsHandle(m, code[k], h) <==> Callee(ModuleView(m), code[k]) == Some(h)
        ensures IsScript(ModuleView(m), deps, h) <==> !NotForScripts(m, deps, h)
      {
        NotForScriptsIff(m, deps, h);
      }
    }
  }

  lemma ScriptCallsIff(m: CompiledModule, deps: DependencyMap)
    ensures ScriptCallsOk(ModuleView(m), deps) <==>
            forall i | 0 <= i < |m.functionDefs| :: CallsNoScript(m, deps, i)
  {
    var v := ModuleView(m);
    assert SelfDefs(v) == m.functionDefs;
    if ScriptCallsOk(v, deps) {
      forall i | 0 <= i < |m.functionDefs| ensures CallsNoScript(m, deps, i) {
        assert SelfDefs(v)[i] == m.functionDefs[i];
        CallsNoScriptIff(m, deps, i);
      }
    } else {
      var i: nat :| i < |SelfDefs(v)| && SelfDefs(v)[i].code.Some?
                    && !CallsOk(v, deps, SelfDefs(v)[i].visibility, SelfDefs(v)[i].code.value.code);
      CallsNoScriptIff(m, deps, i);
    }
  }

  /** A view links exactly if all that it imports is served. */
  lemma LinkedIff(v: View, deps: DependencyMap)
    ensures Linked(v, deps) <==> AllServed(v, deps)
  {
    forall h: nat ensures ModuleLinks(v, deps, h) <==> IsOwn(v, h) || ModuleAt(TablesOf(v), h) in deps {
    }
    forall h: nat ensures StructLinks(v, deps, h) <==> StructServed(v, deps, h) {
      StructServedIff(v, deps, h);
    }
    forall h: nat ensures FunctionLinks(v, deps, h) <==> FunctionServed(v, deps, h) {
      FunctionServedIff(v, deps, h);
    }
    match v
    case ModuleView(m) => ScriptCallsIff(m, deps);
    case ScriptView(_) =>
  }

  // ---------------------------------------------------------------------------------------------
  // What linking promises
  // ---------------------------------------------------------------------------------------------

  /**
   A view that links imports no private function, and one for friends only if it is a module that the owner declares as
   a friend: a script imports public functions and such for scripts.
   */
  lemma ImportsAreVisible(v: View, deps: DependencyMap, h: nat, i: nat)
    requires Linked(v, deps) && h < |TablesOf(v).functionHandles|
    requires !IsOwn(v, FunctionHandleAt(TablesOf(v), h).mod)
    requires var id := ModuleAt(TablesOf(v), FunctionHandleAt(TablesOf(v), h).mod);
             id in deps ==>
               && i < |deps[id].functionDefs|
               && forall j | 0 <= j < |deps[id].functionDefs| ::
                    DefinedFunction(deps[id], j) == FunctionName(TablesOf(v), h) <==> j == i
    ensures var id := ModuleAt(TablesOf(v), FunctionHandleAt(TablesOf(v), h).mod);
            && id in deps && deps[id].functionDefs[i].visibility != Private
            && (deps[id].functionDefs[i].visibility == Friend ==> DeclaresFriend(deps[id], v))
            && (v.ScriptView? ==> deps[id].functionDefs[i].visibility in {Public, Script})
  {
    FunctionServedIff(v, deps, h);
    assert FunctionLinks(v, deps, h);
    var id := ModuleAt(TablesOf(v), FunctionHandleAt(TablesOf(v), h).mod);
    var j: nat :| FunctionServes(v, h, deps[id], j);
    assert j == i;
  }

  /** Type arguments that are legal by the handle are legal by the definition. */
  lemma InstantiationsStayLegal(given: seq<AbilitySet>, local: seq<AbilitySet>, def: seq<AbilitySet>)
    requires Meets(given, local) && Meets(local, def)
    ensures Meets(given, def)
  {
    forall i, a | 0 <= i < |given| && HasAbility(def[i], a) ensures HasAbility(given[i], a) {
      assert Allows(def[i], local[i]) && Allows(local[i], given[i]);
    }
  }

  /** Function `p.1` of module `p.0`. */
  ghost predicate IsFunction(modules: seq<CompiledModule>, p: (nat, nat)) {
    p.0 < |modules| && p.1 < |modules[p.0].functionDefs|
  }

  ghost function FunctionAt(modules: seq<CompiledModule>, p: (nat, nat)): FunctionDefinition
    requires IsFunction(modules, p)
  {
    modules[p.0].functionDefs[p.1]
  }

  /** Handle `h` of module `k` names the function. */
  ghost predicate Names(modules: seq<CompiledModule>, k: nat, h: nat, q: (nat, nat))
    requires k < |modules|
  {
    && IsFunction(modules, q)
    && if q.0 == k then NamesHere(modules[k], h, q.1)
       else
         && NamesThere(modules[k], h, modules[q.0], q.1)
         && OwnId(modules[q.0]) == ModuleAt(ModuleTables(modules[k]), FunctionHandleAt(ModuleTables(modules[k]), h).mod)
  }

  /** The function calls the other one: at instruction `at.0`, by the handle `at.1`. */
  ghost predicate CallsAt(modules: seq<CompiledModule>, p: (nat, nat), at: (nat, nat), q: (nat, nat)) {
    && IsFunction(modules, p) && FunctionAt(modules, p).code.Some? && at.1 < |modules[p.0].functionHandles|
    && at.0 < |FunctionAt(modules, p).code.value.code|
    && CallsHandle(modules[p.0], FunctionAt(modules, p).code.value.code[at.0], at.1)
    && Names(modules, p.0, at.1, q)
  }

  ghost function DepsOf(modules: seq<CompiledModule>, k: nat): DependencyMap
    requires k < |modules|
  {
    DependencyMapOf(Some(OwnId(modules[k])), modules)
  }

  lemma OwnerIsFound(modules: seq<CompiledModule>, k: nat, h: nat, q: (nat, nat))
    requires Checked(modules) && k < |modules| && h < |modules[k].functionHandles|
    requires Names(modules, k, h, q) && q.0 != k
    ensures var id := OwnId(modules[q.0]); id in DepsOf(modules, k) && DepsOf(modules, k)[id] == modules[q.0]
  {
    var v, deps := ModuleView(modules[k]), DepsOf(modules, k);
    var id := OwnId(modules[q.0]);
    assert Linked(v, deps) && FunctionLinks(v, deps, h);
    var j := MapMember(Some(OwnId(modules[k])), modules, id);
    assert j == q.0 by {
      assert OwnId(modules[j]) == OwnId(modules[q.0]);
    }
  }

  /** Only functions for scripts call functions for scripts. */
  lemma ScriptsAreCalledByScripts(modules: seq<CompiledModule>, p: (nat, nat), at: (nat, nat), q: (nat, nat))
    requires Checked(modules) && CallsAt(modules, p, at, q) && FunctionAt(modules, q).visibility == Script
    ensures FunctionAt(modules, p).visibility == Script
  {
    var v, deps := ModuleView(modules[p.0]), DepsOf(modules, p.0);
    assert Linked(v, deps);
    LinkedIff(v, deps);
    assert CallsNoScript(modules[p.0], deps, p.1);
    if p.0 != q.0 {
      OwnerIsFound(modules, p.0, at.1, q);
    }
    assert !NotForScripts(modules[p.0], deps, at.1);
  }

  /** A chain of calls. */
  ghost predicate CallChain(modules: seq<CompiledModule>, chain: seq<(nat, nat)>, at: seq<(nat, nat)>) {
    && |chain| == |at| + 1
    && (forall k | 0 <= k < |chain| :: IsFunction(modules, chain[k]))
    && forall k | 0 <= k < |at| :: CallsAt(modules, chain[k], at[k], chain[k + 1])
  }

  /** Through no chain of calls, in whatever modules, does a function that is not for scripts reach one that is. */
  lemma {:induction false} ScriptsAreNotReached(
    modules: seq<CompiledModule>, chain: seq<(nat, nat)>, at: seq<(nat, nat)>, k: nat)
    requires Checked(modules) && CallChain(modules, chain, at) && k < |at|
    requires FunctionAt(modules, chain[k + 1]).visibility == Script
    ensures FunctionAt(modules, chain[0]).visibility == Script
    decreases k
  {
    assert CallsAt(modules, chain[k], at[k], chain[k + 1]);
    ScriptsAreCalledByScripts(modules, chain[k], at[k], chain[k + 1]);
    if k > 0 {
      assert CallsAt(modules, chain[k - 1], at[k - 1], chain[k]);
      ScriptsAreNotReached(modules, chain, at, k - 1);
    }
  }

  /** A call into another module is to a function that the caller may call, with the type that the caller expects. */
  lemma CallsAreServed(modules: seq<CompiledModule>, p: (nat, nat), at: (nat, nat), q: (nat, nat))
    requires Checked(modules) && CallsAt(modules, p, at, q) && p.0 != q.0
    ensures FunctionServes(ModuleView(modules[p.0]), at.1, modules[q.0], q.1)
  {
    var v, deps := ModuleView(modules[p.0]), DepsOf(modules, p.0);
    OwnerIsFound(modules, p.0, at.1, q);
    assert Linked(v, deps) && FunctionLinks(v, deps, at.1);
    FunctionServedIff(v, deps, at.1);
    var j: nat :| FunctionServes(v, at.1, modules[q.0], j);
    assert ModuleChecked(modules[q.0]);
    assert j == q.1 by {
      assert DefinedFunction(modules[q.0], j) == DefinedFunction(modules[q.0], q.1);
    }
  }
}
