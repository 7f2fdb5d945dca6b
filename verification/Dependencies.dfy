/** Linking: whether what a module or script imports is what its dependencies define. */
module Dependencies {
  import opened Abilities
  import opened Bytecodes
  import opened FileFormat
  import opened Tables
  import opened Normalized
  import opened Wrappers
  import C = Compatibilities

  /** What is to be linked. */
  datatype View = ModuleView(m: CompiledModule) | ScriptView(s: CompiledScript)

  function TablesOf(v: View): Tables {
    match v
    case ModuleView(m) => ModuleTables(m)
    case ScriptView(s) => ScriptTables(s)
  }

  function SelfHandle(v: View): Option<nat> {
    match v
    case ModuleView(m) => Some(m.selfHandle)
    case ScriptView(_) => None
  }

  predicate IsSelf(v: View, handle: nat) {
    SelfHandle(v) == Some(handle)
  }

  function SelfIdOf(v: View): Option<ModuleId> {
    match v
    case ModuleView(m) => Some(OwnId(m))
    case ScriptView(_) => None
  }

  function SelfDefs(v: View): seq<FunctionDefinition> {
    match v
    case ModuleView(m) => m.functionDefs
    case ScriptView(_) => []
  }

  function Instantiations(v: View): seq<FunctionInstantiation> {
    match v
    case ModuleView(m) => m.functionInstantiations
    case ScriptView(s) => s.functionInstantiations
  }

  /** The function that an instruction calls, if it does. */
  function Callee(v: View, instr: Bytecode): Option<nat> {
    match instr
    case Call(h) => Some(h)
    case CallGeneric(i) => Some(Get(Instantiations(v), i, FunctionInstantiation(0, 0)).handle)
    case _ => None
  }

  type DependencyMap = map<ModuleId, CompiledModule>

  // ---------------------------------------------------------------------------------------------
  // Types of different modules
  // ---------------------------------------------------------------------------------------------

  predicate CompareStructs(a: Tables, h: nat, b: Tables, k: nat) {
    && ModuleAt(a, StructHandleAt(a, h).mod) == ModuleAt(b, StructHandleAt(b, k).mod)
    && StructName(a, h) == StructName(b, k)
  }

  predicate CompareTypes(a: Tables, t: SignatureToken, b: Tables, u: SignatureToken) {
    match (t, u)
    case (Bool, Bool) => true
    case (U8, U8) => true
    case (U64, U64) => true
    case (U128, U128) => true
    case (Address, Address) => true
    case (Signer, Signer) => true
    case (Vector(x), Vector(y)) => CompareTypes(a, x, b, y)
    case (Struct(h), Struct(k)) => CompareStructs(a, h, b, k)
    case (StructInstantiation(h, xs), StructInstantiation(k, ys)) =>
      CompareStructs(a, h, b, k) && CompareSignatures(a, xs, b, ys)
    case (Reference(x), Reference(y)) => CompareTypes(a, x, b, y)
    case (MutableReference(x), MutableReference(y)) => CompareTypes(a, x, b, y)
    case (TypeParameter(i), TypeParameter(j)) => i == j
    case _ => false
  }

  predicate CompareSignatures(a: Tables, ts: seq<SignatureToken>, b: Tables, us: seq<SignatureToken>) {
    |ts| == |us| && forall i | 0 <= i < |ts| :: CompareTypes(a, ts[i], b, us[i])
  }

  lemma SameItems<T>(x: seq<T>, y: seq<T>)
    ensures x == y <==> |x| == |y| && forall i | 0 <= i < |x| :: x[i] == y[i]
  {
  }

  /** Wherever one type has a plain struct, the other one has none that is instantiated. */
  predicate SameForm(t: SignatureToken, u: SignatureToken) {
    match (t, u)
    case (Struct(_), StructInstantiation(_, _)) => false
    case (StructInstantiation(_, _), Struct(_)) => false
    case (Vector(x), Vector(y)) => SameForm(x, y)
    case (Reference(x), Reference(y)) => SameForm(x, y)
    case (MutableReference(x), MutableReference(y)) => SameForm(x, y)
    case (StructInstantiation(_, xs), StructInstantiation(_, ys)) => SameForms(xs, ys)
    case _ => true
  }

  predicate SameForms(ts: seq<SignatureToken>, us: seq<SignatureToken>) {
    forall i | 0 <= i < |ts| && i < |us| :: SameForm(ts[i], us[i])
  }

  /**
   The exact condition, for all types: types that are the same when normalized are accepted as the same if and only if
   both instantiate the same of their structs.
   */
  lemma {:induction false} CompareIff(a: Tables, t: SignatureToken, b: Tables, u: SignatureToken)
    ensures CompareTypes(a, t, b, u) <==> TypeOf(a, t) == TypeOf(b, u) && SameForm(t, u)
    decreases t, 0
  {
    match (t, u) {
      case (Vector(x), Vector(y)) => CompareIff(a, x, b, y);
      case (Reference(x), Reference(y)) => CompareIff(a, x, b, y);
      case (MutableReference(x), MutableReference(y)) => CompareIff(a, x, b, y);
      case (StructInstantiation(h, xs), StructInstantiation(k, ys)) => SignaturesIff(a, xs, b, ys);
      case _ =>
    }
  }

  lemma {:induction false} SignaturesIff(a: Tables, ts: seq<SignatureToken>, b: Tables, us: seq<SignatureToken>)
    ensures CompareSignatures(a, ts, b, us) <==> TypesOf(a, ts) == TypesOf(b, us) && SameForms(ts, us)
    decreases ts, 1
  {
    forall i | 0 <= i < |ts| && i < |us|
      ensures CompareTypes(a, ts[i], b, us[i]) <==> TypeOf(a, ts[i]) == TypeOf(b, us[i]) && SameForm(ts[i], us[i])
    {
      CompareIff(a, ts[i], b, us[i]);
    }
    SameItems(TypesOf(a, ts), TypesOf(b, us));
  }

  lemma {:induction false} CompareTransitive(
    a: Tables, t: SignatureToken, b: Tables, u: SignatureToken, c: Tables, w: SignatureToken)
    requires CompareTypes(a, t, b, u) && CompareTypes(b, u, c, w)
    ensures CompareTypes(a, t, c, w)
    decreases t
  {
    match t {
      case Vector(x) => CompareTransitive(a, x, b, u.elem, c, w.elem);
      case Reference(x) => CompareTransitive(a, x, b, u.inner, c, w.inner);
      case MutableReference(x) => CompareTransitive(a, x, b, u.inner, c, w.inner);
      case StructInstantiation(h, xs) => {
        forall i | 0 <= i < |xs| ensures CompareTypes(a, xs[i], c, w.args[i]) {
          CompareTransitive(a, xs[i], b, u.args[i], c, w.args[i]);
        }
      }
      case _ =>
    }
  }

  /** If all instantiations have arguments, types that are the same when normalized instantiate the same structs. */
  lemma {:induction false} FilledForms(a: Tables, t: SignatureToken, b: Tables, u: SignatureToken)
    requires TokenOk(t) && TokenOk(u) && TypeOf(a, t) == TypeOf(b, u)
    ensures SameForm(t, u)
    decreases t
  {
    match (t, u) {
      case (Vector(x), Vector(y)) => FilledForms(a, x, b, y);
      case (Reference(x), Reference(y)) => FilledForms(a, x, b, y);
      case (MutableReference(x), MutableReference(y)) => FilledForms(a, x, b, y);
      case (StructInstantiation(h, xs), StructInstantiation(k, ys)) => {
        forall i | 0 <= i < |xs| && i < |ys| ensures SameForm(xs[i], ys[i]) {
          assert TypesOf(a, xs)[i] == TypesOf(b, ys)[i];
          FilledForms(a, xs[i], b, ys[i]);
        }
      }
      case _ =>
    }
  }

  /** Types are accepted as the same exactly if they are the same when normalized. */
  lemma CompareIsEquality(a: Tables, t: SignatureToken, b: Tables, u: SignatureToken)
    requires TokenOk(t) && TokenOk(u)
    ensures CompareTypes(a, t, b, u) <==> TypeOf(a, t) == TypeOf(b, u)
  {
    CompareIff(a, t, b, u);
    if TypeOf(a, t) == TypeOf(b, u) {
      FilledForms(a, t, b, u);
    }
  }

  /** Without its arguments an instantiation is the same type as the plain struct, but is not accepted for it. */
  lemma EmptyInstantiationDiffers(a: Tables, h: nat)
    ensures TypeOf(a, Struct(h)) == TypeOf(a, StructInstantiation(h, []))
    ensures !CompareTypes(a, Struct(h), a, StructInstantiation(h, []))
  {
    assert TypesOf(a, []) == [];
  }

  // ---------------------------------------------------------------------------------------------
  // Linking
  // ---------------------------------------------------------------------------------------------

  /** The function may be called from outside its module, by the module with the given name. */
  predicate MayBeCalled(self: Option<ModuleId>, m: CompiledModule, visibility: Visibility) {
    match visibility
    case Public => true
    case Script => true
    case Friend => self.Some? && self.value in FriendsOf(m)
    case Private => false
  }

  /** The local view of a struct demands no more than the definition gives. */
  predicate StructMatches(local: StructHandle, def: StructHandle) {
    IsSubset(local.abilities, def.abilities) && C.StructParametersCompatible(local.typeParameters, def.typeParameters)
  }

  /** The local view of a function demands no more than the definition gives, and both have the same types. */
  predicate FunctionMatches(a: Tables, local: FunctionHandle, b: Tables, def: FunctionHandle) {
    && C.FunctionParametersCompatible(local.typeParameters, def.typeParameters)
    && CompareSignatures(a, SignatureAt(a, local.parameters), b, SignatureAt(b, def.parameters))
    && CompareSignatures(a, SignatureAt(a, local.return_), b, SignatureAt(b, def.return_))
  }

  predicate ModuleLinks(v: View, deps: DependencyMap, h: nat) {
    IsSelf(v, h) || ModuleAt(TablesOf(v), h) in deps
  }

  /** Struct definition `i` of the module is what the handle imports. */
  predicate ImportsStruct(v: View, h: nat, m: CompiledModule, i: nat) {
    && i < |m.structDefs| && DefinedStruct(m, i) == StructName(TablesOf(v), h)
    && StructMatches(StructHandleAt(TablesOf(v), h), StructHandleAt(ModuleTables(m), m.structDefs[i].structHandle))
  }

  /** An imported struct is defined, and its definition matches. */
  ghost predicate StructLinks(v: View, deps: DependencyMap, h: nat) {
    var mod := StructHandleAt(TablesOf(v), h).mod;
    var id := ModuleAt(TablesOf(v), mod);
    IsSelf(v, mod) || (id in deps && exists i: nat :: ImportsStruct(v, h, deps[id], i))
  }

  /** Function definition `i` of the module is what the handle imports. */
  predicate ImportsFunction(v: View, h: nat, m: CompiledModule, i: nat) {
    && i < |m.functionDefs| && DefinedFunction(m, i) == FunctionName(TablesOf(v), h)
    && MayBeCalled(SelfIdOf(v), m, m.functionDefs[i].visibility)
    && FunctionMatches(
         TablesOf(v), FunctionHandleAt(TablesOf(v), h),
         ModuleTables(m), FunctionHandleAt(ModuleTables(m), m.functionDefs[i].function_))
  }

  /** An imported function is defined, may be called, and its definition matches. */
  ghost predicate FunctionLinks(v: View, deps: DependencyMap, h: nat) {
    var mod := FunctionHandleAt(TablesOf(v), h).mod;
    var id := ModuleAt(TablesOf(v), mod);
    IsSelf(v, mod) || (id in deps && exists i: nat :: ImportsFunction(v, h, deps[id], i))
  }

  predicate OwnScript(v: View, h: nat, i: nat) {
    i < |SelfDefs(v)| && SelfDefs(v)[i].function_ == h && SelfDefs(v)[i].visibility == Script
  }

  predicate ForeignScript(v: View, h: nat, m: CompiledModule, i: nat) {
    && i < |m.functionDefs| && DefinedFunction(m, i) == FunctionName(TablesOf(v), h)
    && m.functionDefs[i].visibility == Script
  }

  /** The function has script visibility. */
  ghost predicate IsScript(v: View, deps: DependencyMap, h: nat) {
    var mod := FunctionHandleAt(TablesOf(v), h).mod;
    var id := ModuleAt(TablesOf(v), mod);
    if IsSelf(v, mod) then exists i: nat :: OwnScript(v, h, i)
    else id in deps && exists i: nat :: ForeignScript(v, h, deps[id], i)
  }

  /** Only scripts and functions with script visibility call such functions. */
  ghost predicate CallsOk(v: View, deps: DependencyMap, current: Visibility, code: seq<Bytecode>) {
    current == Script ||
    forall k | 0 <= k < |code| && Callee(v, code[k]).Some? :: !IsScript(v, deps, Callee(v, code[k]).value)
  }

  ghost predicate ScriptCallsOk(v: View, deps: DependencyMap) {
    forall i | 0 <= i < |SelfDefs(v)| && SelfDefs(v)[i].code.Some? ::
      CallsOk(v, deps, SelfDefs(v)[i].visibility, SelfDefs(v)[i].code.value.code)
  }

  ghost predicate Linked(v: View, deps: DependencyMap) {
    && (forall h | 0 <= h < |TablesOf(v).moduleHandles| :: ModuleLinks(v, deps, h))
    && (forall h | 0 <= h < |TablesOf(v).structHandles| :: StructLinks(v, deps, h))
    && (forall h | 0 <= h < |TablesOf(v).functionHandles| :: FunctionLinks(v, deps, h))
    && ScriptCallsOk(v, deps)
  }
}
