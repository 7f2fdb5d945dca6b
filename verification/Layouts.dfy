/** What layout compatibility is for: stored values keep their layout. */
module Layouts {
  import opened FileFormat
  import opened Tables
  import opened Normalized
  import opened Wrappers
  import opened Compatibilities
  import opened TypeAbilities

  /** How the values of a type are laid out, with the names of fields. */
  datatype Layout =
    | Basic(type_: Type)
    | VectorLayout(elem: Layout)
    | StructLayout(fields: seq<(Identifier, Layout)>)

  /** The modules that are published, by name. */
  type World = map<ModuleId, NormalModule>

  const VALUE_DEPTH_MAX := 128

  function Substitute(t: Type, args: seq<Type>): Option<Type> {
    match t
    case ParameterType(i) => if i < |args| then Some(args[i]) else None
    case VectorType(elem) =>
      var x :- Substitute(elem, args);
      Some(VectorType(x))
    case ReferenceType(inner) =>
      var x :- Substitute(inner, args);
      Some(ReferenceType(x))
    case MutableReferenceType(inner) =>
      var x :- Substitute(inner, args);
      Some(MutableReferenceType(x))
    case StructType(mod, name, inner) =>
      var xs :- SubstituteAll(inner, args);
      Some(StructType(mod, name, xs))
    case _ => Some(t)
  }

  function SubstituteAll(ts: seq<Type>, args: seq<Type>): Option<seq<Type>> {
    if ts == [] then Some([])
    else
      var x :- Substitute(ts[0], args);
      var xs :- SubstituteAll(ts[1..], args);
      Some([x] + xs)
  }

  predicate Knows(world: World, mod: ModuleId, name: Identifier) {
    mod in world && name in world[mod].structs
  }

  /** The layout of a type that is nested at most `depth` deep; references and type parameters have none. */
  function LayoutOf(world: World, t: Type, depth: nat): Option<Layout>
    decreases depth, 0
  {
    if depth == 0 then None
    else
      match t
      case VectorType(elem) =>
        var inner :- LayoutOf(world, elem, depth - 1);
        Some(VectorLayout(inner))
      case StructType(mod, name, args) =>
        if !Knows(world, mod, name) then None
        else
          var fields :- FieldLayouts(world, world[mod].structs[name].fields, args, depth - 1);
          Some(StructLayout(fields))
      case ReferenceType(_) | MutableReferenceType(_) | ParameterType(_) => None
      case _ => Some(Basic(t))
  }

  function FieldLayouts(
    world: World, fields: seq<NormalField>, args: seq<Type>, depth: nat): Option<seq<(Identifier, Layout)>>
    decreases depth, |fields| + 1
  {
    if fields == [] then Some([])
    else
      var t :- Substitute(fields[0].type_, args);
      var first :- LayoutOf(world, t, depth);
      var rest :- FieldLayouts(world, fields[1..], args, depth);
      Some([(fields[0].name, first)] + rest)
  }

  /** Every module is still there, with all its structs, and is layout compatible. */
  ghost predicate LayoutsKept(old_: World, new_: World) {
    forall id | id in old_ ::
      && id in new_ && LayoutCompatible(old_[id], new_[id])
      && forall name | name in old_[id].structs :: name in new_[id].structs
  }

  /** Whatever had a layout has the same layout still. */
  lemma {:induction false} LayoutStays(old_: World, new_: World, t: Type, depth: nat)
    requires LayoutsKept(old_, new_) && LayoutOf(old_, t, depth).Some?
    ensures LayoutOf(new_, t, depth) == LayoutOf(old_, t, depth)
    decreases depth, 0
  {
    match t
    case VectorType(elem) => LayoutStays(old_, new_, elem, depth - 1);
    case StructType(mod, name, args) =>
      assert new_[mod].structs[name].fields == old_[mod].structs[name].fields;
      FieldsStay(old_, new_, old_[mod].structs[name].fields, args, depth - 1);
    case _ =>
  }

  lemma {:induction false} FieldsStay(
    old_: World, new_: World, fields: seq<NormalField>, args: seq<Type>, depth: nat)
    requires LayoutsKept(old_, new_) && FieldLayouts(old_, fields, args, depth).Some?
    ensures FieldLayouts(new_, fields, args, depth) == FieldLayouts(old_, fields, args, depth)
    decreases depth, |fields| + 1
  {
    if fields != [] {
      LayoutStays(old_, new_, Substitute(fields[0].type_, args).value, depth);
      FieldsStay(old_, new_, fields[1..], args, depth);
    }
  }

  /** However often a module was upgraded, values that were stored under its first version keep their layout. */
  lemma UpgradesKeepLayouts(
    world: World, id: ModuleId, versions: seq<NormalModule>, k: nat, t: Type)
    requires Upgrades(versions) && k < |versions| && LayoutOf(world[id := versions[0]], t, VALUE_DEPTH_MAX).Some?
    ensures LayoutOf(world[id := versions[k]], t, VALUE_DEPTH_MAX) ==
            LayoutOf(world[id := versions[0]], t, VALUE_DEPTH_MAX)
  {
    UpgradesCompose(versions, 0, k);
    LayoutStays(world[id := versions[0]], world[id := versions[k]], t, VALUE_DEPTH_MAX);
  }

  // ---------------------------------------------------------------------------------------------
  // In compiled modules
  // ---------------------------------------------------------------------------------------------

  /** The type uses only the first `n` type parameters. */
  predicate ParametersBelow(t: SignatureToken, n: nat) {
    match t
    case TypeParameter(i) => i < n
    case Vector(elem) => ParametersBelow(elem, n)
    case Reference(inner) => ParametersBelow(inner, n)
    case MutableReference(inner) => ParametersBelow(inner, n)
    case StructInstantiation(_, args) => forall i | 0 <= i < |args| :: ParametersBelow(args[i], n)
    case _ => true
  }

  /** Substituting in a normalized type is what instantiating before normalizing gives. */
  lemma {:induction false} NormalizedInstance(tables: Tables, t: SignatureToken, args: Signature)
    requires ParametersBelow(t, |args|)
    ensures Substitute(TypeOf(tables, t), TypesOf(tables, args)) == Some(TypeOf(tables, Instantiate(t, args)))
    decreases t, 0
  {
    match t
    case Vector(elem) => NormalizedInstance(tables, elem, args);
    case Reference(inner) => NormalizedInstance(tables, inner, args);
    case MutableReference(inner) => NormalizedInstance(tables, inner, args);
    case Struct(_) => assert SubstituteAll([], TypesOf(tables, args)) == Some([]);
    case StructInstantiation(h, inner) =>
      var instance := Instantiate(t, args);
      NormalizedInstances(tables, inner, args, instance.args);
    case _ =>
  }

  lemma {:induction false} NormalizedInstances(
    tables: Tables, ts: Signature, args: Signature, instances: Signature)
    requires |instances| == |ts|
    requires forall i | 0 <= i < |ts| :: ParametersBelow(ts[i], |args|) && instances[i] == Instantiate(ts[i], args)
    ensures SubstituteAll(TypesOf(tables, ts), TypesOf(tables, args)) == Some(TypesOf(tables, instances))
    decreases ts, 1, |ts|
  {
    if ts != [] {
      NormalizedInstance(tables, ts[0], args);
      NormalizedInstances(tables, ts[1..], args, instances[1..]);
    }
  }

  function DeclaredFields(m: CompiledModule, i: nat): seq<FieldDefinition>
    requires i < |m.structDefs|
  {
    match m.structDefs[i].fieldInformation
    case Native => []
    case Declared(fields) => fields
  }

  /** The structs have fields of the same names and types, in the same order. */
  predicate FieldsAgree(a: CompiledModule, i: nat, b: CompiledModule, j: nat)
    requires i < |a.structDefs| && j < |b.structDefs|
  {
    var xs, ys := DeclaredFields(a, i), DeclaredFields(b, j);
    && |xs| == |ys|
    && forall k | 0 <= k < |xs| ::
         && Get(a.identifiers, xs[k].name, "") == Get(b.identifiers, ys[k].name, "")
         && TypeOf(ModuleTables(a), xs[k].signature) == TypeOf(ModuleTables(b), ys[k].signature)
  }

  lemma FieldsAgreeIff(a: CompiledModule, i: nat, b: CompiledModule, j: nat)
    requires i < |a.structDefs| && j < |b.structDefs|
    ensures StructOf(a, a.structDefs[i]).fields == StructOf(b, b.structDefs[j]).fields <==> FieldsAgree(a, i, b, j)
  {
    var x, y := StructOf(a, a.structDefs[i]).fields, StructOf(b, b.structDefs[j]).fields;
    var xs, ys := DeclaredFields(a, i), DeclaredFields(b, j);
    assert |x| == |xs| && |y| == |ys|;
    forall k | 0 <= k < |xs| && k < |ys|
      ensures x[k] == y[k] <==>
              && Get(a.identifiers, xs[k].name, "") == Get(b.identifiers, ys[k].name, "")
              && TypeOf(ModuleTables(a), xs[k].signature) == TypeOf(ModuleTables(b), ys[k].signature)
    {
    }
    if FieldsAgree(a, i, b, j) {
      assert x == y;
    }
  }

  /** The structs that both modules define have the same fields. */
  ghost predicate AllFieldsAgree(a: CompiledModule, b: CompiledModule) {
    forall i, j | 0 <= i < |a.structDefs| && 0 <= j < |b.structDefs| && DefinedStruct(a, i) == DefinedStruct(b, j) ::
      FieldsAgree(a, i, b, j)
  }

  /** What layout compatibility says about the tables of compiled modules. */
  lemma LayoutIff(a: CompiledModule, b: CompiledModule)
    requires NamesUnique(a) && NamesUnique(b)
    ensures LayoutCompatible(Normalize(a), Normalize(b)) <==> AllFieldsAgree(a, b)
  {
    if LayoutCompatible(Normalize(a), Normalize(b)) {
      forall i, j | 0 <= i < |a.structDefs| && 0 <= j < |b.structDefs| && DefinedStruct(a, i) == DefinedStruct(b, j)
        ensures FieldsAgree(a, i, b, j)
      {
        StructFound(a, |a.structDefs|, i);
        StructFound(b, |b.structDefs|, j);
        FieldsAgreeIff(a, i, b, j);
      }
    }
    if AllFieldsAgree(a, b) {
      forall name | name in Normalize(a).structs && name in Normalize(b).structs
        ensures Normalize(a).structs[name].fields == Normalize(b).structs[name].fields
      {
        var i := StructDefined(a, |a.structDefs|, name);
        var j := StructDefined(b, |b.structDefs|, name);
        StructFound(a, |a.structDefs|, i);
        StructFound(b, |b.structDefs|, j);
        FieldsAgreeIff(a, i, b, j);
      }
    }
  }
}
