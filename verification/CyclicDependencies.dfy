/** Depth-first search in the graphs of dependencies and of friends. */
module CyclicDependencies {
  import opened Wrappers
  import opened FileFormat
  import opened Tables
  import opened Normalized

  datatype StatusCode =
    | CyclicModuleDependency
    | CyclicModuleFriendship
    | InvalidFriendDeclWithModulesInDependencies
    | MissingDependency

  /** The immediate successors of every module that can be found. */
  type ModuleGraph = map<ModuleId, seq<ModuleId>>

  // ---------------------------------------------------------------------------------------------
  // Reachability
  // ---------------------------------------------------------------------------------------------

  ghost predicate Edge(nexts: ModuleGraph, a: ModuleId, b: ModuleId) {
    a in nexts && b in nexts[a]
  }

  ghost predicate Path(nexts: ModuleGraph, path: seq<ModuleId>) {
    |path| > 0 && forall i | 0 < i < |path| :: Edge(nexts, path[i - 1], path[i])
  }

  /** `b` is `a`, or can be reached from it. */
  ghost predicate Reaches(nexts: ModuleGraph, a: ModuleId, b: ModuleId) {
    exists path :: Path(nexts, path) && path[0] == a && path[|path| - 1] == b
  }

  ghost predicate ReachedFrom(nexts: ModuleGraph, starts: seq<ModuleId>, b: ModuleId) {
    exists i :: 0 <= i < |starts| && Reaches(nexts, starts[i], b)
  }

  lemma ReachesSelf(nexts: ModuleGraph, a: ModuleId)
    ensures Reaches(nexts, a, a)
  {
    assert Path(nexts, [a]) && [a][0] == a;
  }

  lemma ReachesFirst(nexts: ModuleGraph, a: ModuleId, b: ModuleId, c: ModuleId)
    requires Edge(nexts, a, b) && Reaches(nexts, b, c)
    ensures Reaches(nexts, a, c)
  {
    var path :| Path(nexts, path) && path[0] == b && path[|path| - 1] == c;
    var longer := [a] + path;
    forall i | 0 < i < |longer| ensures Edge(nexts, longer[i - 1], longer[i]) {
      if i > 1 {
        assert Edge(nexts, path[i - 1 - 1], path[i - 1]);
      }
    }
    assert longer[|longer| - 1] == c;
  }

  /** A set that is left by no edge holds all that can be reached from it. */
  ghost predicate Closed(nexts: ModuleGraph, s: set<ModuleId>) {
    forall a, b | a in s && Edge(nexts, a, b) :: b in s
  }

  lemma {:induction false} ClosedPath(nexts: ModuleGraph, s: set<ModuleId>, path: seq<ModuleId>, i: nat)
    requires Closed(nexts, s) && Path(nexts, path) && path[0] in s && i < |path|
    ensures path[i] in s
    decreases i
  {
    if i > 0 {
      ClosedPath(nexts, s, path, i - 1);
      assert Edge(nexts, path[i - 1], path[i]);
    }
  }

  lemma ClosedReaches(nexts: ModuleGraph, s: set<ModuleId>, a: ModuleId, b: ModuleId)
    requires Closed(nexts, s) && a in s && Reaches(nexts, a, b)
    ensures b in s
  {
    var path :| Path(nexts, path) && path[0] == a && path[|path| - 1] == b;
    ClosedPath(nexts, s, path, |path| - 1);
  }

  // ---------------------------------------------------------------------------------------------
  // The search
  // ---------------------------------------------------------------------------------------------

  /** What was visited since `before` can be found, and all its successors were visited. */
  ghost predicate Explored(nexts: ModuleGraph, before: set<ModuleId>, after: set<ModuleId>) {
    before <= after && forall a | a in after - before :: a in nexts && forall b | b in nexts[a] :: b in after
  }

  /** What was visited since `before` can be reached. */
  ghost predicate AllReached(nexts: ModuleGraph, a: ModuleId, before: set<ModuleId>, after: set<ModuleId>) {
    forall b | b in after - before :: Reaches(nexts, a, b)
  }

  /** Searches for the target from the cursor: whether it was found, and what was visited then. */
  method Search(target: ModuleId, cursor: ModuleId, nexts: ModuleGraph, before: set<ModuleId>)
    returns (r: Result<bool, StatusCode>, visited: set<ModuleId>)
    requires target !in before
    ensures r.Err? ==> r.error == MissingDependency && exists a :: Reaches(nexts, cursor, a) && a !in nexts
    ensures r == Ok(true) ==> Reaches(nexts, cursor, target)
    ensures r == Ok(false) ==>
              && cursor in visited && target !in visited
              && Explored(nexts, before, visited) && AllReached(nexts, cursor, before, visited)
    decreases nexts.Keys - before
  {
    visited := before;
    ReachesSelf(nexts, cursor);
    if cursor == target {
      return Ok(true), visited;
    }
    if cursor !in visited {
      visited := visited + {cursor};
      if cursor !in nexts {
        return Err(MissingDependency), visited;
      }
      var children := nexts[cursor];
      for i := 0 to |children|
        invariant target !in visited && before + {cursor} <= visited
        invariant forall j | 0 <= j < i :: children[j] in visited
        invariant Explored(nexts, before + {cursor}, visited)
        invariant AllReached(nexts, cursor, before, visited)
      {
        ghost var inner := visited;
        assert Edge(nexts, cursor, children[i]);
        var found;
        found, visited := Search(target, children[i], nexts, visited);
        if found.Err? {
          ghost var a :| Reaches(nexts, children[i], a) && a !in nexts;
          ReachesFirst(nexts, cursor, children[i], a);
          return found, visited;
        }
        if found.value {
          ReachesFirst(nexts, cursor, children[i], target);
          return Ok(true), visited;
        }
        forall b | b in visited - before ensures Reaches(nexts, cursor, b) {
          if b !in inner {
            ReachesFirst(nexts, cursor, children[i], b);
          }
        }
      }
    }
    r := Ok(false);
  }

  /**
   Collects all that can be reached from the items. This reports a cycle only if the target can be reached, and succeeds
   only if it cannot, with exactly what can be reached.
   */
  method CollectAll(target: ModuleId, items: seq<ModuleId>, nexts: ModuleGraph, errorOnCycle: StatusCode)
    returns (r: Result<set<ModuleId>, StatusCode>)
    requires errorOnCycle != MissingDependency
    ensures r.Ok? ==>
              && !ReachedFrom(nexts, items, target) && r.value <= nexts.Keys
              && forall a :: a in r.value <==> ReachedFrom(nexts, items, a)
    ensures r.Err? ==> r.error == errorOnCycle || r.error == MissingDependency
    ensures r == Err(errorOnCycle) ==> ReachedFrom(nexts, items, target)
    ensures r == Err(MissingDependency) ==> exists a :: ReachedFrom(nexts, items, a) && a !in nexts
  {
    var visited: set<ModuleId> := {};
    for i := 0 to |items|
      invariant target !in visited && Explored(nexts, {}, visited)
      invariant forall j | 0 <= j < i :: items[j] in visited
      invariant forall a | a in visited :: ReachedFrom(nexts, items, a)
    {
      ghost var before := visited;
      var found;
      found, visited := Search(target, items[i], nexts, visited);
      if found.Err? {
        ghost var a :| Reaches(nexts, items[i], a) && a !in nexts;
        assert ReachedFrom(nexts, items, a);
        return Err(found.error);
      }
      if found.value {
        return Err(errorOnCycle);
      }
    }
    forall a | ReachedFrom(nexts, items, a) ensures a in visited {
      var i :| 0 <= i < |items| && Reaches(nexts, items[i], a);
      ClosedReaches(nexts, visited, items[i], a);
    }
    r := Ok(visited);
  }

  /** The modules of all handles, from the given one on, that differ from the own one. */
  function ImmediateDependencies(m: CompiledModule, k: nat): seq<ModuleId>
    requires m.selfHandle < |m.moduleHandles|
    decreases |m.moduleHandles| - k
  {
    if k >= |m.moduleHandles| then []
    else if m.moduleHandles[k] == m.moduleHandles[m.selfHandle] then ImmediateDependencies(m, k + 1)
    else [ModuleAt(ModuleTables(m), k)] + ImmediateDependencies(m, k + 1)
  }

  /** All that the module depends on. */
  ghost predicate DependsOn(m: CompiledModule, deps: ModuleGraph, a: ModuleId)
    requires m.selfHandle < |m.moduleHandles|
  {
    ReachedFrom(deps, ImmediateDependencies(m, 0), a)
  }

  /** Handle `h` names the module, and is not the own one. */
  predicate NamesOther(m: CompiledModule, h: nat, a: ModuleId)
    requires m.selfHandle < |m.moduleHandles|
  {
    && h < |m.moduleHandles| && m.moduleHandles[h] != m.moduleHandles[m.selfHandle]
    && ModuleAt(ModuleTables(m), h) == a
  }

  lemma {:induction false} ImmediateIff(m: CompiledModule, k: nat, a: ModuleId)
    requires m.selfHandle < |m.moduleHandles|
    ensures a in ImmediateDependencies(m, k) <==> exists h | h >= k :: NamesOther(m, h, a)
    decreases |m.moduleHandles| - k
  {
    if k < |m.moduleHandles| {
      ImmediateIff(m, k + 1, a);
      if NamesOther(m, k, a) {
        assert a in ImmediateDependencies(m, k);
      }
    }
  }

  /** The module is on a cycle. */
  ghost predicate OnCycle(nexts: ModuleGraph, a: ModuleId) {
    exists path :: Path(nexts, path) && |path| > 1 && path[0] == a && path[|path| - 1] == a
  }

  /** A module depends on itself exactly if it is on a cycle of the graph. */
  lemma CycleIff(m: CompiledModule, deps: ModuleGraph)
    requires m.selfHandle < |m.moduleHandles|
    requires OwnId(m) in deps && deps[OwnId(m)] == ImmediateDependencies(m, 0)
    ensures DependsOn(m, deps, OwnId(m)) <==> OnCycle(deps, OwnId(m))
  {
    var a, nexts := OwnId(m), ImmediateDependencies(m, 0);
    if DependsOn(m, deps, a) {
      var i :| 0 <= i < |nexts| && Reaches(deps, nexts[i], a);
      var path :| Path(deps, path) && path[0] == nexts[i] && path[|path| - 1] == a;
      PathFrom(deps, a, path);
    }
    if OnCycle(deps, a) {
      var path :| Path(deps, path) && |path| > 1 && path[0] == a && path[|path| - 1] == a;
      assert Edge(deps, path[0], path[1]);
      PathAfter(deps, path);
      assert Reaches(deps, path[1], a);
    }
  }

  lemma PathFrom(nexts: ModuleGraph, a: ModuleId, path: seq<ModuleId>)
    requires Path(nexts, path) && Edge(nexts, a, path[0]) && path[|path| - 1] == a
    ensures OnCycle(nexts, a)
  {
    var longer := [a] + path;
    forall i | 0 < i < |longer| ensures Edge(nexts, longer[i - 1], longer[i]) {
      if i > 1 {
        assert Edge(nexts, path[i - 1 - 1], path[i - 1]);
      }
    }
    assert Path(nexts, longer) && longer[|longer| - 1] == a;
  }

  lemma PathAfter(nexts: ModuleGraph, path: seq<ModuleId>)
    requires Path(nexts, path) && |path| > 1
    ensures Path(nexts, path[1..])
  {
    forall i | 0 < i < |path[1..]| ensures Edge(nexts, path[1..][i - 1], path[1..][i]) {
      assert Edge(nexts, path[i], path[i + 1]);
    }
  }

  ghost predicate HasFriend(m: CompiledModule, friends: ModuleGraph, a: ModuleId) {
    ReachedFrom(friends, FriendsOf(m), a)
  }

  /** The module is on no cycle of dependencies or friends, and nothing that it depends on is among its friends. */
  ghost predicate Acyclic(m: CompiledModule, deps: ModuleGraph, friends: ModuleGraph)
    requires m.selfHandle < |m.moduleHandles|
  {
    && !DependsOn(m, deps, OwnId(m))
    && !HasFriend(m, friends, OwnId(m))
    && forall a :: !(DependsOn(m, deps, a) && HasFriend(m, friends, a))
  }

  /** Checks the module against cycles. Unless some module cannot be found, this accepts exactly if there are none. */
  method VerifyModule(m: CompiledModule, deps: ModuleGraph, friends: ModuleGraph) returns (r: Result<(), StatusCode>)
    requires m.selfHandle < |m.moduleHandles|
    ensures r.Ok? ==> Acyclic(m, deps, friends)
    ensures r == Err(MissingDependency) ==>
              || (exists a :: DependsOn(m, deps, a) && a !in deps)
              || (exists a :: HasFriend(m, friends, a) && a !in friends)
    ensures r == Err(CyclicModuleDependency) ==> DependsOn(m, deps, OwnId(m))
    ensures r == Err(CyclicModuleFriendship) ==> HasFriend(m, friends, OwnId(m))
    ensures r == Err(InvalidFriendDeclWithModulesInDependencies) ==>
              exists a :: DependsOn(m, deps, a) && HasFriend(m, friends, a)
    ensures r.Err? && r.error != MissingDependency ==> !Acyclic(m, deps, friends)
  {
    var allDeps :- CollectAll(OwnId(m), ImmediateDependencies(m, 0), deps, CyclicModuleDependency);
    var allFriends :- CollectAll(OwnId(m), FriendsOf(m), friends, CyclicModuleFriendship);
    forall a ensures a in allDeps * allFriends <==> DependsOn(m, deps, a) && HasFriend(m, friends, a) {
    }
    var overlap := allDeps * allFriends;
    if overlap != {} {
      ghost var a :| a in overlap;
      return Err(InvalidFriendDeclWithModulesInDependencies);
    }
    r := Ok(());
  }
}
