/** What the operations on borrow graphs do, and what they mean for aliases. */
module BorrowOperations {
  import opened Paths
  import opened BorrowEdges
  import opened BorrowMeaning

  /** The same references, with the same mutability. */
  ghost predicate SameRefs(g: Graph, g': Graph) {
    g'.Keys == g.Keys && forall r | r in g :: g'[r].isMutable == g[r].isMutable
  }

  // ---------------------------------------------------------------------------------------------
  // Join
  // ---------------------------------------------------------------------------------------------

  /** The edges of `other` that `g` does not cover. */
  ghost function Unmatched(g: Graph, other: Graph, p: RefId, c: RefId): set<BorrowEdge> {
    set e | e in EdgesAt(other, p, c).edges && !Matched(EdgesAt(g, p, c), e)
  }

  /** The unmatched edges of `other` are added to `g`. */
  ghost predicate JoinOf(g: Graph, other: Graph, j: Graph) {
    && SameRefs(g, j) && Valid(j)
    && forall p, c :: Inserted(EdgesAt(g, p, c), Unmatched(g, other, p, c), EdgesAt(j, p, c))
  }

  /** A join is an upper bound of both sides, even when edge sets overflow. */
  lemma JoinIsUpperBound(g: Graph, other: Graph, j: Graph)
    requires Valid(g) && JoinOf(g, other, j)
    ensures GraphLeq(j, g) && GraphLeq(j, other)
    ensures Contains(j, g) && Contains(j, other)
  {
    forall p, c, e | e in EdgesAt(g, p, c).edges ensures Matched(EdgesAt(j, p, c), e) {
      EdgesShaped(g, p, c);
      InsertedCovers(EdgesAt(g, p, c), Unmatched(g, other, p, c), EdgesAt(j, p, c), e);
    }
    forall p, c, e | e in EdgesAt(other, p, c).edges ensures Matched(EdgesAt(j, p, c), e) {
      EdgesShaped(g, p, c);
      if Matched(EdgesAt(g, p, c), e) {
        var d :| d in EdgesAt(g, p, c).edges && EdgeLeq(d, e);
        assert Matched(EdgesAt(j, p, c), d);
        var f :| f in EdgesAt(j, p, c).edges && EdgeLeq(f, d);
        EdgeLeqTransitive(f, d, e);
      } else {
        InsertedCovers(EdgesAt(g, p, c), Unmatched(g, other, p, c), EdgesAt(j, p, c), e);
      }
    }
    GraphLeqContains(j, g);
    GraphLeqContains(j, other);
  }

  /** No edge set became lossy. */
  ghost predicate NoOverflow(g: Graph, j: Graph) {
    forall p, c | EdgesAt(j, p, c).overflown :: EdgesAt(g, p, c).overflown
  }

  /** A join without overflow is the least upper bound. */
  lemma JoinIsLeast(g: Graph, other: Graph, j: Graph, u: Graph)
    requires JoinOf(g, other, j) && NoOverflow(g, j)
    requires GraphLeq(u, g) && GraphLeq(u, other)
    ensures GraphLeq(u, j)
  {
    forall p, c, e | e in EdgesAt(j, p, c).edges ensures Matched(EdgesAt(u, p, c), e) {
      assert Inserted(EdgesAt(g, p, c), Unmatched(g, other, p, c), EdgesAt(j, p, c));
      assert e in EdgesAt(g, p, c).edges || e in EdgesAt(other, p, c).edges;
    }
  }

  // ---------------------------------------------------------------------------------------------
  // Finite height
  // ---------------------------------------------------------------------------------------------

  /** How full a set of edges is: 11 stands for overflown. */
  function Level(s: BorrowEdgeSet): nat {
    if s.overflown then MAX_EDGE_SET_SIZE + 1 else |s.edges|
  }

  ghost function Pairs(refs: set<RefId>): set<(RefId, RefId)> {
    set p, c | p in refs && c in refs && p != c :: (p, c)
  }

  /** The summed levels of the given pairs. */
  ghost function Total(g: Graph, pairs: set<(RefId, RefId)>): nat {
    if pairs == {} then 0
    else
      var x :| x in pairs;
      Level(EdgesAt(g, x.0, x.1)) + Total(g, pairs - {x})
  }

  lemma {:induction false} TotalWithout(g: Graph, pairs: set<(RefId, RefId)>, y: (RefId, RefId))
    requires y in pairs
    ensures Total(g, pairs) == Level(EdgesAt(g, y.0, y.1)) + Total(g, pairs - {y})
    decreases |pairs|
  {
    var x :| x in pairs && Total(g, pairs) == Level(EdgesAt(g, x.0, x.1)) + Total(g, pairs - {x});
    if x != y {
      TotalWithout(g, pairs - {x}, y);
      TotalWithout(g, pairs - {y}, x);
      assert pairs - {x} - {y} == pairs - {y} - {x};
    }
  }

  lemma {:induction false} TotalBounded(g: Graph, pairs: set<(RefId, RefId)>)
    requires Valid(g)
    ensures Total(g, pairs) <= (MAX_EDGE_SET_SIZE + 1) * |pairs|
    decreases |pairs|
  {
    if pairs != {} {
      var x :| x in pairs;
      TotalWithout(g, pairs, x);
      TotalBounded(g, pairs - {x});
      EdgesShaped(g, x.0, x.1);
    }
  }

  lemma {:induction false} TotalGrows(g: Graph, j: Graph, pairs: set<(RefId, RefId)>, y: (RefId, RefId))
    requires forall x | x in pairs :: Level(EdgesAt(g, x.0, x.1)) <= Level(EdgesAt(j, x.0, x.1))
    ensures Total(g, pairs) <= Total(j, pairs)
    ensures y in pairs && Level(EdgesAt(g, y.0, y.1)) < Level(EdgesAt(j, y.0, y.1))
      ==> Total(g, pairs) < Total(j, pairs)
    decreases |pairs|
  {
    if pairs != {} {
      var x :| x in pairs;
      TotalWithout(g, pairs, x);
      TotalWithout(j, pairs, x);
      TotalGrows(g, j, pairs - {x}, y);
    }
  }

  ghost function PairsFrom(r: RefId, rest: set<RefId>): set<(RefId, RefId)> {
    set c | c in rest :: (r, c)
  }

  ghost function PairsTo(rest: set<RefId>, r: RefId): set<(RefId, RefId)> {
    set p | p in rest :: (p, r)
  }

  lemma {:induction false} PairsWith(rest: set<RefId>, r: RefId)
    ensures |PairsFrom(r, rest)| == |rest| && |PairsTo(rest, r)| == |rest|
    decreases |rest|
  {
    if rest != {} {
      var x :| x in rest;
      PairsWith(rest - {x}, r);
      assert PairsFrom(r, rest) == PairsFrom(r, rest - {x}) + {(r, x)};
      assert PairsTo(rest, r) == PairsTo(rest - {x}, r) + {(x, r)};
    }
  }

  lemma PairsSplit(rest: set<RefId>, r: RefId)
    requires r !in rest
    ensures |Pairs(rest + {r})| == |Pairs(rest)| + |rest| + |rest|
  {
    PairsWith(rest, r);
    var from, to := PairsFrom(r, rest), PairsTo(rest, r);
    assert Pairs(rest + {r}) == Pairs(rest) + from + to;
    assert Pairs(rest) !! from;
    assert (Pairs(rest) + from) !! to;
  }

  lemma {:induction false} PairCount(refs: set<RefId>)
    ensures |Pairs(refs)| == |refs| * (|refs| - 1)
    decreases |refs|
  {
    if refs != {} {
      var r :| r in refs;
      var rest := refs - {r};
      PairCount(rest);
      PairsSplit(rest, r);
      assert rest + {r} == refs;
      var n := |rest|;
      assert n * (n - 1) + n + n == (n + 1) * n;
    } else {
      assert Pairs(refs) == {};
    }
  }

  /** A valid graph has an entry exactly where it has edges. */
  lemma EntryIff(g: Graph, p: RefId, c: RefId)
    requires Valid(g)
    ensures p in g && c in g[p].borrowedBy <==> EdgesAt(g, p, c).edges != {}
    ensures c in g && p in g[c].borrowsFrom <==> EdgesAt(g, p, c).edges != {}
    ensures EdgesAt(g, p, c).edges != {} ==> p in g && c in g && p != c
  {
    assert PairOk(g, p, c);
  }

  /** A valid graph is determined by its references and its edges. */
  lemma SameEdgesSameGraph(g: Graph, j: Graph)
    requires Valid(g) && Valid(j) && SameRefs(g, j)
    requires forall p, c :: EdgesAt(g, p, c) == EdgesAt(j, p, c)
    ensures g == j
  {
    forall r | r in g ensures g[r] == j[r] {
      SameEdgesSameRef(g, j, r);
    }
  }

  lemma SameEdgesSameRef(g: Graph, j: Graph, r: RefId)
    requires Valid(g) && Valid(j) && SameRefs(g, j) && r in g
    requires forall p, c :: EdgesAt(g, p, c) == EdgesAt(j, p, c)
    ensures g[r] == j[r]
  {
    var a, b := g[r], j[r];
    forall c ensures c in a.borrowedBy <==> c in b.borrowedBy {
      EntryIff(g, r, c);
      EntryIff(j, r, c);
    }
    forall c | c in a.borrowedBy ensures a.borrowedBy[c] == b.borrowedBy[c] {
      assert EdgesAt(g, r, c) == EdgesAt(j, r, c);
    }
    assert a.borrowedBy == b.borrowedBy;
    forall p ensures p in a.borrowsFrom <==> p in b.borrowsFrom {
      EntryIff(g, p, r);
      EntryIff(j, p, r);
    }
    assert a.borrowsFrom == b.borrowsFrom;
  }

  /** Inserting edges that are not there yet raises the level, unless nothing changes. */
  lemma InsertedRaises(s: BorrowEdgeSet, xs: set<BorrowEdge>, r: BorrowEdgeSet)
    requires Shaped(s) && Inserted(s, xs, r)
    ensures Level(s) <= Level(r)
    ensures s != r ==> Level(s) < Level(r)
  {
    if !r.overflown {
      SubsetSize(s.edges, r.edges);
    }
  }

  lemma JoinLevel(g: Graph, other: Graph, j: Graph, p: RefId, c: RefId)
    requires Valid(g) && JoinOf(g, other, j)
    ensures Level(EdgesAt(g, p, c)) <= Level(EdgesAt(j, p, c))
    ensures EdgesAt(g, p, c) != EdgesAt(j, p, c) ==> Level(EdgesAt(g, p, c)) < Level(EdgesAt(j, p, c))
  {
    EdgesShaped(g, p, c);
    InsertedRaises(EdgesAt(g, p, c), Unmatched(g, other, p, c), EdgesAt(j, p, c));
  }

  /** A join that changes the graph raises its total level. */
  lemma JoinRaises(g: Graph, other: Graph, j: Graph)
    requires Valid(g) && JoinOf(g, other, j)
    ensures Total(g, Pairs(g.Keys)) <= Total(j, Pairs(g.Keys))
    ensures j != g ==> Total(g, Pairs(g.Keys)) < Total(j, Pairs(g.Keys))
  {
    forall x | x in Pairs(g.Keys) ensures Level(EdgesAt(g, x.0, x.1)) <= Level(EdgesAt(j, x.0, x.1)) {
      JoinLevel(g, other, j, x.0, x.1);
    }
    if j != g {
      var p, c := DifferingPair(g, j);
      JoinLevel(g, other, j, p, c);
      assert (p, c) in Pairs(g.Keys);
      TotalGrows(g, j, Pairs(g.Keys), (p, c));
    }
  }

  lemma DifferingPair(g: Graph, j: Graph) returns (p: RefId, c: RefId)
    requires Valid(g) && Valid(j) && SameRefs(g, j) && g != j
    ensures EdgesAt(g, p, c) != EdgesAt(j, p, c) && p in g && c in g && p != c
  {
    if forall p, c :: EdgesAt(g, p, c) == EdgesAt(j, p, c) {
      SameEdgesSameGraph(g, j);
    }
    p, c :| EdgesAt(g, p, c) != EdgesAt(j, p, c);
    EntryIff(g, p, c);
    EntryIff(j, p, c);
  }

  /** A chain of graphs, each the join of the one before with the next of `others`. */
  ghost predicate JoinChain(chain: seq<Graph>, others: seq<Graph>) {
    && |chain| == |others| + 1
    && (forall k | 0 <= k < |chain| :: Valid(chain[k]))
    && (forall k | 0 <= k < |others| :: JoinOf(chain[k], others[k], chain[k + 1]))
  }

  /** The number of joins of the chain that changed the graph. */
  function Changes(chain: seq<Graph>): nat {
    if |chain| <= 1 then 0
    else
      var n := |chain| - 1;
      Changes(chain[..n]) + (if chain[n] == chain[n - 1] then 0 else 1)
  }

  lemma {:induction false} ChangesRaise(chain: seq<Graph>, others: seq<Graph>)
    requires JoinChain(chain, others)
    ensures chain[|chain| - 1].Keys == chain[0].Keys
    ensures Changes(chain) <= Total(chain[|chain| - 1], Pairs(chain[0].Keys))
    decreases |chain|
  {
    var n := |others|;
    if n > 0 {
      ChangesRaise(chain[..n], others[..n - 1]);
      assert JoinOf(chain[n - 1], others[n - 1], chain[n - 1 + 1]);
      JoinRaises(chain[n - 1], others[n - 1], chain[n]);
    }
  }

  /** Finite height: in any chain of joins over n references, the graph changes at most 11 n (n - 1) times. */
  lemma FiniteHeight(chain: seq<Graph>, others: seq<Graph>)
    requires JoinChain(chain, others)
    ensures var n := |chain[0].Keys|; Changes(chain) <= (MAX_EDGE_SET_SIZE + 1) * (n * (n - 1))
  {
    ChangesRaise(chain, others);
    TotalBounded(chain[|chain| - 1], Pairs(chain[0].Keys));
    PairCount(chain[0].Keys);
  }

  // ---------------------------------------------------------------------------------------------
  // Factor
  // ---------------------------------------------------------------------------------------------

  /** The reference has no edges. */
  predicate Isolated(g: Graph, r: RefId) {
    r in g && g[r].borrowedBy == map[] && g[r].borrowsFrom == {}
  }

  /** The edges that do not go through `path`. */
  function Kept(s: BorrowEdgeSet, path: Path): BorrowEdgeSet {
    var kept := set e | e in s.edges && !Leq(path, e.path);
    if kept == {} then NO_EDGES else BorrowEdgeSet(kept, s.overflown)
  }

  /** The edge without its first part `path`. */
  function Suffix(path: Path, e: BorrowEdge): BorrowEdge
    requires Leq(path, e.path)
  {
    BorrowEdge(e.strong, Factor(path, e.path).1)
  }

  /** The rest of the edges that go through `path`. */
  function Moved(s: BorrowEdgeSet, path: Path): set<BorrowEdge> {
    set e | e in s.edges && Leq(path, e.path) :: Suffix(path, e)
  }

  /** The edges of `parent` through `path` now start at `mid`, which borrows exactly `path` from `parent`. */
  ghost predicate FactorOf(g: Graph, parent: RefId, path: Path, mid: RefId, g': Graph) {
    && SameRefs(g, g') && Valid(g')
    && forall p, c :: EdgesAt(g', p, c) == Factored(g, parent, path, mid, p, c)
  }

  /** The edges from `p` to `c` after factoring. */
  function Factored(g: Graph, parent: RefId, path: Path, mid: RefId, p: RefId, c: RefId): BorrowEdgeSet {
    if p == parent && c == mid then BorrowEdgeSet({BorrowEdge(true, path)}, false)
    else if p == parent then Kept(EdgesAt(g, parent, c), path)
    else if p == mid then BorrowEdgeSet(Moved(EdgesAt(g, parent, c), path), false)
    else EdgesAt(g, p, c)
  }

  /** Means of an edge through `path`: `path` followed by a meaning of the rest. */
  lemma SuffixMeans(path: Path, e: BorrowEdge, q: Path)
    requires Leq(path, e.path)
    ensures Means(Suffix(path, e), q) <==> Means(e, path + q)
  {
    assert e.path == path + Suffix(path, e).path;
    if Means(e, path + q) {
      assert (path + q)[|path|..] == q;
    }
  }

  /** Every meaning of an edge through `path` starts with `path`. */
  lemma MeansStarts(path: Path, e: BorrowEdge, q: Path)
    requires Leq(path, e.path) && Means(e, q)
    ensures q == path + q[|path|..] && Means(Suffix(path, e), q[|path|..])
  {
    assert q == path + q[|path|..];
    SuffixMeans(path, e, q[|path|..]);
  }

  /** Every edge is kept, or is derivable in two steps through the new reference. */
  lemma FactorEdge(
    g: Graph, parent: RefId, path: Path, mid: RefId, g': Graph, a: RefId, e: BorrowEdge, c: RefId, q: Path)
    requires a != mid && c != mid
    requires forall p, c :: EdgesAt(g', p, c) == Factored(g, parent, path, mid, p, c)
    requires parent != mid && e in EdgesAt(g, a, c).edges && Means(e, q)
    ensures Derives(g', a, c, q)
  {
    if a == parent && Leq(path, e.path) {
      var rest := q[|path|..];
      MeansStarts(path, e, q);
      assert Suffix(path, e) in Moved(EdgesAt(g, parent, c), path);
      assert EdgesAt(g', mid, c) == Factored(g, parent, path, mid, mid, c);
      DerivesEdge(g', mid, Suffix(path, e), c, rest);
      assert EdgesAt(g', parent, mid) == Factored(g, parent, path, mid, parent, mid);
      DerivesEdge(g', parent, BorrowEdge(true, path), mid, path);
      DerivesTransitive(g', parent, mid, c, path, rest);
    } else {
      assert EdgesAt(g', a, c) == Factored(g, parent, path, mid, a, c);
      assert e in EdgesAt(g', a, c).edges;
      DerivesEdge(g', a, e, c, q);
    }
  }

  /** No alias is lost by factoring. */
  lemma FactorKeeps(g: Graph, parent: RefId, path: Path, mid: RefId, g': Graph)
    requires Valid(g) && parent != mid && Isolated(g, mid) && FactorOf(g, parent, path, mid, g')
    ensures Contains(g', g)
  {
    forall a, e, c, q | e in EdgesAt(g, a, c).edges && Means(e, q) ensures Derives(g', a, c, q) {
      EntryIff(g, a, c);
      FactorEdge(g, parent, path, mid, g', a, e, c, q);
    }
    EdgesSuffice(g', g);
  }

  /** The path `p` is what the factored graph should spell from `a` to `b`. */
  ghost predicate Spells(g: Graph, parent: RefId, path: Path, mid: RefId, a: RefId, b: RefId, p: Path) {
    if b != mid then Derives(g, a, b, p)
    else exists r :: Derives(g, a, parent, r) && p == r + path
  }

  lemma SpellsPrepend(
    g: Graph, parent: RefId, path: Path, mid: RefId, a: RefId, q: Path, x: RefId, b: RefId, p: Path)
    requires Derives(g, a, x, q) && Spells(g, parent, path, mid, x, b, p)
    ensures Spells(g, parent, path, mid, a, b, q + p)
  {
    if b != mid {
      DerivesTransitive(g, a, x, b, q, p);
    } else {
      var r :| Derives(g, x, parent, r) && p == r + path;
      DerivesTransitive(g, a, x, parent, q, r);
      assert q + p == (q + r) + path;
    }
  }

  /** A step between old references is a step of the original graph. */
  lemma FactorOldStep(g: Graph, parent: RefId, path: Path, mid: RefId, g': Graph, a: RefId, step: Step)
    requires FactorOf(g, parent, path, mid, g') && a != mid && step.to != mid && StepOf(g', a, step)
    ensures Derives(g, a, step.to, step.via)
  {
    assert EdgesAt(g', a, step.to) == Factored(g, parent, path, mid, a, step.to);
    DerivesEdge(g, a, step.edge, step.to, step.via);
  }

  /** The new reference is entered from its parent only, for exactly the factored path. */
  lemma FactorEntry(g: Graph, parent: RefId, path: Path, mid: RefId, g': Graph, a: RefId, step: Step)
    requires Valid(g) && Isolated(g, mid) && FactorOf(g, parent, path, mid, g')
    requires a != mid && step.to == mid && StepOf(g', a, step)
    ensures a == parent && step.via == path
  {
    assert EdgesAt(g', a, mid) == Factored(g, parent, path, mid, a, mid);
    EntryIff(g, a, mid);
  }

  /** The new reference is left along the rest of an original edge. */
  lemma FactorExit(g: Graph, parent: RefId, path: Path, mid: RefId, g': Graph, step: Step)
    requires Valid(g) && parent != mid && Isolated(g, mid) && FactorOf(g, parent, path, mid, g')
    requires StepOf(g', mid, step)
    ensures step.to != mid && Derives(g, parent, step.to, path + step.via)
  {
    var c := step.to;
    EntryIff(g', mid, c);
    assert EdgesAt(g', mid, c) == Factored(g, parent, path, mid, mid, c);
    var e :| e in EdgesAt(g, parent, c).edges && Leq(path, e.path) && step.edge == Suffix(path, e);
    SuffixMeans(path, e, step.via);
    DerivesEdge(g, parent, e, c, path + step.via);
  }

  /** What the three kinds of steps of the factored graph stand for in the original. */
  ghost predicate FactorSteps(g: Graph, parent: RefId, path: Path, mid: RefId, g': Graph) {
    && (forall a, step | StepOf(g', a, step) && a != mid && step.to != mid :: Derives(g, a, step.to, step.via))
    && (forall a, step | StepOf(g', a, step) && a != mid && step.to == mid :: a == parent && step.via == path)
    && (forall step | StepOf(g', mid, step) :: step.to != mid && Derives(g, parent, step.to, path + step.via))
  }

  lemma FactorHasSteps(g: Graph, parent: RefId, path: Path, mid: RefId, g': Graph)
    requires Valid(g) && parent != mid && Isolated(g, mid) && FactorOf(g, parent, path, mid, g')
    ensures FactorSteps(g, parent, path, mid, g')
  {
    forall a, step | StepOf(g', a, step) && a != mid && step.to != mid ensures Derives(g, a, step.to, step.via) {
      FactorOldStep(g, parent, path, mid, g', a, step);
    }
    forall a, step | StepOf(g', a, step) && a != mid && step.to == mid ensures a == parent && step.via == path {
      FactorEntry(g, parent, path, mid, g', a, step);
    }
    forall step | StepOf(g', mid, step) ensures step.to != mid && Derives(g, parent, step.to, path + step.via) {
      FactorExit(g, parent, path, mid, g', step);
    }
  }

  /** The first step of a walk of the factored graph, or the first two if they pass the new reference. */
  lemma FactorHead(
    g: Graph, parent: RefId, path: Path, mid: RefId, g': Graph, a: RefId, walk: seq<Step>, b: RefId)
    returns (n: nat, x: RefId, q: Path)
    requires FactorSteps(g, parent, path, mid, g')
    requires Walk(g', a, walk, b) && a != mid && walk != [] && !(|walk| == 1 && b == mid)
    ensures 0 < n <= |walk| && x != mid && Derives(g, a, x, q)
    ensures Walk(g', x, walk[n..], b) && PathOf(walk) == q + PathOf(walk[n..])
  {
    assert StepOf(g', a, walk[0]);
    if walk[0].to != mid {
      n, x, q := 1, walk[0].to, walk[0].via;
    } else {
      var tail := walk[1..];
      assert |tail| > 0 && Walk(g', mid, tail, b);
      assert StepOf(g', mid, tail[0]);
      n, x, q := 2, tail[0].to, path + tail[0].via;
      assert walk[2..] == tail[1..] && Walk(g', x, tail[1..], b);
      assert PathOf(tail) == tail[0].via + PathOf(tail[1..]);
      assert PathOf(walk) == path + (tail[0].via + PathOf(tail[1..]));
    }
  }

  /** Walks of the factored graph spell what they should. */
  lemma {:induction false} FactorWalks(
    g: Graph, parent: RefId, path: Path, mid: RefId, g': Graph, a: RefId, walk: seq<Step>, b: RefId)
    requires FactorSteps(g, parent, path, mid, g')
    requires Walk(g', a, walk, b) && a != mid
    ensures Spells(g, parent, path, mid, a, b, PathOf(walk))
    decreases |walk|
  {
    if walk == [] {
      DerivesSelf(g, a);
    } else if |walk| == 1 && b == mid {
      assert walk[1..] == [] && walk[0].to == mid;
      assert StepOf(g', a, walk[0]);
      DerivesSelf(g, parent);
      assert PathOf(walk) == [] + path;
    } else {
      var n, x, q := FactorHead(g, parent, path, mid, g', a, walk, b);
      FactorWalks(g, parent, path, mid, g', x, walk[n..], b);
      SpellsPrepend(g, parent, path, mid, a, q, x, b, PathOf(walk[n..]));
    }
  }

  /**
   Factoring through a fresh reference preserves meaning exactly: between the old references the same paths are
   derivable before and after, and the new reference stands for exactly the factored path of its parent.
   */
  lemma FactorIsExact(g: Graph, parent: RefId, path: Path, mid: RefId, g': Graph, a: RefId, b: RefId, p: Path)
    requires Valid(g) && parent != mid && Isolated(g, mid) && FactorOf(g, parent, path, mid, g')
    requires a != mid
    ensures b != mid ==> (Derives(g', a, b, p) <==> Derives(g, a, b, p))
    ensures Derives(g', a, mid, p) <==> exists r :: Derives(g, a, parent, r) && p == r + path
  {
    FactorKeeps(g, parent, path, mid, g');
    FactorHasSteps(g, parent, path, mid, g');
    forall c | Derives(g', a, c, p) ensures Spells(g, parent, path, mid, a, c, p) {
      var walk :| Walk(g', a, walk, c) && PathOf(walk) == p;
      FactorWalks(g, parent, path, mid, g', a, walk, c);
    }
    if r :| Derives(g, a, parent, r) && p == r + path {
      assert EdgesAt(g', parent, mid) == BorrowEdgeSet({BorrowEdge(true, path)}, false);
      DerivesEdge(g', parent, BorrowEdge(true, path), mid, path);
      DerivesTransitive(g', a, parent, mid, r, path);
    }
  }

  // ---------------------------------------------------------------------------------------------
  // Release
  // ---------------------------------------------------------------------------------------------

  /** The edges from `p` to `c` past the reference `id`. */
  function Spliced(g: Graph, p: RefId, id: RefId, c: RefId): set<BorrowEdge> {
    set pe, ce | pe in EdgesAt(g, p, id).edges && ce in EdgesAt(g, id, c).edges :: Compose(pe, ce)
  }

  /** The reference is gone, and its parents are connected to its children. */
  ghost predicate ReleaseOf(g: Graph, id: RefId, g': Graph) {
    && g'.Keys == g.Keys - {id} && (forall r | r in g' :: g'[r].isMutable == g[r].isMutable) && Valid(g')
    && forall p, c | p != id && c != id && p != c ::
         Inserted(EdgesAt(g, p, c), Spliced(g, p, id, c), EdgesAt(g', p, c))
  }

  /** No reference both lends to and borrows from `id`. */
  ghost predicate NoTwoCycle(g: Graph, id: RefId) {
    forall x :: EdgesAt(g, x, id).edges == {} || EdgesAt(g, id, x).edges == {}
  }

  lemma ReleaseEdge(g: Graph, id: RefId, g': Graph, a: RefId, e: BorrowEdge, c: RefId, q: Path)
    requires Valid(g) && ReleaseOf(g, id, g') && a != id && c != id && a != c
    requires e in EdgesAt(g, a, c).edges + Spliced(g, a, id, c) && Means(e, q)
    ensures Derives(g', a, c, q)
  {
    EdgesShaped(g, a, c);
    InsertedCovers(EdgesAt(g, a, c), Spliced(g, a, id, c), EdgesAt(g', a, c), e);
    var d :| d in EdgesAt(g', a, c).edges && EdgeLeq(d, e);
    EdgeLeqMeans(d, e, q);
    DerivesEdge(g', a, d, c, q);
  }

  /** Every two steps through `id` that form a cycle are derivable afterwards. */
  ghost predicate CyclesCovered(g: Graph, id: RefId, g': Graph) {
    forall x, pe, ce, p, q |
      pe in EdgesAt(g, x, id).edges && ce in EdgesAt(g, id, x).edges && Means(pe, p) && Means(ce, q) ::
      Derives(g', x, x, p + q)
  }

  /** The first step of a walk, or the first two if they pass the released reference. */
  lemma ReleaseHead(g: Graph, id: RefId, g': Graph, a: RefId, walk: seq<Step>, b: RefId)
    returns (n: nat, x: RefId, q: Path)
    requires Valid(g) && ReleaseOf(g, id, g') && CyclesCovered(g, id, g')
    requires Walk(g, a, walk, b) && a != id && b != id && walk != []
    ensures 0 < n <= |walk| && x != id && Derives(g', a, x, q)
    ensures Walk(g, x, walk[n..], b) && PathOf(walk) == q + PathOf(walk[n..])
  {
    EntryIff(g, a, walk[0].to);
    if walk[0].to != id {
      ReleaseEdge(g, id, g', a, walk[0].edge, walk[0].to, walk[0].via);
      n, x, q := 1, walk[0].to, walk[0].via;
    } else {
      var tail := walk[1..];
      assert |tail| > 0 && Walk(g, id, tail, b);
      EntryIff(g, id, tail[0].to);
      ReleaseDetour(g, id, g', a, walk[0], tail[0]);
      n, x, q := 2, tail[0].to, walk[0].via + tail[0].via;
      assert tail[1..] == walk[2..];
      assert PathOf(walk) == walk[0].via + (tail[0].via + PathOf(tail[1..]));
    }
  }

  lemma {:induction false} ReleaseWalks(g: Graph, id: RefId, g': Graph, a: RefId, walk: seq<Step>, b: RefId)
    requires Valid(g) && ReleaseOf(g, id, g') && CyclesCovered(g, id, g')
    requires Walk(g, a, walk, b) && a != id && b != id
    ensures Derives(g', a, b, PathOf(walk))
    decreases |walk|
  {
    if walk == [] {
      DerivesSelf(g', a);
    } else {
      var n, x, q := ReleaseHead(g, id, g', a, walk, b);
      ReleaseWalks(g, id, g', x, walk[n..], b);
      DerivesTransitive(g', a, x, b, q, PathOf(walk[n..]));
    }
  }

  /** Two steps through the released reference are derivable without it. */
  lemma ReleaseDetour(g: Graph, id: RefId, g': Graph, a: RefId, first: Step, second: Step)
    requires Valid(g) && ReleaseOf(g, id, g') && CyclesCovered(g, id, g')
    requires a != id && first.to == id && second.to != id
    requires StepOf(g, a, first) && StepOf(g, id, second)
    ensures Derives(g', a, second.to, first.via + second.via)
  {
    if a != second.to {
      var e := Compose(first.edge, second.edge);
      assert e in Spliced(g, a, id, second.to);
      ComposeMeans(first.edge, second.edge, first.via, second.via);
      ReleaseEdge(g, id, g', a, e, second.to, first.via + second.via);
    }
  }

  /** Nothing derivable between the remaining references is lost. */
  ghost predicate LosesNothing(g: Graph, id: RefId, g': Graph) {
    forall a, b, p | a != id && b != id && Derives(g, a, b, p) :: Derives(g', a, b, p)
  }

  lemma ReleaseFollowsCycles(g: Graph, id: RefId, g': Graph)
    requires Valid(g) && ReleaseOf(g, id, g') && CyclesCovered(g, id, g')
    ensures LosesNothing(g, id, g')
  {
    forall a, b, p | a != id && b != id && Derives(g, a, b, p) ensures Derives(g', a, b, p) {
      var walk :| Walk(g, a, walk, b) && PathOf(walk) == p;
      ReleaseWalks(g, id, g', a, walk, b);
    }
  }

  /**
   Releasing a reference on no cycle of two loses no alias: every path between two remaining references that was
   derivable before, also through the released one, is derivable after.
   */
  lemma ReleaseKeepsAliases(g: Graph, id: RefId, g': Graph)
    requires Valid(g) && ReleaseOf(g, id, g') && NoTwoCycle(g, id)
    ensures LosesNothing(g, id, g')
  {
    assert CyclesCovered(g, id, g');
    ReleaseFollowsCycles(g, id, g');
  }

  /** No walk of the graph returns to where it started. */
  ghost predicate Acyclic(g: Graph) {
    forall x, walk | Walk(g, x, walk, x) :: walk == []
  }

  lemma TwoCycleWalk(g: Graph, x: RefId, pe: BorrowEdge, y: RefId, ce: BorrowEdge) returns (walk: seq<Step>)
    requires pe in EdgesAt(g, x, y).edges && ce in EdgesAt(g, y, x).edges
    ensures Walk(g, x, walk, x) && walk != []
  {
    OwnMeaning(pe);
    OwnMeaning(ce);
    walk := [Step(pe, y, pe.path), Step(ce, x, ce.path)];
    assert walk[1..] == [Step(ce, x, ce.path)] && walk[1..][1..] == [];
  }

  /** Releasing a reference from an acyclic graph loses no alias. */
  lemma ReleaseKeepsAliasesOfAcyclic(g: Graph, id: RefId, g': Graph)
    requires Valid(g) && ReleaseOf(g, id, g') && Acyclic(g)
    ensures LosesNothing(g, id, g')
  {
    forall x ensures EdgesAt(g, x, id).edges == {} || EdgesAt(g, id, x).edges == {} {
      if pe, ce :| pe in EdgesAt(g, x, id).edges && ce in EdgesAt(g, id, x).edges {
        var walk := TwoCycleWalk(g, x, pe, id, ce);
      }
    }
    ReleaseKeepsAliases(g, id, g');
  }

  /** The only cycles of the graph are those of two references one of which is `id`. */
  ghost predicate OnlyTwoCycles(g: Graph, id: RefId) {
    forall x, walk | x != id && Walk(g, x, walk, x) :: StaysAt(walk, x, id)
  }

  ghost predicate StaysAt(walk: seq<Step>, x: RefId, id: RefId) {
    forall i | 0 <= i < |walk| :: walk[i].to == x || walk[i].to == id
  }

  /** A step after the release is one or two steps before. */
  lemma LiftStep(g: Graph, id: RefId, g': Graph, a: RefId, step: Step) returns (lifted: seq<Step>)
    requires Valid(g) && ReleaseOf(g, id, g') && StepOf(g', a, step)
    ensures a != id && step.to != id && step.to != a
    ensures Walk(g, a, lifted, step.to) && lifted != [] && lifted[|lifted| - 1].to == step.to
  {
    var c := step.to;
    EntryIff(g', a, c);
    EdgesShaped(g, a, c);
    if e :| e in EdgesAt(g, a, c).edges {
      OwnMeaning(e);
      lifted := [Step(e, c, e.path)];
      assert lifted[1..] == [];
    } else {
      var e :| e in Spliced(g, a, id, c);
      var pe, ce :| pe in EdgesAt(g, a, id).edges && ce in EdgesAt(g, id, c).edges && e == Compose(pe, ce);
      OwnMeaning(pe);
      OwnMeaning(ce);
      lifted := [Step(pe, id, pe.path), Step(ce, c, ce.path)];
      assert lifted[1..] == [Step(ce, c, ce.path)] && lifted[1..][1..] == [];
    }
  }

  lemma {:induction false} LiftWalk(g: Graph, id: RefId, g': Graph, a: RefId, walk: seq<Step>, b: RefId)
    returns (lifted: seq<Step>)
    requires Valid(g) && ReleaseOf(g, id, g') && Walk(g', a, walk, b)
    ensures Walk(g, a, lifted, b)
    ensures walk != [] ==> a != id && exists i :: 0 <= i < |lifted| && lifted[i].to == walk[0].to
    decreases |walk|
  {
    if walk == [] {
      lifted := [];
    } else {
      var first := LiftStep(g, id, g', a, walk[0]);
      var rest := LiftWalk(g, id, g', walk[0].to, walk[1..], b);
      lifted := first + rest;
      WalkConcat(g, a, first, walk[0].to, rest, b);
      assert lifted[|first| - 1].to == walk[0].to;
    }
  }

  /** If there are no other cycles, the release leaves none. */
  lemma ReleaseLeavesAcyclic(g: Graph, id: RefId, g': Graph)
    requires Valid(g) && ReleaseOf(g, id, g') && OnlyTwoCycles(g, id)
    ensures Acyclic(g')
  {
    forall x, walk | Walk(g', x, walk, x) ensures walk == [] {
      if walk != [] {
        var lifted := LiftWalk(g, id, g', x, walk, x);
        assert StaysAt(lifted, x, id);
        var first := LiftStep(g, id, g', x, walk[0]);
      }
    }
  }

  // ---------------------------------------------------------------------------------------------
  // What a release adds
  // ---------------------------------------------------------------------------------------------

  /** No set of edges becomes lossy by the release. */
  ghost predicate RoomToSplice(g: Graph, id: RefId) {
    forall p, c | p != id && c != id && p != c ::
      EdgesAt(g, p, c).overflown || |EdgesAt(g, p, c).edges + Spliced(g, p, id, c)| < MAX_EDGE_SET_SIZE
  }

  /** Nothing becomes derivable between the remaining references. */
  ghost predicate GainsNothing(g: Graph, id: RefId, g': Graph) {
    forall a, b, p | a != id && b != id && Derives(g', a, b, p) :: Derives(g, a, b, p)
  }

  /** Two edges through `id`, between different references. */
  ghost predicate Passes(g: Graph, id: RefId, p: RefId, pe: BorrowEdge, ce: BorrowEdge, c: RefId) {
    p != id && c != id && p != c && pe in EdgesAt(g, p, id).edges && ce in EdgesAt(g, id, c).edges
  }

  /** Whatever the edges past `id` stand for is derivable before. */
  ghost predicate SplicesDerivable(g: Graph, id: RefId) {
    forall p, pe, ce, c, q | Passes(g, id, p, pe, ce, c) && Means(Compose(pe, ce), q) :: Derives(g, p, c, q)
  }

  lemma EdgeWasDerivable(g: Graph, id: RefId, g': Graph, a: RefId, e: BorrowEdge, c: RefId, q: Path)
    requires Valid(g) && ReleaseOf(g, id, g') && RoomToSplice(g, id) && SplicesDerivable(g, id)
    requires e in EdgesAt(g', a, c).edges && Means(e, q)
    ensures Derives(g, a, c, q)
  {
    EntryIff(g', a, c);
    if e in EdgesAt(g, a, c).edges {
      DerivesEdge(g, a, e, c, q);
    } else {
      var pe, ce :| pe in EdgesAt(g, a, id).edges && ce in EdgesAt(g, id, c).edges && e == Compose(pe, ce);
      assert Passes(g, id, a, pe, ce, c);
    }
  }

  lemma SpliceIsThere(g: Graph, id: RefId, g': Graph, p: RefId, pe: BorrowEdge, ce: BorrowEdge, c: RefId)
    requires Valid(g) && ReleaseOf(g, id, g') && Passes(g, id, p, pe, ce, c)
    ensures Matched(EdgesAt(g', p, c), Compose(pe, ce))
  {
    EdgesShaped(g, p, c);
    assert Compose(pe, ce) in Spliced(g, p, id, c);
    InsertedCovers(EdgesAt(g, p, c), Spliced(g, p, id, c), EdgesAt(g', p, c), Compose(pe, ce));
  }

  /** A release adds no alias exactly if all that the spliced edges stand for was derivable before. */
  lemma ReleaseGainsIff(g: Graph, id: RefId, g': Graph)
    requires Valid(g) && ReleaseOf(g, id, g') && RoomToSplice(g, id)
    ensures GainsNothing(g, id, g') <==> SplicesDerivable(g, id)
  {
    if SplicesDerivable(g, id) {
      forall a, e, c, q | e in EdgesAt(g', a, c).edges && Means(e, q) ensures Derives(g, a, c, q) {
        EdgeWasDerivable(g, id, g', a, e, c, q);
      }
      EdgesSuffice(g, g');
    }
    if GainsNothing(g, id, g') {
      forall p, pe, ce, c, q | Passes(g, id, p, pe, ce, c) && Means(Compose(pe, ce), q) ensures Derives(g, p, c, q) {
        SpliceIsThere(g, id, g', p, pe, ce, c);
        var d :| d in EdgesAt(g', p, c).edges && EdgeLeq(d, Compose(pe, ce));
        EdgeLeqMeans(d, Compose(pe, ce), q);
        DerivesEdge(g', p, d, c, q);
      }
    }
  }

  /** Every edge into `id` is exact, or is followed only by edges for the empty path. */
  ghost predicate ExactThrough(g: Graph, id: RefId) {
    forall p, pe, ce, c | Passes(g, id, p, pe, ce, c) :: pe.strong || ce.path == []
  }

  lemma SplicedBefore(g: Graph, id: RefId, p: RefId, pe: BorrowEdge, ce: BorrowEdge, c: RefId, r: Path)
    requires Passes(g, id, p, pe, ce, c) && Spell(pe, ce, r)
    ensures Derives(g, p, c, r)
  {
    var x, y :| Means(pe, x) && Means(ce, y) && r == x + y;
    DerivesEdge(g, p, pe, id, x);
    DerivesEdge(g, id, ce, c, y);
    DerivesTransitive(g, p, id, c, x, y);
  }

  /**
   Releasing a reference preserves meaning exactly, if it is on no cycle of two, it is reached by exact edges, and there
   is room for the spliced ones: the same paths are derivable between the others before and after.
   */
  lemma ReleaseIsExact(g: Graph, id: RefId, g': Graph, a: RefId, b: RefId, p: Path)
    requires Valid(g) && ReleaseOf(g, id, g') && RoomToSplice(g, id) && ExactThrough(g, id) && NoTwoCycle(g, id)
    requires a != id && b != id
    ensures Derives(g', a, b, p) <==> Derives(g, a, b, p)
  {
    forall x, pe, ce, c, q | Passes(g, id, x, pe, ce, c) && Means(Compose(pe, ce), q) ensures Derives(g, x, c, q) {
      ComposeIsExactIff(pe, ce);
      SplicedBefore(g, id, x, pe, ce, c, q);
    }
    ReleaseGainsIff(g, id, g');
    ReleaseKeepsAliases(g, id, g');
  }

  /** Whatever the graph, a release lets no reference derive from another that it did not derive from before. */
  lemma ReleaseAddsNoPair(g: Graph, id: RefId, g': Graph, a: RefId, b: RefId, p: Path)
    requires Valid(g) && ReleaseOf(g, id, g') && Derives(g', a, b, p)
    ensures exists q :: Derives(g, a, b, q)
  {
    var walk :| Walk(g', a, walk, b) && PathOf(walk) == p;
    var lifted := LiftWalk(g, id, g', a, walk, b);
    assert Derives(g, a, b, PathOf(lifted));
  }

  /** A chain of three references, the first step of which may be to anywhere. */
  function Chain(l: Label): Graph {
    map[0 := Ref(map[1 := BorrowEdgeSet({WEAK}, false)], {}, true),
        1 := Ref(map[2 := BorrowEdgeSet({BorrowEdge(true, [l])}, false)], {0}, true),
        2 := Ref(map[], {1}, true)]
  }

  function Shortened(): Graph {
    map[0 := Ref(map[2 := BorrowEdgeSet({WEAK}, false)], {}, true), 2 := Ref(map[], {0}, true)]
  }

  lemma ChainValid(l: Label)
    ensures Valid(Chain(l)) && Valid(Shortened())
  {
    forall p, c ensures PairOk(Chain(l), p, c) && PairOk(Shortened(), p, c) {
    }
  }

  lemma ChainSplice(l: Label)
    ensures Spliced(Chain(l), 0, 1, 2) == {WEAK}
  {
    var g, e := Chain(l), BorrowEdge(true, [l]);
    assert EdgesAt(g, 0, 1).edges == {WEAK} && EdgesAt(g, 1, 2).edges == {e} && Compose(WEAK, e) == WEAK;
    assert Compose(WEAK, e) in Spliced(g, 0, 1, 2);
  }

  lemma NoSplice(g: Graph, id: RefId, p: RefId, c: RefId)
    requires EdgesAt(g, p, id).edges == {} || EdgesAt(g, id, c).edges == {}
    ensures Spliced(g, p, id, c) == {}
  {
  }

  lemma ChainRelease(l: Label)
    ensures ReleaseOf(Chain(l), 1, Shortened())
  {
    var g, g' := Chain(l), Shortened();
    assert g'.Keys == g.Keys - {1};
    ChainValid(l);
    forall p, c | p != 1 && c != 1 && p != c
      ensures Inserted(EdgesAt(g, p, c), Spliced(g, p, 1, c), EdgesAt(g', p, c))
    {
      if p == 0 && c == 2 {
        ChainSplice(l);
        assert EdgesAt(g, p, c).edges + {WEAK} == {WEAK};
      } else {
        NoSplice(g, 1, p, c);
      }
    }
  }

  lemma ChainEnds(l: Label, walk: seq<Step>)
    requires Walk(Chain(l), 0, walk, 2)
    ensures PathOf(walk) != []
  {
    var g := Chain(l);
    assert walk[0].to == 1;
    var tail := walk[1..];
    assert Walk(g, 1, tail, 2) && tail[0].to == 2 && tail[0].via == [l];
    assert PathOf(walk) == walk[0].via + (tail[0].via + PathOf(tail[1..]));
  }

  /** A concrete gain: what could only be below a label may be anywhere after the release. */
  lemma ReleaseGains(l: Label)
    ensures Valid(Chain(l)) && ReleaseOf(Chain(l), 1, Shortened())
    ensures Derives(Shortened(), 0, 2, []) && !Derives(Chain(l), 0, 2, [])
  {
    ChainValid(l);
    ChainRelease(l);
    DerivesEdge(Shortened(), 0, WEAK, 2, []);
    if Derives(Chain(l), 0, 2, []) {
      var walk :| Walk(Chain(l), 0, walk, 2) && PathOf(walk) == [];
      ChainEnds(l, walk);
    }
  }

  // ---------------------------------------------------------------------------------------------
  // What a release loses
  // ---------------------------------------------------------------------------------------------

  /** Every cycle of two through `id` is along edges that stand for the empty path only. */
  ghost predicate TrivialCycles(g: Graph, id: RefId) {
    forall x, pe, ce | pe in EdgesAt(g, x, id).edges && ce in EdgesAt(g, id, x).edges ::
      pe == BorrowEdge(true, []) && ce == BorrowEdge(true, [])
  }

  /** An edge that is not the strong empty one stands for some non-empty path. */
  lemma NonEmptyMeaning(e: BorrowEdge) returns (q: Path)
    requires e != BorrowEdge(true, [])
    ensures Means(e, q) && q != []
  {
    if e.path != [] {
      q := e.path;
      assert e.path == e.path + [];
    } else {
      var l: Label :| true;
      q := [l];
      assert q == e.path + [l];
    }
  }

  lemma OwnMeaning(e: BorrowEdge)
    ensures Means(e, e.path)
  {
    assert e.path == e.path + [];
  }

  /** Without cycles a reference derives from itself by the empty path only. */
  lemma AcyclicSelf(g: Graph, x: RefId, p: Path)
    requires Acyclic(g)
    ensures Derives(g, x, x, p) ==> p == []
  {
    if Derives(g, x, x, p) {
      var walk :| Walk(g, x, walk, x) && PathOf(walk) == p;
    }
  }

  lemma CycleIsLost(g: Graph, id: RefId, g': Graph, x: RefId, pe: BorrowEdge, ce: BorrowEdge, p: Path, q: Path)
    requires Valid(g) && Acyclic(g') && p + q != []
    requires pe in EdgesAt(g, x, id).edges && ce in EdgesAt(g, id, x).edges && Means(pe, p) && Means(ce, q)
    ensures !LosesNothing(g, id, g')
  {
    EntryIff(g, x, id);
    DerivesEdge(g, x, pe, id, p);
    DerivesEdge(g, id, ce, x, q);
    DerivesTransitive(g, x, id, x, p, q);
    AcyclicSelf(g', x, p + q);
  }

  lemma LossMeansTrivial(g: Graph, id: RefId, g': Graph, x: RefId, pe: BorrowEdge, ce: BorrowEdge)
    requires Valid(g) && Acyclic(g') && LosesNothing(g, id, g')
    requires pe in EdgesAt(g, x, id).edges && ce in EdgesAt(g, id, x).edges
    ensures pe == BorrowEdge(true, []) && ce == BorrowEdge(true, [])
  {
    OwnMeaning(pe);
    OwnMeaning(ce);
    if pe != BorrowEdge(true, []) {
      var p := NonEmptyMeaning(pe);
      CycleIsLost(g, id, g', x, pe, ce, p, ce.path);
    } else if ce != BorrowEdge(true, []) {
      var q := NonEmptyMeaning(ce);
      CycleIsLost(g, id, g', x, pe, ce, pe.path, q);
    }
  }

  lemma CoveredIfNothingLost(g: Graph, id: RefId, g': Graph)
    requires Valid(g) && LosesNothing(g, id, g')
    ensures CyclesCovered(g, id, g')
  {
    forall x, pe, ce, p, q |
      pe in EdgesAt(g, x, id).edges && ce in EdgesAt(g, id, x).edges && Means(pe, p) && Means(ce, q)
      ensures Derives(g', x, x, p + q)
    {
      EntryIff(g, x, id);
      DerivesEdge(g, x, pe, id, p);
      DerivesEdge(g, id, ce, x, q);
      DerivesTransitive(g, x, id, x, p, q);
    }
  }

  /**
   Splicing drops what would be an edge of a reference to itself. This loses an alias exactly if such an edge is not
   derivable otherwise.
   */
  lemma ReleaseLosesOnlyCycles(g: Graph, id: RefId, g': Graph)
    requires Valid(g) && ReleaseOf(g, id, g')
    ensures LosesNothing(g, id, g') <==> CyclesCovered(g, id, g')
  {
    if CyclesCovered(g, id, g') {
      ReleaseFollowsCycles(g, id, g');
    } else if LosesNothing(g, id, g') {
      CoveredIfNothingLost(g, id, g');
    }
  }

  /**
   If all cycles of a graph are between the released reference and one other, then the release loses an alias exactly if
   one of them stands for a non-empty path.
   */
  lemma ReleaseLosesIff(g: Graph, id: RefId, g': Graph)
    requires Valid(g) && ReleaseOf(g, id, g') && OnlyTwoCycles(g, id)
    ensures LosesNothing(g, id, g') <==> TrivialCycles(g, id)
  {
    ReleaseLeavesAcyclic(g, id, g');
    if TrivialCycles(g, id) {
      TrivialCyclesCovered(g, id, g');
      ReleaseFollowsCycles(g, id, g');
    }
    if LosesNothing(g, id, g') {
      forall x, pe, ce | pe in EdgesAt(g, x, id).edges && ce in EdgesAt(g, id, x).edges
        ensures pe == BorrowEdge(true, []) && ce == BorrowEdge(true, [])
      {
        LossMeansTrivial(g, id, g', x, pe, ce);
      }
    }
  }

  lemma TrivialCyclesCovered(g: Graph, id: RefId, g': Graph)
    requires TrivialCycles(g, id)
    ensures CyclesCovered(g, id, g')
  {
    forall x, pe, ce, p, q |
      pe in EdgesAt(g, x, id).edges && ce in EdgesAt(g, id, x).edges && Means(pe, p) && Means(ce, q)
      ensures Derives(g', x, x, p + q)
    {
      DerivesSelf(g', x);
      assert p + q == [];
    }
  }

  /** Two references that borrow from each other. */
  function Mutual(l: Label): Graph {
    map[0 := Ref(map[1 := BorrowEdgeSet({BorrowEdge(true, [l])}, false)], {1}, true),
        1 := Ref(map[0 := BorrowEdgeSet({WEAK}, false)], {0}, true)]
  }

  /** One reference alone. */
  function Single(): Graph {
    map[0 := Ref(map[], {}, true)]
  }

  lemma MutualValid(l: Label)
    ensures Valid(Mutual(l))
  {
    forall p, c ensures PairOk(Mutual(l), p, c) {
    }
  }

  lemma MutualDerives(l: Label)
    ensures Derives(Mutual(l), 0, 0, [l])
  {
    var g := Mutual(l);
    DerivesEdge(g, 0, BorrowEdge(true, [l]), 1, [l]);
    DerivesEdge(g, 1, WEAK, 0, []);
    DerivesTransitive(g, 0, 1, 0, [l], []);
    assert [l] + [] == [l];
  }

  lemma MutualRelease(l: Label)
    ensures ReleaseOf(Mutual(l), 1, Single())
  {
    var g, g' := Mutual(l), Single();
    assert g'.Keys == g.Keys - {1};
    forall p, c ensures PairOk(g', p, c) {
    }
    forall p, c | p != 1 && c != 1 && p != c
      ensures Inserted(EdgesAt(g, p, c), Spliced(g, p, 1, c), EdgesAt(g', p, c))
    {
      assert EdgesAt(g, p, 1).edges == {} || EdgesAt(g, 1, c).edges == {};
      assert Spliced(g, p, 1, c) == {};
      assert EdgesAt(g, p, c) == NO_EDGES && EdgesAt(g', p, c) == NO_EDGES;
    }
  }

  /** A concrete loss: two references borrow from each other, and one of them is released. */
  lemma ReleaseOnCycleLoses(l: Label)
    ensures Valid(Mutual(l)) && ReleaseOf(Mutual(l), 1, Single())
    ensures Derives(Mutual(l), 0, 0, [l]) && !Derives(Single(), 0, 0, [l])
  {
    MutualValid(l);
    MutualDerives(l);
    MutualRelease(l);
    assert forall x, step :: !StepOf(Single(), x, step);
    assert Acyclic(Single());
    AcyclicSelf(Single(), 0, [l]);
  }
}
