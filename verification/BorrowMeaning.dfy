/** Borrow graphs as values, and the aliases they stand for. */
module BorrowMeaning {
  import opened Paths
  import opened BorrowEdges

  /** A reference: who borrows it, whom it borrows from, and whether it is mutable. */
  datatype Ref = Ref(borrowedBy: map<RefId, BorrowEdgeSet>, borrowsFrom: set<RefId>, isMutable: bool)

  type Graph = map<RefId, Ref>

  /** The edges from `p` to `c`; no edges if there is no entry. */
  function EdgesAt(g: Graph, p: RefId, c: RefId): BorrowEdgeSet {
    if p in g && c in g[p].borrowedBy then g[p].borrowedBy[c] else NO_EDGES
  }

  // ---------------------------------------------------------------------------------------------
  // Consistency
  // ---------------------------------------------------------------------------------------------

  /** All references in edges are in the graph. */
  ghost predicate IdConsistency(g: Graph) {
    forall r | r in g ::
      (forall c | c in g[r].borrowedBy :: c in g) && (forall p | p in g[r].borrowsFrom :: p in g)
  }

  /** Edge sets are bounded, and every edge has its flipped one. */
  ghost predicate EdgeConsistency(g: Graph)
    requires IdConsistency(g)
  {
    forall r | r in g ::
      && (forall c | c in g[r].borrowedBy :: |g[r].borrowedBy[c].edges| <= MAX_EDGE_SET_SIZE)
      && (forall c | c in g[r].borrowedBy :: r in g[c].borrowsFrom)
      && (forall p | p in g[r].borrowsFrom :: r in g[p].borrowedBy)
  }

  ghost predicate NoSelfLoops(g: Graph) {
    forall r | r in g :: r !in g[r].borrowedBy && r !in g[r].borrowsFrom
  }

  /** The invariant that the graph checks of itself. */
  ghost predicate CheckInvariant(g: Graph) {
    IdConsistency(g) && EdgeConsistency(g) && NoSelfLoops(g)
  }

  /** Every edge set is non-empty and, once lossy, stands for everything. */
  ghost predicate SetsOk(g: Graph) {
    forall p, c | p in g && c in g[p].borrowedBy ::
      g[p].borrowedBy[c].edges != {} && Shaped(g[p].borrowedBy[c])
  }

  /** Consistency of one pair of references: both ends know of the edges, which are non-empty and of the right shape. */
  ghost predicate PairOk(g: Graph, p: RefId, c: RefId) {
    && (p in g && c in g[p].borrowedBy <==> c in g && p in g[c].borrowsFrom)
    && (p in g && c in g[p].borrowedBy ==>
          p != c && g[p].borrowedBy[c].edges != {} && Shaped(g[p].borrowedBy[c]))
  }

  ghost predicate Valid(g: Graph) {
    forall p, c :: PairOk(g, p, c)
  }

  /** Pairwise consistency is the invariant that the graph checks of itself, and that all its edge sets are in order. */
  lemma ValidIff(g: Graph)
    ensures Valid(g) <==> CheckInvariant(g) && SetsOk(g)
  {
    if CheckInvariant(g) && SetsOk(g) {
      forall p, c ensures PairOk(g, p, c) {
      }
    }
    if Valid(g) {
      ValidConsistent(g);
      forall p, c | p in g && c in g[p].borrowedBy
        ensures g[p].borrowedBy[c].edges != {} && Shaped(g[p].borrowedBy[c])
      {
        assert PairOk(g, p, c);
      }
    }
  }

  lemma ValidConsistent(g: Graph)
    requires Valid(g)
    ensures CheckInvariant(g)
  {
    forall r, x | r in g
      ensures x in g[r].borrowedBy ==> x in g && r in g[x].borrowsFrom
      ensures x in g[r].borrowedBy ==> |g[r].borrowedBy[x].edges| <= MAX_EDGE_SET_SIZE
    {
      assert PairOk(g, r, x);
    }
    forall r, x | r in g ensures x in g[r].borrowsFrom ==> x in g && r in g[x].borrowedBy {
      assert PairOk(g, x, r);
    }
    forall r | r in g ensures r !in g[r].borrowedBy && r !in g[r].borrowsFrom {
      assert PairOk(g, r, r);
    }
  }

  /** In a valid graph every set of edges, present or not, can be extended. */
  lemma EdgesShaped(g: Graph, p: RefId, c: RefId)
    requires Valid(g)
    ensures Shaped(EdgesAt(g, p, c))
  {
    assert PairOk(g, p, c);
  }

  // ---------------------------------------------------------------------------------------------
  // Meaning
  // ---------------------------------------------------------------------------------------------

  /** A step of a walk: along an edge to a reference, for one of the paths the edge stands for. */
  datatype Step = Step(edge: BorrowEdge, to: RefId, via: Path)

  /** The graph has the edge of the step from `a`. */
  ghost predicate StepOf(g: Graph, a: RefId, step: Step) {
    step.edge in EdgesAt(g, a, step.to).edges && Means(step.edge, step.via)
  }

  /** A walk from `a` to `b`. */
  ghost predicate Walk(g: Graph, a: RefId, walk: seq<Step>, b: RefId)
    decreases |walk|
  {
    if walk == [] then a == b
    else
      && StepOf(g, a, walk[0])
      && Walk(g, walk[0].to, walk[1..], b)
  }

  /** The path that a walk spells. */
  function PathOf(walk: seq<Step>): Path {
    if walk == [] then [] else walk[0].via + PathOf(walk[1..])
  }

  /** By the graph, reference `b` may point to path `p` inside reference `a`. */
  ghost predicate Derives(g: Graph, a: RefId, b: RefId, p: Path) {
    exists walk :: Walk(g, a, walk, b) && PathOf(walk) == p
  }

  lemma DerivesSelf(g: Graph, a: RefId)
    ensures Derives(g, a, a, [])
  {
    assert Walk(g, a, [], a) && PathOf([]) == [];
  }

  lemma DerivesEdge(g: Graph, a: RefId, e: BorrowEdge, c: RefId, q: Path)
    requires e in EdgesAt(g, a, c).edges && Means(e, q)
    ensures Derives(g, a, c, q)
  {
    var walk := [Step(e, c, q)];
    assert walk[1..] == [] && PathOf([]) == [];
    assert PathOf(walk) == q + PathOf(walk[1..]) == q;
    assert Walk(g, a, walk, c);
  }

  lemma {:induction false} WalkConcat(g: Graph, a: RefId, v: seq<Step>, b: RefId, w: seq<Step>, c: RefId)
    requires Walk(g, a, v, b) && Walk(g, b, w, c)
    ensures Walk(g, a, v + w, c) && PathOf(v + w) == PathOf(v) + PathOf(w)
    decreases |v|
  {
    if v == [] {
      assert v + w == w;
    } else {
      assert (v + w)[1..] == v[1..] + w;
      WalkConcat(g, v[0].to, v[1..], b, w, c);
    }
  }

  lemma DerivesTransitive(g: Graph, a: RefId, b: RefId, c: RefId, p: Path, q: Path)
    requires Derives(g, a, b, p) && Derives(g, b, c, q)
    ensures Derives(g, a, c, p + q)
  {
    var v :| Walk(g, a, v, b) && PathOf(v) == p;
    var w :| Walk(g, b, w, c) && PathOf(w) == q;
    WalkConcat(g, a, v, b, w, c);
  }

  /** Every alias of `g` is one of `g'`. */
  ghost predicate Contains(g': Graph, g: Graph) {
    forall a, b, p | Derives(g, a, b, p) :: Derives(g', a, b, p)
  }

  /** Every single edge of `g` is derivable in `g'`. */
  ghost predicate ContainsEdges(g': Graph, g: Graph) {
    forall a, e, c, q | e in EdgesAt(g, a, c).edges && Means(e, q) :: Derives(g', a, c, q)
  }

  lemma {:induction false} EdgesGiveWalks(g': Graph, g: Graph, a: RefId, walk: seq<Step>, b: RefId)
    requires ContainsEdges(g', g) && Walk(g, a, walk, b)
    ensures Derives(g', a, b, PathOf(walk))
    decreases |walk|
  {
    if walk == [] {
      DerivesSelf(g', a);
    } else {
      EdgesGiveWalks(g', g, walk[0].to, walk[1..], b);
      DerivesTransitive(g', a, walk[0].to, b, walk[0].via, PathOf(walk[1..]));
    }
  }

  /** Aliases are contained if those of single edges are. */
  lemma EdgesSuffice(g': Graph, g: Graph)
    requires ContainsEdges(g', g)
    ensures Contains(g', g)
  {
    forall a, b, p | Derives(g, a, b, p) ensures Derives(g', a, b, p) {
      var walk :| Walk(g, a, walk, b) && PathOf(walk) == p;
      EdgesGiveWalks(g', g, a, walk, b);
    }
  }

  // ---------------------------------------------------------------------------------------------
  // Order
  // ---------------------------------------------------------------------------------------------

  /** Some edge of the set covers `e`. */
  predicate Matched(s: BorrowEdgeSet, e: BorrowEdge) {
    exists e' :: e' in s.edges && EdgeLeq(e', e)
  }

  /** `g` covers `other`: every edge of `other` has a smaller one in `g`. */
  ghost predicate GraphLeq(g: Graph, other: Graph) {
    forall p, c, e | e in EdgesAt(other, p, c).edges :: Matched(EdgesAt(g, p, c), e)
  }

  lemma GraphLeqReflexive(g: Graph)
    ensures GraphLeq(g, g)
  {
    forall p, c, e | e in EdgesAt(g, p, c).edges ensures Matched(EdgesAt(g, p, c), e) {
      assert EdgeLeq(e, e);
    }
  }

  lemma GraphLeqTransitive(g: Graph, h: Graph, k: Graph)
    requires GraphLeq(g, h) && GraphLeq(h, k)
    ensures GraphLeq(g, k)
  {
    forall p, c, e | e in EdgesAt(k, p, c).edges ensures Matched(EdgesAt(g, p, c), e) {
      assert Matched(EdgesAt(h, p, c), e);
      var f :| f in EdgesAt(h, p, c).edges && EdgeLeq(f, e);
      assert Matched(EdgesAt(g, p, c), f);
      var d :| d in EdgesAt(g, p, c).edges && EdgeLeq(d, f);
      EdgeLeqTransitive(d, f, e);
    }
  }

  /** A graph that covers another contains its aliases. */
  lemma GraphLeqContains(g: Graph, other: Graph)
    requires GraphLeq(g, other)
    ensures Contains(g, other)
  {
    forall a, e, c, q | e in EdgesAt(other, a, c).edges && Means(e, q) ensures Derives(g, a, c, q) {
      assert Matched(EdgesAt(g, a, c), e);
      var d :| d in EdgesAt(g, a, c).edges && EdgeLeq(d, e);
      EdgeLeqMeans(d, e, q);
      DerivesEdge(g, a, d, c, q);
    }
    EdgesSuffice(g, other);
  }
}
