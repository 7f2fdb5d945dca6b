/** Paths of labels. */
module Paths {
  /** A label of a path. Labels are only ever compared. */
  type Label(==, !new, 00)

  type Path = seq<Label>

  predicate Leq(lhs: Path, rhs: Path)
    ensures Leq(lhs, rhs) <==> exists suffix :: rhs == lhs + suffix
  {
    assert lhs <= rhs ==> rhs == lhs + rhs[|lhs|..];
    lhs <= rhs
  }

  /** Splits `rhs` into `lhs` and the rest. */
  function Factor(lhs: Path, rhs: Path): (r: (Path, Path))
    requires Leq(lhs, rhs)
    ensures r.0 == lhs && Append(lhs, r.1) == rhs
  {
    (rhs[..|lhs|], rhs[|lhs|..])
  }

  function Append(lhs: Path, rhs: Path): Path {
    lhs + rhs
  }
}

/** Edges between references, and bounded sets of them. */
module BorrowEdges {
  import opened Paths

  type RefId = nat

  /** A borrow of exactly the path (strong), or of the path and everything below it (weak). */
  datatype BorrowEdge = BorrowEdge(strong: bool, path: Path)

  /** The path `q` is one that the edge may stand for. */
  predicate Means(e: BorrowEdge, q: Path) {
    if e.strong then q == e.path else Leq(e.path, q)
  }

  predicate EdgeLeq(e: BorrowEdge, f: BorrowEdge) {
    e == f || (!e.strong && Leq(e.path, f.path))
  }

  lemma EdgeLeqMeans(e: BorrowEdge, f: BorrowEdge, q: Path)
    requires EdgeLeq(e, f) && Means(f, q)
    ensures Means(e, q)
  {
  }

  /** The order on edges is containment of what they stand for. */
  lemma EdgeLeqIff(e: BorrowEdge, f: BorrowEdge)
    ensures EdgeLeq(e, f) <==> forall q | Means(f, q) :: Means(e, q)
  {
    if forall q | Means(f, q) :: Means(e, q) {
      assert f.path == f.path + [];
      assert Means(f, f.path);
      if e.strong && !f.strong {
        var l: Label :| true;
        assert Means(f, f.path + [l]);
      }
    }
  }

  lemma EdgeLeqTransitive(e: BorrowEdge, f: BorrowEdge, g: BorrowEdge)
    requires EdgeLeq(e, f) && EdgeLeq(f, g)
    ensures EdgeLeq(e, g)
  {
  }

  const MAX_EDGE_SET_SIZE := 10

  /** The edge that stands for everything. */
  const WEAK := BorrowEdge(false, [])

  /** A set of edges that becomes lossy beyond its maximal size. */
  datatype BorrowEdgeSet = BorrowEdgeSet(edges: set<BorrowEdge>, overflown: bool)

  const NO_EDGES := BorrowEdgeSet({}, false)

  function Insert(s: BorrowEdgeSet, e: BorrowEdge): BorrowEdgeSet {
    if s.overflown then s
    else if |s.edges| + 1 > MAX_EDGE_SET_SIZE then BorrowEdgeSet({WEAK}, true)
    else BorrowEdgeSet(s.edges + {e}, false)
  }

  /** A set holds up to ten edges as they are. */
  lemma OverflowIff(s: BorrowEdgeSet, e: BorrowEdge)
    ensures Insert(s, e).overflown <==> s.overflown || |s.edges| >= 10
    ensures !Insert(s, e).overflown ==> Insert(s, e).edges == s.edges + {e}
  {
  }

  /** The shape of a set that the graph may hold or extend: bounded, and lossy in one way only. */
  predicate Shaped(s: BorrowEdgeSet) {
    |s.edges| <= MAX_EDGE_SET_SIZE && (s.overflown ==> s.edges == {WEAK})
  }

  /**
   What inserting the edges `xs` into `s` one by one yields, in whatever order: their union, or the lossy set, and the
   latter only when the union reaches the maximal size.
   */
  predicate Inserted(s: BorrowEdgeSet, xs: set<BorrowEdge>, r: BorrowEdgeSet) {
    if s.overflown then r == s
    else if r.overflown then r.edges == {WEAK} && xs != {} && |s.edges + xs| >= MAX_EDGE_SET_SIZE
    else r.edges == s.edges + xs && |r.edges| <= MAX_EDGE_SET_SIZE
  }

  lemma InsertedNone(s: BorrowEdgeSet)
    requires Shaped(s)
    ensures Inserted(s, {}, s)
  {
    assert s.edges + {} == s.edges;
  }

  lemma SubsetSize(a: set<BorrowEdge>, b: set<BorrowEdge>)
    requires a <= b
    ensures |a| <= |b| && (|a| == |b| ==> a == b)
  {
    assert b == a + (b - a);
    assert |b| == |a| + |b - a|;
  }

  /** One more insertion. */
  lemma InsertedMore(s: BorrowEdgeSet, xs: set<BorrowEdge>, r: BorrowEdgeSet, e: BorrowEdge)
    requires Shaped(s) && Inserted(s, xs, r)
    ensures Inserted(s, xs + {e}, Insert(r, e))
  {
    var u, u' := s.edges + xs, s.edges + (xs + {e});
    assert u' == u + {e};
    SubsetSize(u, u');
    if !s.overflown && !r.overflown && |r.edges| + 1 <= MAX_EDGE_SET_SIZE {
      assert |u + {e}| <= |u| + 1;
    }
  }

  /** Nothing is lost by insertion: every old and every inserted edge is covered. */
  lemma InsertedCovers(s: BorrowEdgeSet, xs: set<BorrowEdge>, r: BorrowEdgeSet, e: BorrowEdge)
    requires Shaped(s) && Inserted(s, xs, r) && e in s.edges + xs
    ensures exists e' :: e' in r.edges && EdgeLeq(e', e)
  {
    if r.overflown {
      assert WEAK in r.edges && EdgeLeq(WEAK, e);
    } else {
      assert e in r.edges && EdgeLeq(e, e);
    }
  }

  /** The edge from a parent to a child past the reference between them. */
  function Compose(parent: BorrowEdge, child: BorrowEdge): BorrowEdge {
    BorrowEdge(parent.strong && child.strong,
               if parent.strong then Append(parent.path, child.path) else parent.path)
  }

  /**
   What the edge past a reference stands for: what the two edges spell together if the first is exact, and otherwise all
   that the first stands for.
   */
  lemma ComposeIff(parent: BorrowEdge, child: BorrowEdge, r: Path)
    ensures Means(Compose(parent, child), r) <==>
            if parent.strong then exists q :: Means(child, q) && r == parent.path + q else Means(parent, r)
  {
    if parent.strong && Means(Compose(parent, child), r) {
      var q := r[|parent.path|..];
      assert r == parent.path + q;
      if !child.strong {
        assert q == child.path + r[|parent.path| + |child.path|..];
      }
      assert Means(child, q);
    }
    if parent.strong && exists q :: Means(child, q) && r == parent.path + q {
      var q :| Means(child, q) && r == parent.path + q;
      ComposeMeans(parent, child, parent.path, q);
    }
  }

  /** The edges spell the path together. */
  ghost predicate Spell(parent: BorrowEdge, child: BorrowEdge, r: Path) {
    exists p, q :: Means(parent, p) && Means(child, q) && r == p + q
  }

  /** The edge past a reference stands for more than the two edges exactly if something may come in between. */
  lemma ComposeIsExactIff(parent: BorrowEdge, child: BorrowEdge)
    ensures (forall r | Means(Compose(parent, child), r) :: Spell(parent, child, r)) <==>
            parent.strong || child.path == []
  {
    if parent.strong || child.path == [] {
      forall r | Means(Compose(parent, child), r) ensures Spell(parent, child, r) {
        ComposeIff(parent, child, r);
        if parent.strong {
          var q :| Means(child, q) && r == parent.path + q;
          assert parent.path == parent.path + [];
          assert Means(parent, parent.path) && Means(child, q);
        } else {
          assert Means(child, []) && r == r + [];
        }
      }
    } else {
      ComposeIff(parent, child, parent.path);
      assert parent.path == parent.path + [];
      assert forall p, q | Means(parent, p) && Means(child, q) :: |p + q| > |parent.path|;
    }
  }

  lemma ComposeMeans(parent: BorrowEdge, child: BorrowEdge, p: Path, q: Path)
    requires Means(parent, p) && Means(child, q)
    ensures Means(Compose(parent, child), p + q)
  {
    if parent.strong {
      if !child.strong {
        assert p + q == (parent.path + child.path) + q[|child.path|..];
      }
    } else {
      assert p + q == parent.path + (p[|parent.path|..] + q);
    }
  }
}
