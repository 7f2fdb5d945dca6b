/** The borrow graph of the reference safety analysis. */
module BorrowGraphs {
  import opened Paths
  import opened BorrowEdges
  import opened BorrowMeaning
  import opened BorrowOperations
  import opened BorrowRemap

  // ---------------------------------------------------------------------------------------------
  // Adding an edge
  // ---------------------------------------------------------------------------------------------

  /** The graph with one more edge from `p` to `c`, and the flipped entry. */
  function WithEdge(g: Graph, p: RefId, e: BorrowEdge, c: RefId): Graph
    requires p in g && c in g && p != c
  {
    g[p := g[p].(borrowedBy := g[p].borrowedBy[c := Insert(EdgesAt(g, p, c), e)])]
     [c := g[c].(borrowsFrom := g[c].borrowsFrom + {p})]
  }

  lemma WithEdgeAt(g: Graph, p: RefId, e: BorrowEdge, c: RefId, x: RefId, y: RefId)
    requires p in g && c in g && p != c
    ensures EdgesAt(WithEdge(g, p, e, c), x, y) ==
            if x == p && y == c then Insert(EdgesAt(g, p, c), e) else EdgesAt(g, x, y)
  {
  }

  lemma InsertOk(s: BorrowEdgeSet, e: BorrowEdge)
    requires Shaped(s)
    ensures Shaped(Insert(s, e)) && Insert(s, e).edges != {}
  {
    if !s.overflown && |s.edges| + 1 <= MAX_EDGE_SET_SIZE {
      assert |s.edges + {e}| <= |s.edges| + 1;
      assert e in s.edges + {e};
    }
  }

  lemma WithEdgeValid(g: Graph, p: RefId, e: BorrowEdge, c: RefId)
    requires Valid(g) && p in g && c in g && p != c
    ensures Valid(WithEdge(g, p, e, c))
  {
    var g' := WithEdge(g, p, e, c);
    EdgesShaped(g, p, c);
    InsertOk(EdgesAt(g, p, c), e);
    forall x, y ensures PairOk(g', x, y) {
      assert PairOk(g, x, y);
    }
  }

  /** After a borrow, the child may point to all that the edge stands for, and nothing is lost. */
  lemma BorrowMeans(g: Graph, p: RefId, e: BorrowEdge, c: RefId)
    requires Valid(g) && p in g && c in g && p != c
    ensures Contains(WithEdge(g, p, e, c), g)
    ensures forall q | Means(e, q) :: Derives(WithEdge(g, p, e, c), p, c, q)
  {
    var g' := WithEdge(g, p, e, c);
    EdgesShaped(g, p, c);
    InsertedNone(EdgesAt(g, p, c));
    InsertedMore(EdgesAt(g, p, c), {}, EdgesAt(g, p, c), e);
    forall a, f, b, q | f in EdgesAt(g, a, b).edges + (if a == p && b == c then {e} else {}) && Means(f, q)
      ensures Derives(g', a, b, q)
    {
      WithEdgeAt(g, p, e, c, a, b);
      if a == p && b == c {
        InsertedCovers(EdgesAt(g, p, c), {} + {e}, EdgesAt(g', p, c), f);
        var d :| d in EdgesAt(g', p, c).edges && EdgeLeq(d, f);
        EdgeLeqMeans(d, f, q);
        DerivesEdge(g', p, d, c, q);
      } else {
        DerivesEdge(g', a, f, b, q);
      }
    }
    EdgesSuffice(g', g);
  }

  /** And it adds nothing else, unless the set of edges becomes lossy: whatever graph allows this much, allows all. */
  lemma BorrowAddsNoMore(g: Graph, p: RefId, e: BorrowEdge, c: RefId, h: Graph)
    requires Valid(g) && p in g && c in g && p != c
    requires EdgesAt(g, p, c).overflown || |EdgesAt(g, p, c).edges| < MAX_EDGE_SET_SIZE
    requires Contains(h, g) && forall q | Means(e, q) :: Derives(h, p, c, q)
    ensures Contains(h, WithEdge(g, p, e, c))
  {
    var g' := WithEdge(g, p, e, c);
    forall a, f, b, q | f in EdgesAt(g', a, b).edges && Means(f, q) ensures Derives(h, a, b, q) {
      WithEdgeAt(g, p, e, c, a, b);
      if f in EdgesAt(g, a, b).edges {
        DerivesEdge(g, a, f, b, q);
      }
    }
    EdgesSuffice(h, g');
  }

  /** All edges of a graph. */
  function EdgeTriples(g: Graph): set<(RefId, RefId, BorrowEdge)> {
    set p, c, e | p in g && c in g[p].borrowedBy && e in g[p].borrowedBy[c].edges :: (p, c, e)
  }

  // ---------------------------------------------------------------------------------------------
  // Releasing: the graph without the reference
  // ---------------------------------------------------------------------------------------------

  /** The graph with all mention of `id` removed. */
  function Mask(g: Graph, id: RefId): Graph {
    map r | r in g && r != id :: Ref(g[r].borrowedBy - {id}, g[r].borrowsFrom - {id}, g[r].isMutable)
  }

  lemma MaskAt(g: Graph, id: RefId, p: RefId, c: RefId)
    requires p != id && c != id
    ensures EdgesAt(Mask(g, id), p, c) == EdgesAt(g, p, c)
  {
  }

  lemma MaskValid(g: Graph, id: RefId)
    requires Valid(g)
    ensures Valid(Mask(g, id))
  {
    forall p, c ensures PairOk(Mask(g, id), p, c) {
      assert PairOk(g, p, c);
    }
  }

  lemma MaskWithEdge(g: Graph, id: RefId, p: RefId, e: BorrowEdge, c: RefId)
    requires p in g && c in g && p != c && p != id && c != id
    ensures Mask(WithEdge(g, p, e, c), id) == WithEdge(Mask(g, id), p, e, c)
  {
    var a, b := Mask(WithEdge(g, p, e, c), id), WithEdge(Mask(g, id), p, e, c);
    assert a.Keys == g.Keys - {id} == b.Keys;
    forall r | r in a ensures a[r] == b[r] {
      MaskWithEdgeRef(g, id, p, e, c, r);
    }
  }

  lemma MaskWithEdgeRef(g: Graph, id: RefId, p: RefId, e: BorrowEdge, c: RefId, r: RefId)
    requires p in g && c in g && p != c && p != id && c != id && r in g && r != id
    ensures Mask(WithEdge(g, p, e, c), id)[r] == WithEdge(Mask(g, id), p, e, c)[r]
  {
    MaskAt(g, id, p, c);
    var edges := Insert(EdgesAt(g, p, c), e);
    if r == p {
      assert g[r].borrowedBy[c := edges] - {id} == (g[r].borrowedBy - {id})[c := edges];
    } else if r == c {
      assert (g[r].borrowsFrom + {p}) - {id} == (g[r].borrowsFrom - {id}) + {p};
    }
  }

  /** A pair of edges to splice, and the child it leads to. */
  type Splice = (BorrowEdge, RefId, BorrowEdge)

  /** The edges to `c` that the splices give. */
  function SplicedTo(done: set<Splice>, c: RefId): set<BorrowEdge> {
    set t | t in done && t.1 == c :: Compose(t.0, t.2)
  }

  /** The edges from `p` to `c` that were spliced so far: all, none, or for the current parent those done. */
  ghost function SplicedSoFar(
    g: Graph, id: RefId, todo: set<RefId>, parent: RefId, done: set<Splice>, p: RefId, c: RefId): set<BorrowEdge>
  {
    if p == parent then SplicedTo(done, c) else if p in todo then {} else Spliced(g, p, id, c)
  }

  /** The edges from `p` to `c` are the old ones with those spliced so far. */
  ghost predicate SplicedPair(
    g: Graph, id: RefId, todo: set<RefId>, parent: RefId, done: set<Splice>, m: Graph, p: RefId, c: RefId)
  {
    p != id && c != id && p != c ==>
      Inserted(EdgesAt(g, p, c), SplicedSoFar(g, id, todo, parent, done, p, c), EdgesAt(m, p, c))
  }

  /** The state of a release: `m` is the current graph without the reference. */
  ghost predicate Splicing(
    g: Graph, id: RefId, todo: set<RefId>, parent: RefId, done: set<Splice>, m: Graph)
  {
    && Valid(m) && m.Keys == g.Keys - {id} && (forall r | r in m :: m[r].isMutable == g[r].isMutable)
    && forall p, c :: SplicedPair(g, id, todo, parent, done, m, p, c)
  }

  lemma SplicingStart(g: Graph, id: RefId, m: Graph)
    requires Valid(g) && id in g && m == Mask(g, id)
    ensures Splicing(g, id, g[id].borrowsFrom, id, {}, m)
  {
    MaskValid(g, id);
    forall p, c | p != id && c != id && p != c ensures SplicedPair(g, id, g[id].borrowsFrom, id, {}, m, p, c) {
      MaskAt(g, id, p, c);
      EdgesShaped(g, p, c);
      InsertedNone(EdgesAt(g, p, c));
      assert PairOk(g, p, id);
      assert p !in g[id].borrowsFrom ==> Spliced(g, p, id, c) == {};
    }
  }

  /** Starting with a parent: nothing is spliced for it yet. */
  lemma SplicingParent(g: Graph, id: RefId, todo: set<RefId>, parent: RefId, m: Graph)
    requires Splicing(g, id, todo, id, {}, m) && parent in todo && parent != id
    ensures Splicing(g, id, todo - {parent}, parent, {}, m)
  {
    forall p, c ensures SplicedPair(g, id, todo - {parent}, parent, {}, m, p, c) {
      assert SplicedPair(g, id, todo, id, {}, m, p, c);
      assert SplicedTo({}, c) == {};
      assert p != id ==>
        SplicedSoFar(g, id, todo - {parent}, parent, {}, p, c) == SplicedSoFar(g, id, todo, id, {}, p, c);
    }
  }

  lemma SplicedToMore(done: set<Splice>, t: Splice, c: RefId)
    ensures SplicedTo(done + {t}, c) ==
      if t.1 == c then SplicedTo(done, c) + {Compose(t.0, t.2)} else SplicedTo(done, c)
  {
    var more := SplicedTo(done + {t}, c);
    forall e ensures e in more <==> e in SplicedTo(done, c) || (t.1 == c && e == Compose(t.0, t.2)) {
      if e in more {
        var u :| u in done + {t} && u.1 == c && e == Compose(u.0, u.2);
      }
      if e in SplicedTo(done, c) {
        var u :| u in done && u.1 == c && e == Compose(u.0, u.2);
        assert u in done + {t};
      }
      if t.1 == c && e == Compose(t.0, t.2) {
        assert t in done + {t};
      }
    }
  }

  /** One splice more. */
  lemma SplicingStep(
    g: Graph, id: RefId, todo: set<RefId>, parent: RefId, done: set<Splice>, m: Graph, t: Splice)
    requires Valid(g) && Splicing(g, id, todo, parent, done, m)
    requires parent != id && t.1 != id && parent in m && t.1 in m
    ensures Splicing(g, id, todo, parent, done + {t},
                     if parent == t.1 then m else WithEdge(m, parent, Compose(t.0, t.2), t.1))
  {
    var m' := if parent == t.1 then m else WithEdge(m, parent, Compose(t.0, t.2), t.1);
    if parent != t.1 {
      WithEdgeValid(m, parent, Compose(t.0, t.2), t.1);
    }
    forall p, c ensures SplicedPair(g, id, todo, parent, done + {t}, m', p, c) {
      SplicingPair(g, id, todo, parent, done, m, t, p, c);
    }
  }

  lemma SplicingPair(
    g: Graph, id: RefId, todo: set<RefId>, parent: RefId, done: set<Splice>, m: Graph, t: Splice, p: RefId, c: RefId)
    requires Valid(g) && parent in m && t.1 in m && SplicedPair(g, id, todo, parent, done, m, p, c)
    ensures var m' := if parent == t.1 then m else WithEdge(m, parent, Compose(t.0, t.2), t.1);
            SplicedPair(g, id, todo, parent, done + {t}, m', p, c)
  {
    var e := Compose(t.0, t.2);
    SplicedToMore(done, t, c);
    if parent != t.1 {
      WithEdgeAt(m, parent, e, t.1, p, c);
    }
    if p == parent && c == t.1 && p != id && c != id && p != c {
      EdgesShaped(g, p, c);
      InsertedMore(EdgesAt(g, p, c), SplicedTo(done, c), EdgesAt(m, p, c), e);
    }
  }

  /** The splices of one parent. */
  function Splices(parentEdges: set<BorrowEdge>, borrowedBy: map<RefId, BorrowEdgeSet>): set<Splice> {
    set pe, c, ce | pe in parentEdges && c in borrowedBy && ce in borrowedBy[c].edges :: (pe, c, ce)
  }

  /** A parent is done when all its splices are. */
  lemma SplicingParentDone(g: Graph, id: RefId, todo: set<RefId>, parent: RefId, m: Graph)
    requires Valid(g) && id in g && parent in g && parent != id && id in g[parent].borrowedBy && parent !in todo
    requires Splicing(g, id, todo, parent, Splices(g[parent].borrowedBy[id].edges, g[id].borrowedBy), m)
    ensures Splicing(g, id, todo, id, {}, m)
  {
    var all := Splices(g[parent].borrowedBy[id].edges, g[id].borrowedBy);
    forall p, c | p != id && c != id && p != c ensures SplicedPair(g, id, todo, id, {}, m, p, c) {
      assert SplicedPair(g, id, todo, parent, all, m, p, c);
      if p == parent {
        SplicedAll(g, parent, id, c);
      }
    }
  }

  lemma SplicedAll(g: Graph, parent: RefId, id: RefId, c: RefId)
    requires id in g && parent in g && id in g[parent].borrowedBy
    ensures SplicedTo(Splices(g[parent].borrowedBy[id].edges, g[id].borrowedBy), c) == Spliced(g, parent, id, c)
  {
    var all := Splices(g[parent].borrowedBy[id].edges, g[id].borrowedBy);
    forall e ensures e in SplicedTo(all, c) <==> e in Spliced(g, parent, id, c) {
      if e in Spliced(g, parent, id, c) {
        var pe, ce :| pe in EdgesAt(g, parent, id).edges && ce in EdgesAt(g, id, c).edges && e == Compose(pe, ce);
        assert (pe, c, ce) in all;
      }
      if e in SplicedTo(all, c) {
        var t :| t in all && t.1 == c && e == Compose(t.0, t.2);
        assert t.0 in EdgesAt(g, parent, id).edges && t.2 in EdgesAt(g, id, c).edges;
      }
    }
  }

  /** When all parents are done, the reference is released. */
  lemma SplicingEnd(g: Graph, id: RefId, m: Graph)
    requires Splicing(g, id, {}, id, {}, m)
    ensures ReleaseOf(g, id, m)
  {
    forall p, c | p != id && c != id && p != c
      ensures Inserted(EdgesAt(g, p, c), Spliced(g, p, id, c), EdgesAt(m, p, c))
    {
      assert SplicedPair(g, id, {}, id, {}, m, p, c);
      assert SplicedSoFar(g, id, {}, id, {}, p, c) == Spliced(g, p, id, c);
    }
  }

  // ---------------------------------------------------------------------------------------------
  // Factoring: edges are taken from the parent, and their rest is given to the new reference
  // ---------------------------------------------------------------------------------------------

  /** An edge of the parent, with the child it leads to. */
  type ChildEdge = (RefId, BorrowEdge)

  /** The edges of `borrowedBy` through `path`. */
  function Through(borrowedBy: map<RefId, BorrowEdgeSet>, path: Path): set<ChildEdge> {
    set c, e | c in borrowedBy && e in borrowedBy[c].edges && Leq(path, e.path) :: (c, e)
  }

  function LeftEdges(edges: set<BorrowEdge>, removed: set<ChildEdge>, c: RefId): set<BorrowEdge> {
    set e | e in edges && (c, e) !in removed
  }

  /** What is left of `borrowedBy` without the removed edges; empty sets are dropped. */
  function Left(borrowedBy: map<RefId, BorrowEdgeSet>, removed: set<ChildEdge>): map<RefId, BorrowEdgeSet> {
    map c | c in borrowedBy && LeftEdges(borrowedBy[c].edges, removed, c) != {} ::
      BorrowEdgeSet(LeftEdges(borrowedBy[c].edges, removed, c), borrowedBy[c].overflown)
  }

  /** The children that have no edge left. */
  function Emptied(borrowedBy: map<RefId, BorrowEdgeSet>, removed: set<ChildEdge>): set<RefId> {
    set c | c in borrowedBy && LeftEdges(borrowedBy[c].edges, removed, c) == {}
  }

  /** Removes an edge, and the entry of its child with the last one. */
  function RemoveEdge(borrowedBy: map<RefId, BorrowEdgeSet>, t: ChildEdge): map<RefId, BorrowEdgeSet>
    requires t.0 in borrowedBy
  {
    var edges := borrowedBy[t.0].edges - {t.1};
    if edges == {} then borrowedBy - {t.0} else borrowedBy[t.0 := borrowedBy[t.0].(edges := edges)]
  }

  lemma LeftEdgesStep(edges: set<BorrowEdge>, removed: set<ChildEdge>, t: ChildEdge, c: RefId)
    ensures LeftEdges(edges, removed + {t}, c)
         == if c == t.0 then LeftEdges(edges, removed, c) - {t.1} else LeftEdges(edges, removed, c)
  {
  }

  lemma LeftPresent(borrowedBy: map<RefId, BorrowEdgeSet>, removed: set<ChildEdge>, t: ChildEdge)
    requires t.0 in borrowedBy && t.1 in borrowedBy[t.0].edges && t !in removed
    ensures t.0 in Left(borrowedBy, removed) && t.1 in Left(borrowedBy, removed)[t.0].edges
  {
    assert t.1 in LeftEdges(borrowedBy[t.0].edges, removed, t.0);
  }

  /** Removing one more edge. */
  lemma LeftStep(borrowedBy: map<RefId, BorrowEdgeSet>, removed: set<ChildEdge>, t: ChildEdge)
    requires t.0 in borrowedBy && t.1 in borrowedBy[t.0].edges && t !in removed
    ensures t.0 in Left(borrowedBy, removed)
    ensures Left(borrowedBy, removed + {t}) == RemoveEdge(Left(borrowedBy, removed), t)
  {
    LeftPresent(borrowedBy, removed, t);
    var after, expected := Left(borrowedBy, removed + {t}), RemoveEdge(Left(borrowedBy, removed), t);
    forall c ensures c in after <==> c in expected
             ensures c in after ==> after[c] == expected[c]
    {
      if c in borrowedBy {
        LeftEdgesStep(borrowedBy[c].edges, removed, t, c);
      }
    }
  }

  lemma EmptiedStep(borrowedBy: map<RefId, BorrowEdgeSet>, removed: set<ChildEdge>, t: ChildEdge)
    requires t.0 in borrowedBy && t.1 in borrowedBy[t.0].edges && t !in removed
    ensures t.0 in Left(borrowedBy, removed)
    ensures Emptied(borrowedBy, removed + {t})
         == Emptied(borrowedBy, removed) + (if Left(borrowedBy, removed)[t.0].edges - {t.1} == {} then {t.0} else {})
  {
    LeftPresent(borrowedBy, removed, t);
    forall c | c in borrowedBy
      ensures c in Emptied(borrowedBy, removed + {t}) <==>
              c in Emptied(borrowedBy, removed) || (c == t.0 && Left(borrowedBy, removed)[t.0].edges - {t.1} == {})
    {
      LeftEdgesStep(borrowedBy[c].edges, removed, t, c);
    }
  }

  lemma LeftStart(g: Graph, parent: RefId)
    requires Valid(g) && parent in g
    ensures Left(g[parent].borrowedBy, {}) == g[parent].borrowedBy && Emptied(g[parent].borrowedBy, {}) == {}
  {
    forall c | c in g[parent].borrowedBy
      ensures LeftEdges(g[parent].borrowedBy[c].edges, {}, c) == g[parent].borrowedBy[c].edges != {}
    {
      assert PairOk(g, parent, c);
    }
  }

  /** The graph with the edges through `path` taken from the parent. */
  ghost predicate Thinned(g: Graph, parent: RefId, path: Path, g': Graph) {
    && SameRefs(g, g') && Valid(g')
    && forall p, c :: EdgesAt(g', p, c) == if p == parent then Kept(EdgesAt(g, parent, c), path) else EdgesAt(g, p, c)
  }

  /** Dropping the emptied children from both ends leaves a valid graph. */
  lemma ThinnedEnd(g: Graph, parent: RefId, path: Path, g': Graph)
    requires Valid(g) && parent in g && SameRefs(g, g')
    requires var borrowedBy := g[parent].borrowedBy;
             var removed := Through(borrowedBy, path);
             && g'[parent].borrowedBy == Left(borrowedBy, removed)
             && (forall r | r in g && r != parent :: g'[r].borrowedBy == g[r].borrowedBy)
             && (forall r | r in g :: g'[r].borrowsFrom ==
                  if r in Emptied(borrowedBy, removed) then g[r].borrowsFrom - {parent} else g[r].borrowsFrom)
    ensures Thinned(g, parent, path, g')
  {
    var borrowedBy := g[parent].borrowedBy;
    var removed := Through(borrowedBy, path);
    forall c | c in borrowedBy
      ensures LeftEdges(borrowedBy[c].edges, removed, c) == set e | e in borrowedBy[c].edges && !Leq(path, e.path)
    {
    }
    forall p, c
      ensures PairOk(g', p, c)
      ensures EdgesAt(g', p, c) == if p == parent then Kept(EdgesAt(g, parent, c), path) else EdgesAt(g, p, c)
    {
      assert PairOk(g, p, c);
      if p == parent && c in borrowedBy {
        ThinnedPair(g, path, parent, c);
      }
    }
  }

  lemma ThinnedPair(g: Graph, path: Path, parent: RefId, c: RefId)
    requires Valid(g) && parent in g && c in g[parent].borrowedBy
    ensures Shaped(Kept(g[parent].borrowedBy[c], path))
  {
    assert PairOk(g, parent, c);
    var s := g[parent].borrowedBy[c];
    SubsetSize(Kept(s, path).edges, s.edges);
    if s.overflown {
      assert forall e | e in s.edges :: e == WEAK;
      assert Kept(s, path).edges == {} || Kept(s, path).edges == {WEAK};
    }
  }

  /** The rest of the edges to `c` among those moved so far. */
  function MovedTo(done: set<ChildEdge>, path: Path, c: RefId): set<BorrowEdge> {
    set t | t in done && t.0 == c && Leq(path, t.1.path) :: Suffix(path, t.1)
  }

  /** The state while the rests are given to `mid`. */
  ghost predicate Moving(g: Graph, path: Path, mid: RefId, done: set<ChildEdge>, g': Graph) {
    && SameRefs(g, g') && Valid(g')
    && forall p, c ::
         EdgesAt(g', p, c) == if p == mid then BorrowEdgeSet(MovedTo(done, path, c), false) else EdgesAt(g, p, c)
  }

  function EdgesTo(done: set<ChildEdge>, c: RefId): set<BorrowEdge> {
    set t | t in done && t.0 == c :: t.1
  }

  lemma {:induction false} MovedToSize(done: set<ChildEdge>, path: Path, c: RefId, edges: set<BorrowEdge>)
    requires EdgesTo(done, c) <= edges
    ensures |MovedTo(done, path, c)| <= |edges|
    decreases |edges|
  {
    if edges == {} {
      assert forall t | t in done :: t.0 != c || t.1 in EdgesTo(done, c);
      assert MovedTo(done, path, c) == {};
    } else {
      var e :| e in edges;
      var done' := done - {(c, e)};
      forall f | f in EdgesTo(done', c) ensures f in edges - {e} {
        var t :| t in done' && t.0 == c && t.1 == f;
        assert t.1 in EdgesTo(done, c);
      }
      MovedToSize(done', path, c, edges - {e});
      var rest := MovedTo(done', path, c);
      var all := MovedTo(done, path, c);
      if Leq(path, e.path) {
        forall f | f in all ensures f in rest + {Suffix(path, e)} {
          var t :| t in done && t.0 == c && Leq(path, t.1.path) && f == Suffix(path, t.1);
          if t != (c, e) {
            assert t in done';
          }
        }
        SubsetSize(all, rest + {Suffix(path, e)});
      } else {
        forall f | f in all ensures f in rest {
          var t :| t in done && t.0 == c && Leq(path, t.1.path) && f == Suffix(path, t.1);
          assert t in done';
        }
        SubsetSize(all, rest);
      }
    }
  }

  /** Before an edge is moved there is room for its rest: all edges to the child fit into one set. */
  lemma MovedToRoom(done: set<ChildEdge>, path: Path, t: ChildEdge, edges: set<BorrowEdge>)
    requires EdgesTo(done, t.0) <= edges && t.1 in edges && t !in done && |edges| <= MAX_EDGE_SET_SIZE
    ensures |MovedTo(done, path, t.0)| < MAX_EDGE_SET_SIZE
  {
    forall f | f in EdgesTo(done, t.0) ensures f in edges - {t.1} {
      var u :| u in done && u.0 == t.0 && u.1 == f;
      assert u != t;
    }
    MovedToSize(done, path, t.0, edges - {t.1});
  }

  lemma MovedToMore(done: set<ChildEdge>, path: Path, t: ChildEdge, c: RefId)
    requires Leq(path, t.1.path)
    ensures MovedTo(done + {t}, path, c) ==
            if t.0 == c then MovedTo(done, path, c) + {Suffix(path, t.1)} else MovedTo(done, path, c)
  {
    var more := MovedTo(done + {t}, path, c);
    forall f ensures f in more <==> f in MovedTo(done, path, c) || (t.0 == c && f == Suffix(path, t.1)) {
      if f in more {
        var u :| u in done + {t} && u.0 == c && Leq(path, u.1.path) && f == Suffix(path, u.1);
      }
      if f in MovedTo(done, path, c) {
        var u :| u in done && u.0 == c && Leq(path, u.1.path) && f == Suffix(path, u.1);
        assert u in done + {t};
      }
      if t.0 == c && f == Suffix(path, t.1) {
        assert t in done + {t};
      }
    }
  }

  /** One rest more: it never makes the set of edges lossy. */
  lemma MovingStep(g: Graph, path: Path, mid: RefId, done: set<ChildEdge>, g': Graph, t: ChildEdge,
                   edges: set<BorrowEdge>)
    requires Moving(g, path, mid, done, g') && mid in g && t.0 in g && t.0 != mid && Leq(path, t.1.path)
    requires EdgesTo(done, t.0) <= edges && t.1 in edges && t !in done && |edges| <= MAX_EDGE_SET_SIZE
    ensures Moving(g, path, mid, done + {t}, WithEdge(g', mid, Suffix(path, t.1), t.0))
  {
    var e := Suffix(path, t.1);
    var g'' := WithEdge(g', mid, e, t.0);
    WithEdgeValid(g', mid, e, t.0);
    MovedToRoom(done, path, t, edges);
    forall p, c
      ensures EdgesAt(g'', p, c) ==
              if p == mid then BorrowEdgeSet(MovedTo(done + {t}, path, c), false) else EdgesAt(g, p, c)
    {
      WithEdgeAt(g', mid, e, t.0, p, c);
      MovedToMore(done, path, t, c);
    }
  }

  lemma MovingStart(g: Graph, path: Path, mid: RefId)
    requires Valid(g) && mid in g && g[mid].borrowedBy == map[]
    ensures Moving(g, path, mid, {}, g)
  {
    forall c ensures MovedTo({}, path, c) == {} {
    }
  }

  /** The last step of factoring: the new reference borrows `path` from the parent. */
  lemma FactorEnd(g: Graph, parent: RefId, path: Path, mid: RefId, thin: Graph, moved: Graph)
    requires Valid(g) && parent in g && parent != mid && Isolated(g, mid)
    requires Thinned(g, parent, path, thin)
    requires Moving(thin, path, mid, Through(g[parent].borrowedBy, path), moved)
    ensures FactorOf(g, parent, path, mid, WithEdge(moved, parent, BorrowEdge(true, path), mid))
  {
    var e := BorrowEdge(true, path);
    var g' := WithEdge(moved, parent, e, mid);
    WithEdgeValid(moved, parent, e, mid);
    forall p, c ensures EdgesAt(g', p, c) == Factored(g, parent, path, mid, p, c) {
      WithEdgeAt(moved, parent, e, mid, p, c);
      MovedAll(g, parent, path, c);
      EntryIff(g, parent, mid);
      assert {} + {e} == {e};
    }
  }

  lemma MovedAll(g: Graph, parent: RefId, path: Path, c: RefId)
    requires parent in g
    ensures MovedTo(Through(g[parent].borrowedBy, path), path, c) == Moved(EdgesAt(g, parent, c), path)
  {
    var all := Through(g[parent].borrowedBy, path);
    forall f ensures f in MovedTo(all, path, c) <==> f in Moved(EdgesAt(g, parent, c), path) {
      if f in Moved(EdgesAt(g, parent, c), path) {
        var e :| e in EdgesAt(g, parent, c).edges && Leq(path, e.path) && f == Suffix(path, e);
        assert (c, e) in all;
      }
      if f in MovedTo(all, path, c) {
        var t :| t in all && t.0 == c && Leq(path, t.1.path) && f == Suffix(path, t.1);
        assert t.1 in EdgesAt(g, parent, c).edges;
      }
    }
  }

  // ---------------------------------------------------------------------------------------------
  // Joining
  // ---------------------------------------------------------------------------------------------

  /** An edge with its ends. */
  type Triple = (RefId, RefId, BorrowEdge)

  type EdgeMap = map<RefId, map<RefId, BorrowEdgeSet>>

  function SetIn(edges: EdgeMap, p: RefId, c: RefId): BorrowEdgeSet {
    if p in edges && c in edges[p] then edges[p][c] else NO_EDGES
  }

  function TriplesIn(edges: EdgeMap): set<Triple> {
    set p, c, e | p in edges && c in edges[p] && e in edges[p][c].edges :: (p, c, e)
  }

  function EdgesOf(done: set<Triple>, p: RefId, c: RefId): set<BorrowEdge> {
    set t | t in done && t.0 == p && t.1 == c :: t.2
  }

  lemma EdgesOfMore(done: set<Triple>, t: Triple, p: RefId, c: RefId)
    ensures EdgesOf(done + {t}, p, c) ==
      if t.0 == p && t.1 == c then EdgesOf(done, p, c) + {t.2} else EdgesOf(done, p, c)
  {
    forall e | e in EdgesOf(done, p, c) ensures e in EdgesOf(done + {t}, p, c) {
      var u :| u in done && u.0 == p && u.1 == c && u.2 == e;
      assert u in done + {t};
    }
    if t.0 == p && t.1 == c {
      assert t in done + {t};
    }
  }

  ghost predicate NoEmptyPart(edges: EdgeMap) {
    && (forall p | p in edges :: edges[p] != map[])
    && forall p, c | p in edges && c in edges[p] :: edges[p][c].edges != {}
  }

  /** The map holds exactly the given edges, without loss. */
  ghost predicate Holds(edges: EdgeMap, done: set<Triple>) {
    forall p, c :: SetIn(edges, p, c) == BorrowEdgeSet(EdgesOf(done, p, c), false)
  }

  ghost predicate Collected(edges: EdgeMap, done: set<Triple>) {
    NoEmptyPart(edges) && Holds(edges, done)
  }

  function Collect(edges: EdgeMap, t: Triple): EdgeMap {
    edges[t.0 := (if t.0 in edges then edges[t.0] else map[])[t.1 := Insert(SetIn(edges, t.0, t.1), t.2)]]
  }

  lemma CollectAt(edges: EdgeMap, t: Triple, p: RefId, c: RefId)
    ensures SetIn(Collect(edges, t), p, c)
         == if p == t.0 && c == t.1 then Insert(SetIn(edges, p, c), t.2) else SetIn(edges, p, c)
  {
  }

  /** There is room for an edge of a set that is not too large. */
  lemma Room(done: set<Triple>, t: Triple, bound: set<BorrowEdge>)
    requires t !in done && EdgesOf(done, t.0, t.1) <= bound && t.2 in bound && |bound| <= MAX_EDGE_SET_SIZE
    ensures Insert(BorrowEdgeSet(EdgesOf(done, t.0, t.1), false), t.2)
         == BorrowEdgeSet(EdgesOf(done, t.0, t.1) + {t.2}, false)
  {
    var before := EdgesOf(done, t.0, t.1);
    assert before <= bound - {t.2};
    SubsetSize(before, bound - {t.2});
  }

  lemma CollectStep(edges: EdgeMap, done: set<Triple>, t: Triple, bound: set<BorrowEdge>)
    requires Holds(edges, done) && t !in done
    requires EdgesOf(done, t.0, t.1) <= bound && t.2 in bound && |bound| <= MAX_EDGE_SET_SIZE
    ensures Holds(Collect(edges, t), done + {t})
  {
    forall p, c ensures SetIn(Collect(edges, t), p, c) == BorrowEdgeSet(EdgesOf(done + {t}, p, c), false) {
      CollectAt(edges, t, p, c);
      EdgesOfMore(done, t, p, c);
      Room(done, t, bound);
      assert SetIn(edges, p, c) == BorrowEdgeSet(EdgesOf(done, p, c), false);
    }
  }

  lemma CollectNonEmpty(edges: EdgeMap, t: Triple)
    requires NoEmptyPart(edges) && !Insert(SetIn(edges, t.0, t.1), t.2).overflown
    ensures NoEmptyPart(Collect(edges, t))
  {
    assert t.2 in Insert(SetIn(edges, t.0, t.1), t.2).edges;
    assert t.1 in Collect(edges, t)[t.0];
  }

  /** The unmatched edges among the given ones. */
  ghost function UnmatchedOf(g: Graph, done: set<Triple>): set<Triple> {
    set t | t in done && !Matched(EdgesAt(g, t.0, t.1), t.2)
  }

  lemma UnmatchedAll(g: Graph, other: Graph, p: RefId, c: RefId)
    ensures EdgesOf(UnmatchedOf(g, EdgeTriples(other)), p, c) == Unmatched(g, other, p, c)
  {
    var all := UnmatchedOf(g, EdgeTriples(other));
    forall e ensures e in EdgesOf(all, p, c) <==> e in Unmatched(g, other, p, c) {
      if e in Unmatched(g, other, p, c) {
        assert (p, c, e) in EdgeTriples(other);
        assert (p, c, e) in all;
      }
    }
  }

  /** A graph covers another exactly if no edge is unmatched. */
  lemma NoneUnmatched(g: Graph, other: Graph)
    ensures GraphLeq(g, other) <==> UnmatchedOf(g, EdgeTriples(other)) == {}
  {
    var all := UnmatchedOf(g, EdgeTriples(other));
    if all == {} {
      forall p: RefId, c: RefId, e | e in EdgesAt(other, p, c).edges ensures Matched(EdgesAt(g, p, c), e) {
        assert (p, c, e) in EdgeTriples(other);
        assert (p, c, e) !in all;
      }
    }
    if GraphLeq(g, other) {
      assert forall t | t in EdgeTriples(other) :: Matched(EdgesAt(g, t.0, t.1), t.2);
    }
  }

  lemma CollectedEmpty(edges: EdgeMap, done: set<Triple>)
    requires Collected(edges, done)
    ensures edges == map[] <==> done == {}
    ensures TriplesIn(edges) == done
  {
    forall t ensures t in TriplesIn(edges) <==> t in done {
      assert SetIn(edges, t.0, t.1) == BorrowEdgeSet(EdgesOf(done, t.0, t.1), false);
      if t in done {
        assert t.2 in EdgesOf(done, t.0, t.1);
      }
      if t in TriplesIn(edges) {
        assert t.2 in EdgesOf(done, t.0, t.1);
      }
    }
    if edges != map[] {
      var p :| p in edges;
      var c :| c in edges[p];
      var e :| e in edges[p][c].edges;
      assert (p, c, e) in TriplesIn(edges);
    }
  }

  /** The state of a join: the given edges were added. */
  ghost predicate Joining(g: Graph, done: set<Triple>, j: Graph) {
    && SameRefs(g, j) && Valid(j)
    && forall p, c :: Inserted(EdgesAt(g, p, c), EdgesOf(done, p, c), EdgesAt(j, p, c))
  }

  lemma JoiningStart(g: Graph)
    requires Valid(g)
    ensures Joining(g, {}, g)
  {
    forall p, c ensures Inserted(EdgesAt(g, p, c), EdgesOf({}, p, c), EdgesAt(g, p, c)) {
      EdgesShaped(g, p, c);
      InsertedNone(EdgesAt(g, p, c));
      assert EdgesOf({}, p, c) == {};
    }
  }

  lemma JoiningStep(g: Graph, done: set<Triple>, j: Graph, t: Triple)
    requires Valid(g) && Joining(g, done, j) && t.0 in g && t.1 in g && t.0 != t.1
    ensures Joining(g, done + {t}, WithEdge(j, t.0, t.2, t.1))
  {
    var j' := WithEdge(j, t.0, t.2, t.1);
    WithEdgeValid(j, t.0, t.2, t.1);
    forall p, c ensures Inserted(EdgesAt(g, p, c), EdgesOf(done + {t}, p, c), EdgesAt(j', p, c)) {
      WithEdgeAt(j, t.0, t.2, t.1, p, c);
      EdgesOfMore(done, t, p, c);
      EdgesShaped(g, p, c);
      assert Inserted(EdgesAt(g, p, c), EdgesOf(done, p, c), EdgesAt(j, p, c));
      if p == t.0 && c == t.1 {
        InsertedMore(EdgesAt(g, p, c), EdgesOf(done, p, c), EdgesAt(j, p, c), t.2);
      }
    }
  }

  lemma JoiningEnd(g: Graph, other: Graph, j: Graph)
    requires Joining(g, UnmatchedOf(g, EdgeTriples(other)), j)
    ensures JoinOf(g, other, j)
  {
    forall p, c ensures Inserted(EdgesAt(g, p, c), Unmatched(g, other, p, c), EdgesAt(j, p, c)) {
      UnmatchedAll(g, other, p, c);
    }
  }

  /** The mentions of `id` that are left in the graph: the edges of `parents`, and the back pointers of `children`. */
  ghost predicate Dangling(g: Graph, refs: Graph, id: RefId, parents: set<RefId>, children: set<RefId>) {
    && id !in refs && refs.Keys == g.Keys - {id}
    && forall r | r in refs ::
         && (id in refs[r].borrowedBy <==> r in parents)
         && (r in parents ==> id in g[r].borrowedBy && refs[r].borrowedBy[id] == g[r].borrowedBy[id])
         && (id in refs[r].borrowsFrom <==> r in children)
  }

  lemma DanglingStart(g: Graph, id: RefId)
    requires Valid(g) && id in g
    ensures Dangling(g, g - {id}, id, g[id].borrowsFrom, g[id].borrowedBy.Keys)
    ensures Mask(g - {id}, id) == Mask(g, id)
  {
    forall r | r in g - {id}
      ensures id in g[r].borrowedBy <==> r in g[id].borrowsFrom
      ensures id in g[r].borrowsFrom <==> r in g[id].borrowedBy
    {
      assert PairOk(g, r, id) && PairOk(g, id, r);
    }
  }

  /** Dropping the edges of a parent. */
  lemma DanglingParent(g: Graph, refs: Graph, id: RefId, parents: set<RefId>, children: set<RefId>, parent: RefId)
    requires Dangling(g, refs, id, parents, children) && parent in refs
    ensures var refs' := refs[parent := refs[parent].(borrowedBy := refs[parent].borrowedBy - {id})];
            Dangling(g, refs', id, parents - {parent}, children) && Mask(refs', id) == Mask(refs, id)
  {
    var refs' := refs[parent := refs[parent].(borrowedBy := refs[parent].borrowedBy - {id})];
    forall r | r in refs && r != id ensures Mask(refs', id)[r] == Mask(refs, id)[r] {
      assert refs'[r].borrowedBy - {id} == refs[r].borrowedBy - {id};
    }
  }

  /** Dropping the back pointer of a child. */
  lemma DanglingChild(g: Graph, refs: Graph, id: RefId, parents: set<RefId>, children: set<RefId>, child: RefId)
    requires Dangling(g, refs, id, parents, children) && child in refs
    ensures var refs' := refs[child := refs[child].(borrowsFrom := refs[child].borrowsFrom - {id})];
            Dangling(g, refs', id, parents, children - {child}) && Mask(refs', id) == Mask(refs, id)
  {
    var refs' := refs[child := refs[child].(borrowsFrom := refs[child].borrowsFrom - {id})];
    forall r | r in refs && r != id ensures Mask(refs', id)[r] == Mask(refs, id)[r] {
      assert refs'[r].borrowsFrom - {id} == refs[r].borrowsFrom - {id};
    }
  }

  /** Adding an edge elsewhere. */
  lemma DanglingWithEdge(
    g: Graph, refs: Graph, id: RefId, parents: set<RefId>, children: set<RefId>, p: RefId, e: BorrowEdge, c: RefId)
    requires Dangling(g, refs, id, parents, children) && p in refs && c in refs && p != c
    ensures Dangling(g, WithEdge(refs, p, e, c), id, parents, children)
  {
  }

  /** The graph after one splice. */
  function AfterSplice(refs: Graph, parent: RefId, t: Splice): Graph
    requires parent in refs && t.1 in refs
  {
    if parent == t.1 then refs else WithEdge(refs, parent, Compose(t.0, t.2), t.1)
  }

  lemma SpliceStep(
    g: Graph, refs: Graph, id: RefId, todo: set<RefId>, children: set<RefId>, parent: RefId, done: set<Splice>,
    t: Splice)
    requires Valid(g) && Dangling(g, refs, id, todo, children)
    requires Splicing(g, id, todo, parent, done, Mask(refs, id))
    requires parent in refs && t.1 in refs
    ensures Dangling(g, AfterSplice(refs, parent, t), id, todo, children)
    ensures Splicing(g, id, todo, parent, done + {t}, Mask(AfterSplice(refs, parent, t), id))
  {
    SplicingStep(g, id, todo, parent, done, Mask(refs, id), t);
    if parent != t.1 {
      MaskWithEdge(refs, id, parent, Compose(t.0, t.2), t.1);
      DanglingWithEdge(g, refs, id, todo, children, parent, Compose(t.0, t.2), t.1);
    }
  }

  lemma StillIsolated(g: Graph, parent: RefId, path: Path, mid: RefId, thin: Graph)
    requires Valid(g) && parent in g && parent != mid && Isolated(g, mid) && Thinned(g, parent, path, thin)
    ensures mid in thin && thin[mid].borrowedBy == map[]
  {
    forall c ensures c !in thin[mid].borrowedBy {
      assert EdgesAt(thin, mid, c) == EdgesAt(g, mid, c);
      EntryIff(thin, mid, c);
    }
  }

  /** A call of the graph's interface; a join is with the graph that other calls build. */
  datatype Operation =
    | MakeRef(id: RefId, isMutable: bool)
    | StrongBorrow(parent: RefId, child: RefId)
    | StrongFieldBorrow(parent: RefId, field: Label, child: RefId)
    | WeakBorrow(parent: RefId, path: Path, child: RefId)
    | Drop(id: RefId)
    | JoinWith(other: seq<Operation>)
    | Remap(ids: IdMap)

  /** Whether a call other than a join meets what the graph demands of its callers. */
  predicate Allowed(refs: Graph, op: Operation) {
    match op
    case MakeRef(id, _) => id !in refs
    case StrongBorrow(parent, child) => parent in refs && parent != child && Isolated(refs, child)
    case StrongFieldBorrow(parent, _, child) => parent in refs && parent != child && Isolated(refs, child)
    case WeakBorrow(parent, _, child) => parent in refs && child in refs && parent != child
    case Drop(id) => id in refs
    case JoinWith(_) => true
    case Remap(ids) => Fresh(ids, refs.Keys)
  }

  /**
   What one call does to the graph. A call that is not allowed does nothing, nor does a join over other references.
   */
  ghost predicate Effect(g: Graph, op: Operation, g': Graph)
    decreases op, 0
  {
    if !Allowed(g, op) then g' == g
    else
      match op
      case MakeRef(id, isMutable) => g' == g[id := Ref(map[], {}, isMutable)]
      case StrongBorrow(parent, child) => FactorOf(g, parent, [], child, g')
      case StrongFieldBorrow(parent, field, child) => FactorOf(g, parent, [field], child, g')
      case WeakBorrow(parent, path, child) => g' == WithEdge(g, parent, BorrowEdge(false, path), child)
      case Drop(id) => ReleaseOf(g, id, g')
      case Remap(ids) => GraphRenamed(ids, g, g')
      case JoinWith(ops) => exists other ::
        Reaches(map[], ops, |ops|, other) && if other.Keys == g.Keys then JoinOf(g, other, g') else g' == g
  }

  /** The graph that the first `n` calls lead to. */
  ghost predicate Reaches(g: Graph, ops: seq<Operation>, n: nat, g': Graph)
    requires n <= |ops|
    decreases ops, n
  {
    if n == 0 then g' == g
    else
      var last := n - 1;
      exists m :: Reaches(g, ops, last, m) && Effect(m, ops[last], g')
  }

  lemma EffectKeepsValid(g: Graph, op: Operation, g': Graph)
    requires Valid(g) && Effect(g, op, g')
    ensures Valid(g')
  {
    if Allowed(g, op) {
      match op {
        case MakeRef(id, _) => {
          forall p, c ensures PairOk(g', p, c) {
            assert PairOk(g, p, c);
          }
        }
        case WeakBorrow(parent, path, child) => WithEdgeValid(g, parent, BorrowEdge(false, path), child);
        case Remap(ids) => RenamedValid(ids, g, g');
        case JoinWith(ops) => {
          var other :|
            && Reaches(map[], ops, |ops|, other)
            && if other.Keys == g.Keys then JoinOf(g, other, g') else g' == g;
        }
        case _ =>
      }
    }
  }

  lemma ReachesNext(g: Graph, ops: seq<Operation>, n: nat, m: Graph, g': Graph)
    requires n < |ops| && Reaches(g, ops, n, m) && Effect(m, ops[n], g')
    ensures Reaches(g, ops, n + 1, g')
  {
  }

  /** Every graph that calls lead to passes the check that the graph makes of itself. */
  lemma {:induction false} ReachedIsValid(g: Graph, ops: seq<Operation>, n: nat, g': Graph)
    requires Valid(g) && n <= |ops| && Reaches(g, ops, n, g')
    ensures Valid(g') && CheckInvariant(g') && SetsOk(g')
    decreases n
  {
    if n > 0 {
      var last := n - 1;
      var m :| Reaches(g, ops, last, m) && Effect(m, ops[last], g');
      ReachedIsValid(g, ops, last, m);
      EffectKeepsValid(m, ops[last], g');
    }
    ValidIff(g');
  }

  /** Calls that make two references borrow from each other. */
  function MutualCalls(l: Label): seq<Operation> {
    [MakeRef(0, true), MakeRef(1, true), StrongFieldBorrow(0, l, 1), WeakBorrow(1, [], 0)]
  }

  /** The graph after the third of the calls. */
  function OneBorrow(l: Label): Graph {
    map[0 := Ref(map[1 := BorrowEdgeSet({BorrowEdge(true, [l])}, false)], {}, true), 1 := Ref(map[], {0}, true)]
  }

  function TwoAlone(): Graph {
    map[0 := Ref(map[], {}, true), 1 := Ref(map[], {}, true)]
  }

  lemma BorrowsOne(l: Label)
    ensures FactorOf(TwoAlone(), 0, [l], 1, OneBorrow(l))
  {
    var g, g' := TwoAlone(), OneBorrow(l);
    forall p, c ensures PairOk(g', p, c) {
    }
    forall p, c ensures EdgesAt(g', p, c) == Factored(g, 0, [l], 1, p, c) {
      assert EdgesAt(g, p, c) == NO_EDGES;
    }
  }

  lemma AlonesReached(l: Label)
    ensures Reaches(map[], MutualCalls(l), 2, TwoAlone())
  {
    var ops, one := MutualCalls(l), map[0 := Ref(map[], {}, true)];
    assert Reaches(map[], ops, 0, map[]);
    ReachesNext(map[], ops, 0, map[], one);
    ReachesNext(map[], ops, 1, one, TwoAlone());
  }

  lemma MutualReached(l: Label)
    ensures Reaches(map[], MutualCalls(l), 4, Mutual(l))
  {
    var ops := MutualCalls(l);
    AlonesReached(l);
    BorrowsOne(l);
    assert Effect(TwoAlone(), ops[2], OneBorrow(l));
    ReachesNext(map[], ops, 2, TwoAlone(), OneBorrow(l));
    assert WithEdge(OneBorrow(l), 1, WEAK, 0) == Mutual(l);
    ReachesNext(map[], ops, 3, OneBorrow(l), Mutual(l));
  }

  /** A loss that calls lead to: of two references that borrow from each other, one is released. */
  lemma ReachableLoss(l: Label)
    ensures Reaches(map[], MutualCalls(l), 4, Mutual(l)) && Effect(Mutual(l), Drop(1), Single())
    ensures Derives(Mutual(l), 0, 0, [l]) && !Derives(Single(), 0, 0, [l])
  {
    MutualReached(l);
    ReleaseOnCycleLoses(l);
  }

  /** Calls that make a reference borrow anywhere below another, and a third borrow a field of it. */
  function ChainCalls(l: Label): seq<Operation> {
    [MakeRef(0, true), MakeRef(1, true), MakeRef(2, true), WeakBorrow(0, [], 1), StrongFieldBorrow(1, l, 2)]
  }

  function ThreeAlone(): Graph {
    TwoAlone()[2 := Ref(map[], {}, true)]
  }

  /** The graph after the fourth of the calls. */
  function OneWeak(): Graph {
    WithEdge(ThreeAlone(), 0, WEAK, 1)
  }

  lemma BorrowsField(l: Label)
    ensures FactorOf(OneWeak(), 1, [l], 2, Chain(l))
  {
    var g, g' := OneWeak(), Chain(l);
    forall p, c ensures PairOk(g', p, c) {
    }
    forall p, c ensures EdgesAt(g', p, c) == Factored(g, 1, [l], 2, p, c) {
      assert EdgesAt(g, p, c) == if p == 0 && c == 1 then BorrowEdgeSet({WEAK}, false) else NO_EDGES;
    }
  }

  lemma ChainReached(l: Label)
    ensures Reaches(map[], ChainCalls(l), 5, Chain(l))
  {
    var ops, one := ChainCalls(l), map[0 := Ref(map[], {}, true)];
    assert Reaches(map[], ops, 0, map[]);
    ReachesNext(map[], ops, 0, map[], one);
    ReachesNext(map[], ops, 1, one, TwoAlone());
    ReachesNext(map[], ops, 2, TwoAlone(), ThreeAlone());
    ReachesNext(map[], ops, 3, ThreeAlone(), OneWeak());
    BorrowsField(l);
    ReachesNext(map[], ops, 4, OneWeak(), Chain(l));
  }

  /** A gain that calls lead to: what was below a field only may be anywhere after the release. */
  lemma ReachableGain(l: Label)
    ensures Reaches(map[], ChainCalls(l), 5, Chain(l)) && Effect(Chain(l), Drop(1), Shortened())
    ensures Derives(Shortened(), 0, 2, []) && !Derives(Chain(l), 0, 2, [])
  {
    ChainReached(l);
    ReleaseGains(l);
  }

  /** The references remapped so far, with the others as they were. */
  ghost predicate Remapping(ids: IdMap, g: Graph, todo: set<RefId>, g': Graph) {
    && g'.Keys == g.Keys
    && (forall r | r in g && r in todo :: g'[r] == g[r])
    && forall r | r in g && r !in todo :: RefRenamed(ids, g[r], g'[r])
  }

  lemma FreshForRef(ids: IdMap, g: Graph, r: RefId)
    requires Valid(g) && r in g && Fresh(ids, g.Keys)
    ensures Fresh(ids, g[r].borrowedBy.Keys) && Fresh(ids, g[r].borrowsFrom)
  {
    ValidConsistent(g);
  }

  lemma OneLess<T>(all: set<T>, work: set<T>, t: T)
    requires t in work && work <= all
    ensures all - (work - {t}) == all - work + {t}
  {
  }

  lemma EdgesToAreIn(done: set<ChildEdge>, c: RefId, edges: set<BorrowEdge>)
    requires forall t | t in done && t.0 == c :: t.1 in edges
    ensures EdgesTo(done, c) <= edges
  {
    forall e | e in EdgesTo(done, c) ensures e in edges {
      var u :| u in done && u.0 == c && u.1 == e;
    }
  }

  class BorrowGraph {
    var refs: Graph

    constructor ()
      ensures refs == map[] && Valid(refs)
    {
      refs := map[];
    }

    /** Adds a reference that is not in the graph yet. */
    method NewRef(id: RefId, isMutable: bool)
      requires Valid(refs) && id !in refs
      modifies this
      ensures Valid(refs) && Isolated(refs, id) && refs == old(refs)[id := Ref(map[], {}, isMutable)]
    {
      refs := refs[id := Ref(map[], {}, isMutable)];
      forall p, c ensures PairOk(refs, p, c) {
        assert PairOk(old(refs), p, c);
      }
    }

    method AddEdge(parent: RefId, edge: BorrowEdge, child: RefId)
      requires parent in refs && child in refs && parent != child
      modifies this
      ensures refs == WithEdge(old(refs), parent, edge, child)
    {
      var edges := if child in refs[parent].borrowedBy then refs[parent].borrowedBy[child] else NO_EDGES;
      refs := refs[parent := refs[parent].(borrowedBy := refs[parent].borrowedBy[child := Insert(edges, edge)])];
      refs := refs[child := refs[child].(borrowsFrom := refs[child].borrowsFrom + {parent})];
    }

    /** A weak borrow: the child may borrow from anywhere below `path` in the parent. */
    method AddWeakBorrow(parent: RefId, path: Path, child: RefId)
      requires Valid(refs) && parent in refs && child in refs && parent != child
      modifies this
      ensures Valid(refs) && refs == WithEdge(old(refs), parent, BorrowEdge(false, path), child)
    {
      AddEdge(parent, BorrowEdge(false, path), child);
      WithEdgeValid(old(refs), parent, BorrowEdge(false, path), child);
    }

    /** Takes the edges through `path` from the parent, and cleans up the children that lose their last edge. */
    method TakeThrough(parent: RefId, path: Path) returns (needsFactored: set<ChildEdge>)
      requires Valid(refs) && parent in refs
      modifies this
      ensures needsFactored == Through(old(refs)[parent].borrowedBy, path)
      ensures Thinned(old(refs), parent, path, refs)
    {
      ghost var g := refs;
      var borrowedBy := refs[parent].borrowedBy;
      needsFactored := Through(borrowedBy, path);
      var kept, cleanup: set<RefId> := borrowedBy, {};
      var work := needsFactored;
      ghost var removed: set<ChildEdge> := {};
      LeftStart(g, parent);
      while work != {}
        invariant refs == g && work <= needsFactored && removed == needsFactored - work
        invariant kept == Left(borrowedBy, removed) && cleanup == Emptied(borrowedBy, removed)
      {
        var t :| t in work;
        LeftStep(borrowedBy, removed, t);
        EmptiedStep(borrowedBy, removed, t);
        if kept[t.0].edges - {t.1} == {} {
          cleanup := cleanup + {t.0};
        }
        kept := RemoveEdge(kept, t);
        work := work - {t};
        removed := removed + {t};
      }
      assert removed == needsFactored;
      refs := refs[parent := refs[parent].(borrowedBy := kept)];
      CleanUp(parent, cleanup, g);
      ThinnedEnd(g, parent, path, refs);
    }

    /** Removes the back pointers of the children that lost their last edge. */
    method CleanUp(parent: RefId, cleanup: set<RefId>, ghost g: Graph)
      requires Valid(g) && parent in g && cleanup <= g[parent].borrowedBy.Keys
      requires refs.Keys == g.Keys && forall r | r in g :: refs[r].borrowsFrom == g[r].borrowsFrom
      modifies this
      ensures refs.Keys == g.Keys
      ensures forall r | r in g ::
        refs[r].borrowedBy == old(refs)[r].borrowedBy && refs[r].isMutable == old(refs)[r].isMutable
      ensures forall r | r in g ::
                refs[r].borrowsFrom == if r in cleanup then g[r].borrowsFrom - {parent} else g[r].borrowsFrom
    {
      var work := cleanup;
      while work != {}
        invariant work <= cleanup && refs.Keys == g.Keys
        invariant forall r | r in g ::
          refs[r].borrowedBy == old(refs)[r].borrowedBy && refs[r].isMutable == old(refs)[r].isMutable
        invariant forall r | r in g ::
                    refs[r].borrowsFrom == if r in cleanup - work then g[r].borrowsFrom - {parent} else g[r].borrowsFrom
      {
        var child :| child in work;
        assert PairOk(g, parent, child);
        refs := refs[child := refs[child].(borrowsFrom := refs[child].borrowsFrom - {parent})];
        work := work - {child};
      }
    }

    /** Gives the rest of every factored edge to the new reference. */
    method GiveRests(path: Path, mid: RefId, needsFactored: set<ChildEdge>, ghost edgesOf: map<RefId, BorrowEdgeSet>)
      requires Valid(refs) && mid in refs && refs[mid].borrowedBy == map[]
      requires forall t | t in needsFactored ::
                 && t.0 in refs && t.0 != mid && Leq(path, t.1.path)
                 && t.0 in edgesOf && t.1 in edgesOf[t.0].edges && |edgesOf[t.0].edges| <= MAX_EDGE_SET_SIZE
      modifies this
      ensures Moving(old(refs), path, mid, needsFactored, refs)
    {
      var work := needsFactored;
      MovingStart(refs, path, mid);
      assert needsFactored - work == {};
      while work != {}
        invariant work <= needsFactored
        invariant Moving(old(refs), path, mid, needsFactored - work, refs)
      {
        var t :| t in work;
        EdgesToAreIn(needsFactored - work, t.0, edgesOf[t.0].edges);
        MovingStep(old(refs), path, mid, needsFactored - work, refs, t, edgesOf[t.0].edges);
        AddEdge(mid, Suffix(path, t.1), t.0);
        OneLess(needsFactored, work, t);
        work := work - {t};
      }
      assert needsFactored - work == needsFactored;
    }

    /** Puts the fresh reference `mid` between the parent and everything that borrows through `path`. */
    method FactorEdges(parent: RefId, path: Path, mid: RefId)
      requires Valid(refs) && parent in refs && parent != mid && Isolated(refs, mid)
      modifies this
      ensures FactorOf(old(refs), parent, path, mid, refs)
    {
      ghost var g := refs;
      var needsFactored := TakeThrough(parent, path);
      ghost var thin := refs;
      StillIsolated(g, parent, path, mid, thin);
      forall t | t in needsFactored
        ensures t.0 in g && t.0 != mid && t.1 in g[parent].borrowedBy[t.0].edges
        ensures |g[parent].borrowedBy[t.0].edges| <= MAX_EDGE_SET_SIZE
      {
        assert PairOk(g, parent, t.0);
      }
      GiveRests(path, mid, needsFactored, g[parent].borrowedBy);
      FactorEnd(g, parent, path, mid, thin, refs);
      AddEdge(parent, BorrowEdge(true, path), mid);
    }

    /** A strong borrow of the whole parent by a fresh child. */
    method AddStrongBorrow(parent: RefId, child: RefId)
      requires Valid(refs) && parent in refs && parent != child && Isolated(refs, child)
      modifies this
      ensures FactorOf(old(refs), parent, [], child, refs)
    {
      FactorEdges(parent, [], child);
    }

    /** A strong borrow of one field of the parent by a fresh child. */
    method AddStrongFieldBorrow(parent: RefId, field: Label, child: RefId)
      requires Valid(refs) && parent in refs && parent != child && Isolated(refs, child)
      modifies this
      ensures FactorOf(old(refs), parent, [field], child, refs)
    {
      FactorEdges(parent, [field], child);
    }

    /** Collects the edges of the other graph that no edge of this one covers. */
    method UnmatchedEdges(other: BorrowGraph) returns (unmatched: EdgeMap)
      requires Valid(refs) && Valid(other.refs) && other.refs.Keys <= refs.Keys
      ensures Collected(unmatched, UnmatchedOf(refs, EdgeTriples(other.refs)))
    {
      unmatched := map[];
      ghost var all := EdgeTriples(other.refs);
      var work := EdgeTriples(other.refs);
      ghost var found: set<Triple> := {};
      assert forall p, c :: EdgesOf({}, p, c) == {};
      while work != {}
        invariant work <= all && found == UnmatchedOf(refs, all - work)
        invariant Collected(unmatched, found)
      {
        var t :| t in work;
        var selfBorrowedBy := refs[t.0].borrowedBy;
        var foundMatch := t.1 in selfBorrowedBy && Matched(selfBorrowedBy[t.1], t.2);
        assert foundMatch <==> Matched(EdgesAt(refs, t.0, t.1), t.2);
        ghost var rest := work - {t};
        if !foundMatch {
          assert PairOk(other.refs, t.0, t.1);
          CollectStep(unmatched, found, t, other.refs[t.0].borrowedBy[t.1].edges);
          Room(found, t, other.refs[t.0].borrowedBy[t.1].edges);
          CollectNonEmpty(unmatched, t);
          unmatched := Collect(unmatched, t);
          found := found + {t};
        }
        work := work - {t};
        assert all - work == (all - (work + {t})) + {t};
      }
      assert all - work == all;
    }

    /** Whether this graph covers the other. */
    method Covers(other: BorrowGraph) returns (b: bool)
      requires Valid(refs) && Valid(other.refs) && other.refs.Keys <= refs.Keys
      ensures b <==> GraphLeq(refs, other.refs)
    {
      var unmatched := UnmatchedEdges(other);
      CollectedEmpty(unmatched, UnmatchedOf(refs, EdgeTriples(other.refs)));
      NoneUnmatched(refs, other.refs);
      b := unmatched == map[];
    }

    /** Adds edges between references of the graph. */
    method AddEdges(edges: set<Triple>)
      requires Valid(refs) && forall t | t in edges :: t.0 in refs && t.1 in refs && t.0 != t.1
      modifies this
      ensures Joining(old(refs), edges, refs)
    {
      var work := edges;
      ghost var done: set<Triple> := {};
      JoiningStart(refs);
      while work != {}
        invariant work <= edges && done == edges - work
        invariant Joining(old(refs), done, refs)
      {
        var t :| t in work;
        JoiningStep(old(refs), done, refs, t);
        AddEdge(t.0, t.2, t.1);
        work := work - {t};
        done := done + {t};
      }
      assert done == edges;
    }

    /** A new graph: this one with the unmatched edges of the other. */
    method Join(other: BorrowGraph) returns (joined: BorrowGraph)
      requires Valid(refs) && Valid(other.refs) && other.refs.Keys == refs.Keys
      ensures fresh(joined) && JoinOf(refs, other.refs, joined.refs)
    {
      var unmatched := UnmatchedEdges(other);
      ghost var all := UnmatchedOf(refs, EdgeTriples(other.refs));
      CollectedEmpty(unmatched, all);
      forall t | t in all ensures t.0 in refs && t.1 in refs && t.0 != t.1 {
        assert PairOk(other.refs, t.0, t.1);
      }
      joined := new BorrowGraph();
      joined.refs := refs;
      joined.AddEdges(TriplesIn(unmatched));
      JoiningEnd(refs, other.refs, joined.refs);
    }

    /** Renames references to ones that are not in use. */
    method RemapRefs(ids: IdMap)
      requires Valid(refs) && Fresh(ids, refs.Keys)
      modifies this
      ensures Valid(refs) && GraphRenamed(ids, old(refs), refs)
    {
      ghost var g := refs;
      var todo := refs.Keys;
      while todo != {}
        invariant todo <= g.Keys && Remapping(ids, g, todo, refs)
      {
        var r :| r in todo;
        FreshForRef(ids, g, r);
        var borrowedBy := RemapKeys(refs[r].borrowedBy, ids);
        var borrowsFrom := RemapSet(refs[r].borrowsFrom, ids);
        refs := refs[r := Ref(borrowedBy, borrowsFrom, refs[r].isMutable)];
        todo := todo - {r};
      }
      refs := RemapKeys(refs, ids);
      RenamedValid(ids, g, refs);
    }

    /** Carries out one call, if it is allowed. */
    method Apply(op: Operation)
      requires Valid(refs)
      modifies this
      ensures Valid(refs) && Effect(old(refs), op, refs)
      decreases op
    {
      if !Allowed(refs, op) {
        return;
      }
      match op {
        case MakeRef(id, isMutable) => NewRef(id, isMutable);
        case StrongBorrow(parent, child) => AddStrongBorrow(parent, child);
        case StrongFieldBorrow(parent, field, child) => AddStrongFieldBorrow(parent, field, child);
        case WeakBorrow(parent, path, child) => AddWeakBorrow(parent, path, child);
        case Drop(id) => Release(id);
        case Remap(ids) => RemapRefs(ids);
        case JoinWith(ops) => {
          var other := new BorrowGraph();
          other.Run(ops);
          assert Reaches(map[], ops, |ops|, other.refs);
          if other.refs.Keys == refs.Keys {
            var joined := Join(other);
            refs := joined.refs;
          }
        }
      }
    }

    /**
     Whatever sequence of allowed calls is made, the graph keeps the invariant it checks and all edge sets in order.
     */
    method Run(ops: seq<Operation>)
      requires Valid(refs)
      modifies this
      ensures Valid(refs) && CheckInvariant(refs) && SetsOk(refs)
      ensures Reaches(old(refs), ops, |ops|, refs)
      decreases ops
    {
      for i := 0 to |ops|
        invariant Valid(refs) && Reaches(old(refs), ops, i, refs)
      {
        ghost var m := refs;
        Apply(ops[i]);
        ReachesNext(old(refs), ops, i, m, refs);
      }
      ValidIff(refs);
    }

    method SpliceOutIntermediate(parent: RefId, parentEdge: BorrowEdge, child: RefId, childEdge: BorrowEdge)
      requires parent in refs && child in refs
      modifies this
      ensures refs == AfterSplice(old(refs), parent, (parentEdge, child, childEdge))
    {
      if parent == child {
        return;
      }
      AddEdge(parent, Compose(parentEdge, childEdge), child);
    }

    /** Carries out the given splices of a parent. */
    method SpliceAll(
      id: RefId, parent: RefId, splices: set<Splice>, ghost g: Graph, ghost todo: set<RefId>,
      ghost children: set<RefId>)
      requires Valid(g) && Dangling(g, refs, id, todo, children)
      requires Splicing(g, id, todo, parent, {}, Mask(refs, id))
      requires parent in refs && forall t | t in splices :: t.1 in refs
      modifies this
      ensures Dangling(g, refs, id, todo, children)
      ensures Splicing(g, id, todo, parent, splices, Mask(refs, id))
    {
      var work := splices;
      ghost var done: set<Splice> := {};
      while work != {}
        invariant done + work == splices && refs.Keys == old(refs).Keys
        invariant Dangling(g, refs, id, todo, children)
        invariant Splicing(g, id, todo, parent, done, Mask(refs, id))
      {
        var t :| t in work;
        SpliceStep(g, refs, id, todo, children, parent, done, t);
        SpliceOutIntermediate(parent, t.0, t.1, t.2);
        work, done := work - {t}, done + {t};
      }
      assert done == splices;
    }

    /** Takes the edges from a parent to `id` out, and splices them with all edges from `id`. */
    method ReleaseFrom(id: RefId, parent: RefId, borrowedBy: map<RefId, BorrowEdgeSet>, ghost g: Graph,
                       ghost todo: set<RefId>)
      requires Valid(g) && id in g && borrowedBy == g[id].borrowedBy
      requires Dangling(g, refs, id, todo, borrowedBy.Keys) && parent in todo && parent in refs
      requires Splicing(g, id, todo, id, {}, Mask(refs, id))
      modifies this
      ensures Dangling(g, refs, id, todo - {parent}, borrowedBy.Keys)
      ensures Splicing(g, id, todo - {parent}, id, {}, Mask(refs, id))
    {
      var parentEdges := refs[parent].borrowedBy[id].edges;
      DanglingParent(g, refs, id, todo, borrowedBy.Keys, parent);
      refs := refs[parent := refs[parent].(borrowedBy := refs[parent].borrowedBy - {id})];
      SplicingParent(g, id, todo, parent, Mask(refs, id));
      forall c | c in borrowedBy ensures c in refs {
        assert PairOk(g, id, c);
      }
      SpliceAll(id, parent, Splices(parentEdges, borrowedBy), g, todo - {parent}, borrowedBy.Keys);
      SplicingParentDone(g, id, todo - {parent}, parent, Mask(refs, id));
    }

    /** Removes a reference and connects its parents to its children. */
    method Release(id: RefId)
      requires Valid(refs) && id in refs
      modifies this
      ensures ReleaseOf(old(refs), id, refs)
    {
      ghost var g := refs;
      var borrowedBy, borrowsFrom := refs[id].borrowedBy, refs[id].borrowsFrom;
      DanglingStart(g, id);
      SplicingStart(g, id, Mask(g, id));
      refs := refs - {id};
      var parents := borrowsFrom;
      while parents != {}
        invariant parents <= borrowsFrom
        invariant Dangling(g, refs, id, parents, borrowedBy.Keys)
        invariant Splicing(g, id, parents, id, {}, Mask(refs, id))
      {
        var parent :| parent in parents;
        assert PairOk(g, parent, id);
        ReleaseFrom(id, parent, borrowedBy, g, parents);
        parents := parents - {parent};
      }
      SplicingEnd(g, id, Mask(refs, id));
      ghost var m := Mask(refs, id);
      var children := borrowedBy.Keys;
      while children != {}
        invariant children <= borrowedBy.Keys
        invariant Dangling(g, refs, id, {}, children) && Mask(refs, id) == m
      {
        var child :| child in children;
        assert PairOk(g, id, child);
        DanglingChild(g, refs, id, {}, children, child);
        refs := refs[child := refs[child].(borrowsFrom := refs[child].borrowsFrom - {id})];
        children := children - {child};
      }
      Unmasked(refs, id);
    }
  }

  /** A graph that does not mention `id` is its own mask. */
  lemma Unmasked(g: Graph, id: RefId)
    requires id !in g && forall r | r in g :: id !in g[r].borrowedBy && id !in g[r].borrowsFrom
    ensures Mask(g, id) == g
  {
    forall r | r in g ensures Mask(g, id)[r] == g[r] {
      assert g[r].borrowedBy - {id} == g[r].borrowedBy;
    }
  }
}
