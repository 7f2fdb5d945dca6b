/** Borrow graphs over the same references as the domain of an analysis. */
module BorrowDomain {
  import opened AbstractInterpreter
  import opened BorrowEdges
  import opened BorrowGraphs
  import opened BorrowMeaning
  import opened BorrowOperations

  /** The graphs over the given references. */
  ghost function Over(keys: set<RefId>): Graph -> bool {
    (g: Graph) => Valid(g) && g.Keys == keys
  }

  /** The second graph covers the first. */
  ghost function CoveredBy(): (Graph, Graph) -> bool {
    (g: Graph, other: Graph) => GraphLeq(other, g)
  }

  /** How often a graph can still change. */
  ghost function Slack(keys: set<RefId>): Graph -> nat {
    (g: Graph) =>
      var bound := (MAX_EDGE_SET_SIZE + 1) * |Pairs(keys)|;
      if Total(g, Pairs(keys)) <= bound then bound - Total(g, Pairs(keys)) else 0
  }

  // ---------------------------------------------------------------------------------------------
  // Joins exist
  // ---------------------------------------------------------------------------------------------

  lemma {:induction false} EdgesCanBeAdded(g: Graph, edges: set<Triple>) returns (j: Graph)
    requires Valid(g) && forall t | t in edges :: t.0 in g && t.1 in g && t.0 != t.1
    ensures Joining(g, edges, j)
    decreases edges
  {
    if edges == {} {
      JoiningStart(g);
      j := g;
    } else {
      var t :| t in edges;
      var before := EdgesCanBeAdded(g, edges - {t});
      JoiningStep(g, edges - {t}, before, t);
      assert edges - {t} + {t} == edges;
      j := WithEdge(before, t.0, t.2, t.1);
    }
  }

  lemma JoinExists(g: Graph, other: Graph)
    requires Valid(g) && Valid(other) && other.Keys == g.Keys
    ensures exists j :: JoinOf(g, other, j)
  {
    var edges := UnmatchedOf(g, EdgeTriples(other));
    forall t | t in edges ensures t.0 in g && t.1 in g && t.0 != t.1 {
      EntryIff(other, t.0, t.1);
    }
    var j := EdgesCanBeAdded(g, edges);
    JoiningEnd(g, other, j);
  }

  ghost function Joined(g: Graph, other: Graph): (j: Graph)
    requires Valid(g) && Valid(other) && other.Keys == g.Keys
    ensures JoinOf(g, other, j)
  {
    JoinExists(g, other);
    var j :| JoinOf(g, other, j);
    j
  }

  /** The join of graphs over the same references, and whether it changed the first. */
  ghost function JoinGraphs(): Join<Graph> {
    (g: Graph, other: Graph) =>
      if Valid(g) && Valid(other) && other.Keys == g.Keys then
        (Joined(g, other), if Joined(g, other) == g then Unchanged else Changed)
      else (g, Unchanged)
  }

  // ---------------------------------------------------------------------------------------------
  // The domain
  // ---------------------------------------------------------------------------------------------

  lemma JoinIsOk(keys: set<RefId>, g: Graph, other: Graph)
    requires Over(keys)(g) && Over(keys)(other)
    ensures JoinOk(Over(keys), JoinGraphs(), CoveredBy(), Slack(keys), g, other)
  {
    var j := Joined(g, other);
    JoinIsUpperBound(g, other, j);
    JoinRaises(g, other, j);
    TotalBounded(g, Pairs(keys));
    TotalBounded(j, Pairs(keys));
  }

  /** Borrow graphs over the same references are a domain of finite height, so that every analysis with them ends. */
  lemma GraphsHaveFiniteHeight(keys: set<RefId>)
    ensures AbstractInterpreter.FiniteHeight(Over(keys), JoinGraphs(), CoveredBy(), Slack(keys))
  {
    forall g ensures CoveredBy()(g, g) {
      GraphLeqReflexive(g);
    }
    forall g, h, k | CoveredBy()(g, h) && CoveredBy()(h, k) ensures CoveredBy()(g, k) {
      GraphLeqTransitive(k, h, g);
    }
    forall g, other | Over(keys)(g) && Over(keys)(other)
      ensures JoinOk(Over(keys), JoinGraphs(), CoveredBy(), Slack(keys), g, other)
    {
      JoinIsOk(keys, g, other);
    }
  }
}
