/** Renaming the references of a borrow graph. */
module BorrowRemap {
  import opened Paths
  import opened BorrowEdges
  import opened BorrowMeaning

  type IdMap = map<RefId, RefId>

  function Rename(ids: IdMap, r: RefId): RefId {
    if r in ids then ids[r] else r
  }

  /** The targets are distinct, and neither in use nor renamed themselves. */
  predicate Fresh(ids: IdMap, used: set<RefId>) {
    && (forall o {:trigger ids[o]} | o in ids :: ids[o] !in used && ids[o] !in ids)
    && forall o, o' {:trigger ids[o], ids[o']} | o in ids && o' in ids && ids[o] == ids[o'] :: o == o'
  }

  /** Renaming keeps apart what is in use. */
  lemma RenameInjective(ids: IdMap, used: set<RefId>, x: RefId, y: RefId)
    requires Fresh(ids, used) && x in used && y in used && Rename(ids, x) == Rename(ids, y)
    ensures x == y
  {
  }

  ghost function Targets(ids: IdMap, s: set<RefId>): set<RefId> {
    set x | x in s && x in ids :: ids[x]
  }

  /** The set after the given sources were renamed. */
  ghost function Partly(ids: IdMap, done: set<RefId>, s: set<RefId>): set<RefId> {
    (s - done) + Targets(ids, s * done)
  }

  lemma TargetsMore(ids: IdMap, s: set<RefId>, o: RefId)
    requires o in ids
    ensures Targets(ids, s + {o}) == Targets(ids, s) + {ids[o]}
  {
    assert o in s + {o};
    forall y | y in Targets(ids, s) ensures y in Targets(ids, s + {o}) {
      var x :| x in s && x in ids && ids[x] == y;
      assert x in s + {o};
    }
  }

  lemma PartlyStep(ids: IdMap, done: set<RefId>, s: set<RefId>, o: RefId)
    requires Fresh(ids, s) && o in ids && o !in done
    ensures var t := Partly(ids, done, s);
            && (o in t <==> o in s)
            && Partly(ids, done + {o}, s) == if o in t then t - {o} + {ids[o]} else t
  {
    assert o !in Targets(ids, s * done);
    if o in s {
      TargetsMore(ids, s * done, o);
      assert s * (done + {o}) == s * done + {o};
    } else {
      assert s * (done + {o}) == s * done;
    }
  }

  lemma PartlyAll(ids: IdMap, s: set<RefId>)
    ensures Partly(ids, ids.Keys, s) == set x | x in s :: Rename(ids, x)
  {
    forall y | y in Partly(ids, ids.Keys, s) ensures exists x :: x in s && Rename(ids, x) == y {
      if y in s - ids.Keys {
        assert Rename(ids, y) == y;
      } else {
        var x :| x in s * ids.Keys && x in ids && ids[x] == y;
        assert Rename(ids, x) == y;
      }
    }
    forall x | x in s ensures Rename(ids, x) in Partly(ids, ids.Keys, s) {
      if x in ids {
        assert x in s * ids.Keys;
      }
    }
  }

  /** Renames the members of a set, one source after the other. */
  method RemapSet(s: set<RefId>, ids: IdMap) returns (r: set<RefId>)
    requires Fresh(ids, s)
    ensures r == set x | x in s :: Rename(ids, x)
  {
    r := s;
    var work := ids.Keys;
    ghost var done: set<RefId> := {};
    assert r == Partly(ids, done, s);
    while work != {}
      invariant work <= ids.Keys && done == ids.Keys - work
      invariant r == Partly(ids, done, s)
    {
      var o :| o in work;
      PartlyStep(ids, done, s, o);
      if o in r {
        r := r - {o} + {ids[o]};
      }
      work := work - {o};
      done := done + {o};
    }
    assert done == ids.Keys;
    PartlyAll(ids, s);
  }

  /** `m'` is `m` with the given sources renamed. */
  ghost predicate MapPartly<X(!new)>(ids: IdMap, done: set<RefId>, m: map<RefId, X>, m': map<RefId, X>) {
    && m'.Keys == Partly(ids, done, m.Keys)
    && (forall x | x in m && x !in done :: x in m' && m'[x] == m[x])
    && forall x | x in m && x in done && x in ids :: ids[x] in m' && m'[ids[x]] == m[x]
  }

  lemma MapPartlyStep<X(!new)>(ids: IdMap, done: set<RefId>, m: map<RefId, X>, m': map<RefId, X>, o: RefId)
    requires Fresh(ids, m.Keys) && MapPartly(ids, done, m, m') && o in ids && o !in done
    ensures MapPartly(ids, done + {o}, m, if o in m' then (m' - {o})[ids[o] := m'[o]] else m')
  {
    PartlyStep(ids, done, m.Keys, o);
    var m'' := if o in m' then (m' - {o})[ids[o] := m'[o]] else m';
    assert m''.Keys == if o in m'.Keys then m'.Keys - {o} + {ids[o]} else m'.Keys;
  }

  /** The renamed map: every key renamed, with its value. */
  ghost predicate Renamed<X(!new)>(ids: IdMap, m: map<RefId, X>, m': map<RefId, X>) {
    && m'.Keys == (set x | x in m.Keys :: Rename(ids, x))
    && forall x | x in m :: Rename(ids, x) in m' && m'[Rename(ids, x)] == m[x]
  }

  /** Renames the keys of a map, one source after the other. */
  method RemapKeys<X(!new)>(m: map<RefId, X>, ids: IdMap) returns (r: map<RefId, X>)
    requires Fresh(ids, m.Keys)
    ensures Renamed(ids, m, r)
  {
    r := m;
    var work := ids.Keys;
    ghost var done: set<RefId> := {};
    assert r.Keys == Partly(ids, done, m.Keys);
    while work != {}
      invariant work <= ids.Keys && done == ids.Keys - work
      invariant MapPartly(ids, done, m, r)
    {
      var o :| o in work;
      MapPartlyStep(ids, done, m, r, o);
      if o in r {
        r := (r - {o})[ids[o] := r[o]];
      }
      work := work - {o};
      done := done + {o};
    }
    assert done == ids.Keys;
    PartlyAll(ids, m.Keys);
  }

  /** `r'` is `r` with all the references it mentions renamed. */
  ghost predicate RefRenamed(ids: IdMap, r: Ref, r': Ref) {
    && Renamed(ids, r.borrowedBy, r'.borrowedBy)
    && r'.borrowsFrom == (set x | x in r.borrowsFrom :: Rename(ids, x))
    && r'.isMutable == r.isMutable
  }

  /** `g'` is `g` with all references renamed. */
  ghost predicate GraphRenamed(ids: IdMap, g: Graph, g': Graph) {
    && g'.Keys == (set r | r in g.Keys :: Rename(ids, r))
    && forall r | r in g :: Rename(ids, r) in g' && RefRenamed(ids, g[r], g'[Rename(ids, r)])
  }

  /** Every edge is where renaming says it is. */
  lemma RenamedEdges(ids: IdMap, g: Graph, g': Graph, p: RefId, c: RefId)
    requires Valid(g) && Fresh(ids, g.Keys) && GraphRenamed(ids, g, g') && p in g && c in g
    ensures EdgesAt(g', Rename(ids, p), Rename(ids, c)) == EdgesAt(g, p, c)
    ensures Rename(ids, c) in g'[Rename(ids, p)].borrowedBy <==> c in g[p].borrowedBy
    ensures Rename(ids, p) in g'[Rename(ids, c)].borrowsFrom <==> p in g[c].borrowsFrom
  {
    var b, b' := g[p].borrowedBy, g'[Rename(ids, p)].borrowedBy;
    assert RefRenamed(ids, g[p], g'[Rename(ids, p)]) && RefRenamed(ids, g[c], g'[Rename(ids, c)]);
    if Rename(ids, c) in b' {
      var x :| x in b && Rename(ids, x) == Rename(ids, c);
      assert PairOk(g, p, x);
      RenameInjective(ids, g.Keys, x, c);
    }
    if Rename(ids, p) in g'[Rename(ids, c)].borrowsFrom {
      var x :| x in g[c].borrowsFrom && Rename(ids, x) == Rename(ids, p);
      assert PairOk(g, x, c);
      RenameInjective(ids, g.Keys, x, p);
    }
  }

  lemma RenamedBack(ids: IdMap, g: Graph, g': Graph, r': RefId) returns (r: RefId)
    requires GraphRenamed(ids, g, g') && r' in g'
    ensures r in g && Rename(ids, r) == r'
  {
    r :| r in g && Rename(ids, r) == r';
  }

  lemma RenamedPair(ids: IdMap, g: Graph, g': Graph, p: RefId, c: RefId)
    requires Valid(g) && Fresh(ids, g.Keys) && GraphRenamed(ids, g, g') && p in g && c in g
    ensures PairOk(g', Rename(ids, p), Rename(ids, c))
  {
    assert PairOk(g, p, c);
    RenamedEdges(ids, g, g', p, c);
    if Rename(ids, p) == Rename(ids, c) {
      RenameInjective(ids, g.Keys, p, c);
    }
  }

  /** Renaming keeps the graph's invariant. */
  lemma RenamedValid(ids: IdMap, g: Graph, g': Graph)
    requires Valid(g) && Fresh(ids, g.Keys) && GraphRenamed(ids, g, g')
    ensures Valid(g')
  {
    forall p', c' ensures PairOk(g', p', c') {
      if p' in g' && c' in g' {
        var p := RenamedBack(ids, g, g', p');
        var c := RenamedBack(ids, g, g', c');
        RenamedPair(ids, g, g', p, c);
      } else if p' in g' {
        var p := RenamedBack(ids, g, g', p');
        NoneAdded(ids, g, g', p, c');
      } else if c' in g' {
        var c := RenamedBack(ids, g, g', c');
        NoneAdded(ids, g, g', c, p');
      }
    }
  }

  /** No renamed reference mentions one that is not in the graph. */
  lemma NoneAdded(ids: IdMap, g: Graph, g': Graph, r: RefId, x': RefId)
    requires Valid(g) && GraphRenamed(ids, g, g') && r in g && x' !in g'
    ensures x' !in g'[Rename(ids, r)].borrowedBy && x' !in g'[Rename(ids, r)].borrowsFrom
  {
    ValidConsistent(g);
    assert RefRenamed(ids, g[r], g'[Rename(ids, r)]);
  }

  lemma {:induction false} WalkRenamed(ids: IdMap, g: Graph, g': Graph, a: RefId, walk: seq<Step>, b: RefId)
    requires Valid(g) && Fresh(ids, g.Keys) && GraphRenamed(ids, g, g') && a in g && Walk(g, a, walk, b)
    ensures Derives(g', Rename(ids, a), Rename(ids, b), PathOf(walk))
    decreases |walk|
  {
    if walk == [] {
      DerivesSelf(g', Rename(ids, a));
    } else {
      var c := walk[0].to;
      assert PairOk(g, a, c);
      RenamedEdges(ids, g, g', a, c);
      WalkRenamed(ids, g, g', c, walk[1..], b);
      DerivesEdge(g', Rename(ids, a), walk[0].edge, Rename(ids, c), walk[0].via);
      DerivesTransitive(g', Rename(ids, a), Rename(ids, c), Rename(ids, b), walk[0].via, PathOf(walk[1..]));
    }
  }

  lemma {:induction false} WalkRestored(ids: IdMap, g: Graph, g': Graph, a: RefId, walk: seq<Step>, b: RefId)
    requires Valid(g) && Fresh(ids, g.Keys) && GraphRenamed(ids, g, g') && a in g && b in g
    requires Walk(g', Rename(ids, a), walk, Rename(ids, b))
    ensures Derives(g, a, b, PathOf(walk))
    decreases |walk|
  {
    if walk == [] {
      RenameInjective(ids, g.Keys, a, b);
      DerivesSelf(g, a);
    } else {
      assert RefRenamed(ids, g[a], g'[Rename(ids, a)]);
      var c :| c in g[a].borrowedBy && Rename(ids, c) == walk[0].to;
      assert PairOk(g, a, c);
      RenamedEdges(ids, g, g', a, c);
      WalkRestored(ids, g, g', c, walk[1..], b);
      DerivesEdge(g, a, walk[0].edge, c, walk[0].via);
      DerivesTransitive(g, a, c, b, walk[0].via, PathOf(walk[1..]));
    }
  }

  /** Renaming changes no alias. */
  lemma RenamedMeaning(ids: IdMap, g: Graph, g': Graph, a: RefId, b: RefId, p: Path)
    requires Valid(g) && Fresh(ids, g.Keys) && GraphRenamed(ids, g, g') && a in g && b in g
    ensures Derives(g', Rename(ids, a), Rename(ids, b), p) <==> Derives(g, a, b, p)
  {
    if Derives(g, a, b, p) {
      var walk :| Walk(g, a, walk, b) && PathOf(walk) == p;
      WalkRenamed(ids, g, g', a, walk, b);
    }
    if Derives(g', Rename(ids, a), Rename(ids, b), p) {
      var walk :| Walk(g', Rename(ids, a), walk, Rename(ids, b)) && PathOf(walk) == p;
      WalkRestored(ids, g, g', a, walk, b);
    }
  }
}
