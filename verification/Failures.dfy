// Where the code fails: for each condition that a theorem makes exact, an
// input that the code can receive and that does not meet it.
module Failures {
  import opened Util
  import opened Dag
  import opened Join
  import opened EcDag
  import opened Tasks
  import opened Sites
  import Traffic = StripeTraffic
  import ClayIndex
  import ClayEncode
  import Codec
  import Curve

  // ---------------------------------------------------- a value used twice

  const ROOT := RootOf(2)

  predicate Among(v: int) { v == 0 || v == 1 || v == 2 || v == ROOT }

  // Leaf 0 on node 5; on node 6, vertex 1 is made of 0, and the lost
  // sub-packet 2 of 0 and 1: node 6 needs leaf 0 on two levels.
  function Twice(): Job {
    var g: Graph := map[0 := Vertex([], [], [1, 2]), 1 := Vertex([0], [1], [2]), 2 := Vertex([0, 1], [1, 1], [ROOT]),
                        ROOT := Vertex([2], [-1], [])];
    Job(g, map[0 := 5, 1 := 6, 2 := 6, ROOT := 6], [[0], [1], [2], [ROOT]], 3, 1)
  }

  function TwiceLevel(): map<int, nat> { map[0 := 0, 1 := 1, 2 := 2, ROOT := 3] }

  lemma TwiceLinked()
    ensures Linked(Twice().g)
  {
    var g := Twice().g;
    assert forall v :: v in g <==> Among(v);
    forall v, c | v in g && c in g[v].children ensures c in g { TwiceNeighbors(v, c); }
    forall c, v | c in g && v in g[c].parents ensures v in g { TwiceNeighbors(c, v); }
    forall c, v | c in g && v in g ensures Count(g[c].parents, v) == Count(g[v].children, c) { TwiceEdge(c, v); }
  }

  lemma TwiceNeighbors(v: int, u: int)
    requires v in Twice().g
    ensures u in Twice().g[v].children || u in Twice().g[v].parents ==> Among(u)
  {
    assert Among(v);
  }

  lemma Entries(x: int, y: int, v: int)
    ensures Count([], v) == 0
    ensures Count([x], v) == if v == x then 1 else 0
    ensures x != y ==> Count([x, y], v) == if v == x || v == y then 1 else 0
  {
    assert [x, y] == [x] + [y];
  }

  lemma TwiceEdge(c: int, v: int)
    requires c in Twice().g && v in Twice().g
    ensures Count(Twice().g[c].parents, v) == Count(Twice().g[v].children, c)
  {
    assert Among(c) && Among(v);
    Entries(1, 2, v);
    Entries(2, 1, v);
    Entries(ROOT, 2, v);
    Entries(0, 1, c);
    Entries(1, 0, c);
    Entries(2, 0, c);
  }

  lemma TwiceLeveled()
    ensures Leveling(Twice().g, Twice().levels, TwiceLevel())
  {
    var j, level := Twice(), TwiceLevel();
    assert level.Keys == j.g.Keys;
    forall v | v in j.g ensures OneAbove(j.g, level, v) {
      assert Among(v);
      if v == 1 { assert 0 in j.g[1].children; }
      if v == 2 { assert 1 in j.g[2].children; }
      if v == ROOT { assert 2 in j.g[ROOT].children; }
    }
    TwiceLists();
  }

  lemma TwiceLists()
    ensures Lists(Twice().levels, TwiceLevel())
  {
    var levels, level := Twice().levels, TwiceLevel();
    forall l, v | 0 <= l < |levels| && v in levels[l] ensures v in level && level[v] == l { TwiceAt(l, v); }
    forall v | v in level ensures level[v] < |levels| && v in levels[level[v]] { TwiceUnder(v); }
  }

  lemma TwiceAt(l: nat, v: int)
    requires l < 4 && v in Twice().levels[l]
    ensures v in TwiceLevel() && TwiceLevel()[v] == l
  {
    if l == 0 { assert v == 0; } else if l == 1 { assert v == 1; } else if l == 2 { assert v == 2; } else { assert v == ROOT; }
  }

  lemma TwiceUnder(v: int)
    requires v in TwiceLevel()
    ensures TwiceLevel()[v] < 4 && v in Twice().levels[TwiceLevel()[v]]
  {
    assert Among(v);
  }

  lemma TwiceClosed()
    ensures Closed(Twice())
  {
    var j := Twice();
    TwiceLinked();
    forall l, i | 0 <= l < |j.levels| && 0 <= i < |j.levels[l]| ensures j.levels[l][i] in j.g {
      TwiceAt(l, j.levels[l][i]);
    }
  }

  lemma TwiceVertex(v: int)
    requires v in Twice().g
    ensures Closed(Twice()) && TwiceLevel().Keys == Twice().g.Keys && VertexOk(Twice(), TwiceLevel(), v)
  {
    TwiceClosed();
    assert Among(v);
  }

  lemma TwiceCompiles()
    ensures Compilable(Twice(), TwiceLevel())
  {
    var j, level := Twice(), TwiceLevel();
    TwiceClosed();
    TwiceLeveled();
    forall v | v in j.g ensures VertexOk(j, level, v) { TwiceVertex(v); }
    forall v | v in j.g && level[v] == 0 ensures v == 0 { assert Among(v); }
  }

  // A repair that compiles and that no run completes.
  lemma SomeRepairIsStuck()
    ensures exists j, level, v, a, b :: Compilable(j, level) && v in j.g && UsersMeet(j, v, a, b) && TwoUses(j, level, a, b)
  {
    TwiceCompiles();
    var j, level := Twice(), TwiceLevel();
    assert UsersMeet(j, 0, 1, 2) && TwoUses(j, level, 1, 2);
  }

  // ------------------------------------------- roots on different levels

  const ROOT1 := RootOf(1)

  predicate InLate(v: int) { v == 0 || v == 1 || v == 2 || v == ROOT1 || v == ROOT }

  // Two lost blocks: sub-packet 1 is made of leaf 0, sub-packet 2 of
  // sub-packet 1, each on a node of its own. The root of block 1 is one level
  // lower than that of block 2.
  function Late(): Job {
    var g: Graph := map[0 := Vertex([], [], [1]), 1 := Vertex([0], [1], [2, ROOT1]), 2 := Vertex([1], [1], [ROOT]),
                        ROOT1 := Vertex([1], [-1], []), ROOT := Vertex([2], [-1], [])];
    Job(g, map[0 := 5, 1 := 6, 2 := 7, ROOT1 := 6, ROOT := 7], [[0], [1], [2, ROOT1], [ROOT]], 3, 1)
  }

  function LateLevel(): map<int, nat> { map[0 := 0, 1 := 1, 2 := 2, ROOT1 := 2, ROOT := 3] }

  lemma LateNeighbors(v: int, u: int)
    requires v in Late().g
    ensures u in Late().g[v].children || u in Late().g[v].parents ==> InLate(u)
  {
    assert InLate(v);
  }

  lemma LateEdge(c: int, v: int)
    requires c in Late().g && v in Late().g
    ensures Count(Late().g[c].parents, v) == Count(Late().g[v].children, c)
  {
    assert InLate(c) && InLate(v);
    Entries(1, 2, v);
    Entries(2, ROOT1, v);
    Entries(ROOT, 2, v);
    Entries(0, 1, c);
    Entries(1, 0, c);
    Entries(2, 0, c);
  }

  lemma LateLinked()
    ensures Linked(Late().g)
  {
    var g := Late().g;
    assert forall v :: v in g <==> InLate(v);
    forall v, c | v in g && c in g[v].children ensures c in g { LateNeighbors(v, c); }
    forall c, v | c in g && v in g[c].parents ensures v in g { LateNeighbors(c, v); }
    forall c, v | c in g && v in g ensures Count(g[c].parents, v) == Count(g[v].children, c) { LateEdge(c, v); }
  }

  lemma LateAt(l: nat, v: int)
    requires l < 4 && v in Late().levels[l]
    ensures v in LateLevel() && LateLevel()[v] == l
  {
    if l == 0 { assert v == 0; } else if l == 1 { assert v == 1; } else if l == 2 { assert v == 2 || v == ROOT1; } else { assert v == ROOT; }
  }

  lemma LateUnder(v: int)
    requires v in LateLevel()
    ensures LateLevel()[v] < 4 && v in Late().levels[LateLevel()[v]]
  {
    assert InLate(v);
  }

  lemma LateLeveled()
    ensures Leveling(Late().g, Late().levels, LateLevel())
  {
    var j, level := Late(), LateLevel();
    assert level.Keys == j.g.Keys;
    forall v | v in j.g ensures OneAbove(j.g, level, v) { LateAbove(v); }
    LateLists();
  }

  lemma LateAbove(v: int)
    requires v in Late().g
    ensures v in LateLevel() && OneAbove(Late().g, LateLevel(), v)
  {
    var g := Late().g;
    assert InLate(v);
    if v == 1 { assert 0 in g[1].children; }
    if v == 2 { assert 1 in g[2].children; }
    if v == ROOT1 { assert 1 in g[ROOT1].children; }
    if v == ROOT { assert 2 in g[ROOT].children; }
  }

  lemma LateLists()
    ensures Lists(Late().levels, LateLevel())
  {
    var levels, level := Late().levels, LateLevel();
    forall l, v | 0 <= l < |levels| && v in levels[l] ensures v in level && level[v] == l { LateAt(l, v); }
    forall v | v in level ensures level[v] < |levels| && v in levels[level[v]] { LateUnder(v); }
  }

  lemma LateClosed()
    ensures Closed(Late())
  {
    var j := Late();
    LateLinked();
    forall l, i | 0 <= l < |j.levels| && 0 <= i < |j.levels[l]| ensures j.levels[l][i] in j.g {
      LateAt(l, j.levels[l][i]);
    }
  }

  lemma LateVertex(v: int)
    requires v in Late().g
    ensures Closed(Late()) && LateLevel().Keys == Late().g.Keys && VertexOk(Late(), LateLevel(), v)
  {
    LateClosed();
    assert InLate(v);
  }

  lemma LateShares(v: int, a: int, b: int)
    requires Closed(Late()) && v in Late().g && UsersMeet(Late(), v, a, b)
    ensures a == b
  {
    assert InLate(a) && InLate(b) && InLate(v);
  }

  lemma LateIsPlanned()
    ensures Planned(Late(), LateLevel())
  {
    var j, level := Late(), LateLevel();
    LateClosed();
    LateLeveled();
    forall v | v in j.g ensures VertexOk(j, level, v) { LateVertex(v); }
    forall v | v in j.g && level[v] == 0 ensures v == 0 { assert InLate(v); }
    forall v, a, b | v in j.g && UsersMeet(j, v, a, b) ensures !TwoUses(j, level, a, b) { LateShares(v, a, b); }
  }

  // A repair of two blocks whose runs complete and never write one of them.
  lemma SomeBlockIsNotWritten()
    ensures exists j, level, b :: Planned(j, level) && RootOf(b) in j.g && level[RootOf(b)] != Top(j)
  {
    LateIsPlanned();
    var j, level := Late(), LateLevel();
    assert RootOf(1) in j.g && level[RootOf(1)] != Top(j);
  }

  // ------------------------------------------------------ a change of colour

  // Vertex 1 on node 6 over leaf 0 on node 5; vertex 1 is recoloured with the
  // node it is on.
  ghost predicate OneEdge(g: Graph, col: map<int, int>) {
    && (forall v :: v in g <==> v == 0 || v == 1) && 0 in col && 1 in col && col[0] == 5 && col[1] == 6
    && g[0] == Vertex([], [], [1]) && g[1] == Vertex([0], [1], [])
  }

  lemma OneEdgePainted(g: Graph, col: map<int, int>)
    requires OneEdge(g, col)
    ensures Traffic.Painted(g, col)
  {
    OneEdgeLinked(g, col);
  }

  lemma OneEdgeLinked(g: Graph, col: map<int, int>)
    requires OneEdge(g, col)
    ensures Linked(g)
  {
    forall c, v | c in g && v in g ensures Count(g[c].parents, v) == Count(g[v].children, c) { OneEdgeCount(g, col, c, v); }
  }

  lemma OneEdgeCount(g: Graph, col: map<int, int>, c: int, v: int)
    requires OneEdge(g, col) && c in g && v in g
    ensures Count(g[c].parents, v) == Count(g[v].children, c)
  {
    Entries(1, 2, v);
    Entries(0, 2, c);
  }

  lemma OneEdgeInexact(g: Graph, col: map<int, int>)
    requires OneEdge(g, col)
    ensures Traffic.Painted(g, col) && !Traffic.Exact(g, col, 1, 6)
  {
    OneEdgePainted(g, col);
    Traffic.ParentsPainted(g, col, 0);
    assert Traffic.ParentColors(g, col, 0) == [6];
    assert 0 in g[1].children && Traffic.UsesOn(g, col, 0, 6) == 1;
  }

  lemma SomeChangeMiscounts()
    ensures exists g, col, idx, new_ :: Traffic.Painted(g, col) && idx in g && !Traffic.Exact(g, col, idx, new_)
  {
    var g: Graph := map[0 := Vertex([], [], [1]), 1 := Vertex([0], [1], [])];
    var col: map<int, int> := map[0 := 5, 1 := 6];
    assert OneEdge(g, col);
    OneEdgeInexact(g, col);
  }

  // ------------------------------------------------------ encoding, commands

  // n = 14, k = 10, d = 12.
  lemma SomeGroupIsSplit()
    ensures exists g :: ClayIndex.GeoOk(g) && !ClayEncode.Whole(g)
  {
    assert !ClayEncode.Whole(ClayIndex.Geo(14, 10, 3, 5, 1));
  }

  // A name with a zero octet in it.
  lemma SomeCommandIsCut()
    ensures exists c :: Codec.Sendable(c) && Codec.Received(c) != c
  {
    var c := Codec.PersistCmd([], [65, 0, 66]);
    Codec.ArrivesIntact(c);
    assert Codec.Sendable(c) && Codec.Received(c) != c;
  }

  // ------------------------------------------------------ the trade-off curve

  // A list of one entry, and another solution with its load and bandwidth.
  method SomeUpdateTies() returns (c: seq<Curve.Solution>, sol: Curve.Solution)
    ensures Curve.Strict(c) && sol !in c && Curve.Fits(c, sol, 1, 1, |c|) && Curve.Tie(c, sol)
    ensures !Curve.Strict(Curve.With(c, 1, sol, 1))
  {
    var a := new Curve.Solution([0], 3, 7);
    sol := new Curve.Solution([1], 3, 7);
    c := [a];
    Curve.UpdateIsFront(c, sol, 1, 1);
  }
}
