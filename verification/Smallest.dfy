// The smallest repair: block 1 is a copy of block 0.  It meets every condition
// that the theorems about compiled repairs ask for, so they are not empty.
module Smallest {
  import opened Util
  import opened Dag
  import opened EcDag
  import opened Tasks
  import opened Programs
  import opened Sites

  // The root of block 1.
  const ROOT := RootOf(1)

  predicate Among(v: int) { v == 0 || v == 1 || v == ROOT }

  // Leaf 0 on node 5; the lost sub-packet 1 and its root on node 6.
  ghost predicate Copies(j: Job, level: map<int, nat>) {
    && j.n == 2 && j.w == 1 && j.levels == [[0], [1], [ROOT]]
    && CopyGraph(j.g) && (forall v :: v in j.col <==> Among(v)) && (forall v :: v in level <==> Among(v)) && level.Keys == j.g.Keys
    && j.col[0] == 5 && j.col[1] == 6 && j.col[ROOT] == 6
    && level[0] == 0 && level[1] == 1 && level[ROOT] == 2
  }

  ghost predicate CopyGraph(g: Graph) {
    && (forall v :: v in g <==> Among(v))
    && g[0] == Vertex([], [], [1]) && g[1] == Vertex([0], [1], [ROOT]) && g[ROOT] == Vertex([1], [-1], [])
  }

  lemma CopyIsLinked(g: Graph)
    requires CopyGraph(g)
    ensures Linked(g)
  {
    forall v, c | v in g && c in g[v].children ensures c in g { CopyNeighbors(g, v, c); }
    forall c, v | c in g && v in g[c].parents ensures v in g { CopyNeighbors(g, c, v); }
    forall c, v | c in g && v in g ensures Count(g[c].parents, v) == Count(g[v].children, c) { CopyEdge(g, c, v); }
  }

  lemma CopyNeighbors(g: Graph, v: int, u: int)
    requires CopyGraph(g) && v in g
    ensures u in g[v].children || u in g[v].parents ==> u in g
  {
    assert Among(v);
  }

  lemma CopyEdge(g: Graph, c: int, v: int)
    requires CopyGraph(g) && c in g && v in g
    ensures Count(g[c].parents, v) == Count(g[v].children, c)
  {
    assert Among(c) && Among(v);
    if c == 0 { OneEntry(1, v); } else if c == 1 { OneEntry(ROOT, v); } else { NoEntry(v); }
    if v == 0 { NoEntry(c); } else if v == 1 { OneEntry(0, c); } else { OneEntry(1, c); }
  }

  lemma OneEntry(x: int, v: int)
    ensures Count([x], v) == if v == x then 1 else 0
  {
  }

  lemma NoEntry(v: int)
    ensures Count([], v) == 0
  {
  }

  lemma CopyIsLeveled(j: Job, level: map<int, nat>)
    requires Copies(j, level)
    ensures Leveling(j.g, j.levels, level)
  {
    forall v | v in j.g ensures OneAbove(j.g, level, v) {
      if v == 1 { assert 0 in j.g[1].children; }
      if v == ROOT { assert 1 in j.g[ROOT].children; }
    }
    CopyLists(j, level);
  }

  lemma CopyLists(j: Job, level: map<int, nat>)
    requires Copies(j, level)
    ensures Lists(j.levels, level)
  {
    forall l, v | 0 <= l < |j.levels| && v in j.levels[l] ensures v in level && level[v] == l {
      if l == 0 { assert v == 0; } else if l == 1 { assert v == 1; } else { assert v == ROOT; }
    }
    forall v | v in level ensures level[v] < |j.levels| && v in j.levels[level[v]] {
      if v == 0 { assert v in j.levels[0]; } else if v == 1 { assert v in j.levels[1]; } else { assert v in j.levels[2]; }
    }
  }

  lemma CopyVertex(j: Job, level: map<int, nat>, v: int)
    requires Copies(j, level) && Closed(j) && v in j.g && level.Keys == j.g.Keys
    ensures VertexOk(j, level, v)
  {
  }

  lemma CopyShares(j: Job, level: map<int, nat>)
    requires Copies(j, level) && Closed(j) && level.Keys == j.g.Keys
    ensures SharedOk(j, level) && BlocksOk(j, level)
  {
    forall v, a, b | v in j.g && UsersMeet(j, v, a, b) ensures !TwoUses(j, level, a, b) {
      assert v == 0 ==> a == 1 && b == 1;
      assert v == 1 ==> a == ROOT && b == ROOT;
    }
  }

  lemma CopyIsPlanned(j: Job, level: map<int, nat>)
    requires Copies(j, level)
    ensures Planned(j, level)
  {
    CopyIsLinked(j.g);
    CopyIsLeveled(j, level);
    assert Closed(j) by {
      forall l, i | 0 <= l < |j.levels| && 0 <= i < |j.levels[l]| ensures j.levels[l][i] in j.g {
        if l == 0 { } else if l == 1 { } else { assert l == 2; }
      }
    }
    forall v | v in j.g ensures VertexOk(j, level, v) { CopyVertex(j, level, v); }
    CopyShares(j, level);
  }

  lemma CopyExists(g: Graph, j: Job, level: map<int, nat>)
    requires g == map[0 := Vertex([], [], [1]), 1 := Vertex([0], [1], [ROOT]), ROOT := Vertex([1], [-1], [])]
    requires j == Job(g, map[0 := 5, 1 := 6, ROOT := 6], [[0], [1], [ROOT]], 2, 1)
    requires level == map[0 := 0, 1 := 1, ROOT := 2]
    ensures Copies(j, level)
  {
    assert g.Keys == {0, 1, ROOT} && level.Keys == {0, 1, ROOT};
  }

  lemma SomethingIsPlanned()
    ensures exists j, level :: Planned(j, level)
  {
    var g: Graph := map[0 := Vertex([], [], [1]), 1 := Vertex([0], [1], [ROOT]), ROOT := Vertex([1], [-1], [])];
    var j := Job(g, map[0 := 5, 1 := 6, ROOT := 6], [[0], [1], [ROOT]], 2, 1);
    var level: map<int, nat> := map[0 := 0, 1 := 1, ROOT := 2];
    CopyExists(g, j, level);
    CopyIsPlanned(j, level);
  }
}
