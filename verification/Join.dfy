// What one call of ECDAG::Join does to the node map, as a function, and what
// every sequence of such calls keeps.
module Join {
  import opened Util
  import opened GF
  import opened Dag

  const LONE: Vertex := Vertex([], [], [])

  // A child that is not known yet is created as a leaf.
  function Touch(g: Graph, cs: seq<int>): (r: Graph)
    ensures forall v :: v in r <==> v in g || v in cs
    ensures forall v :: v in g ==> r[v] == g[v]
    ensures forall v :: v in r && v !in g ==> r[v] == LONE
  {
    if cs == [] then g
    else
      var n := |cs| - 1;
      var r := Touch(g, cs[..n]);
      assert cs == cs[..n] + [cs[n]];
      if cs[n] in r then r else r[cs[n] := LONE]
  }

  // The new parent is appended to the parent list of each child it was given.
  function Adopt(g: Graph, p: int, cs: seq<int>): (r: Graph)
    requires forall i :: 0 <= i < |cs| ==> cs[i] in g
    ensures r.Keys == g.Keys
    ensures forall v :: v in g ==> r[v].children == g[v].children && r[v].coefs == g[v].coefs
  {
    if cs == [] then g
    else
      var n := |cs| - 1;
      var r := Adopt(g, p, cs[..n]);
      r[cs[n] := r[cs[n]].(parents := r[cs[n]].parents + [p])]
  }

  lemma {:induction false} AdoptCounts(g: Graph, p: int, cs: seq<int>, v: int, x: int)
    requires forall i :: 0 <= i < |cs| ==> cs[i] in g
    requires v in g
    ensures Count(Adopt(g, p, cs)[v].parents, x) == Count(g[v].parents, x) + if x == p then Count(cs, v) else 0
  {
    if cs != [] {
      var n := |cs| - 1;
      assert cs == cs[..n] + [cs[n]];
      AdoptCounts(g, p, cs[..n], v, x);
    }
  }

  function JoinGraph(g: Graph, p: int, cs: seq<int>, coefs: seq<int>): Graph {
    var t := Touch(g, cs);
    if p in t then t else Adopt(t[p := Vertex(cs, coefs, [])], p, cs)
  }

  // ------------------------------------------------- what one call changes

  // A vertex that exists keeps its children and coefficients for ever: a leaf
  // never becomes an inner vertex, whatever is joined later.
  lemma JoinKeeps(g: Graph, p: int, cs: seq<int>, coefs: seq<int>)
    ensures var r := JoinGraph(g, p, cs, coefs);
      && (forall v :: v in r <==> v in g || v in cs || v == p)
      && (forall v :: v in g ==> r[v].children == g[v].children && r[v].coefs == g[v].coefs)
      && (forall v :: v in cs && v !in g ==> r[v].children == [])
      && (p !in g && p !in cs ==> r[p].children == cs && r[p].coefs == coefs)
  {
  }

  // The same as a relation, for steps that need nothing else of the call.
  ghost predicate Adds(g: Graph, r: Graph, p: int, cs: seq<int>) {
    && (forall v :: v in r <==> v in g || v in cs || v == p)
    && (forall v :: v in g ==> r[v].children == g[v].children && r[v].coefs == g[v].coefs)
    && (forall v :: v in cs && v !in g ==> r[v].children == [])
    && (p !in g && p !in cs ==> r[p].children == cs)
  }

  lemma JoinAdds(g: Graph, p: int, cs: seq<int>, coefs: seq<int>)
    ensures Adds(g, JoinGraph(g, p, cs, coefs), p, cs)
  {
    JoinKeeps(g, p, cs, coefs);
  }

  lemma JoinLinked(g: Graph, p: int, cs: seq<int>, coefs: seq<int>)
    requires Linked(g)
    ensures Linked(JoinGraph(g, p, cs, coefs))
  {
    var t := Touch(g, cs);
    TouchLinked(g, cs);
    if p !in t {
      var h := t[p := Vertex(cs, coefs, [])];
      var r := Adopt(h, p, cs);
      forall c, v | c in r && v in r
        ensures Count(r[c].parents, v) == Count(r[v].children, c)
      {
        AdoptCounts(h, p, cs, c, v);
        assert p !in cs;
        if v != p && c == p { assert p !in t[v].children; }
        if v == p && c != p { assert p !in t[c].parents; }
      }
      forall c, v | c in r && v in r[c].parents ensures v in r {
        AdoptCounts(h, p, cs, c, v);
        assert Count(r[c].parents, v) > 0;
        if v != p { assert v in h[c].parents; }
      }
      forall v, c | v in r && c in r[v].children ensures c in r {
        if v == p { assert c in cs; } else { assert c in t[v].children; }
      }
    }
  }

  lemma TouchLinked(g: Graph, cs: seq<int>)
    requires Linked(g)
    ensures Linked(Touch(g, cs))
  {
    var t := Touch(g, cs);
    forall c, v | c in t && v in t
      ensures Count(t[c].parents, v) == Count(t[v].children, c)
    {
      if c !in g && v in g { assert c !in g[v].children; }
      if v !in g && c in g { assert v !in g[c].parents; }
    }
  }

  // A rank for the enlarged graph: new leaves at the bottom, a new parent at
  // the top.
  function JoinRank(g: Graph, rank: map<int, nat>, top: nat, p: int, cs: seq<int>): map<int, nat>
    requires rank.Keys == g.Keys
  {
    map v | v in g.Keys + (set c | c in cs) + {p} ::
      if v in g then rank[v] else if v in cs then 0 else top
  }

  lemma JoinRanked(g: Graph, rank: map<int, nat>, top: nat, p: int, cs: seq<int>, coefs: seq<int>)
    requires Ranked(g, rank)
    requires top > 0 && forall v :: v in rank ==> rank[v] < top
    ensures Ranked(JoinGraph(g, p, cs, coefs), JoinRank(g, rank, top, p, cs))
    ensures forall v :: v in JoinRank(g, rank, top, p, cs) ==> JoinRank(g, rank, top, p, cs)[v] <= top
  {
    JoinKeeps(g, p, cs, coefs);
    var r := JoinGraph(g, p, cs, coefs);
    var k := JoinRank(g, rank, top, p, cs);
    assert k.Keys == r.Keys;
  }

  // ------------------------------------------- every sequence of Join calls

  datatype Call = Call(pidx: int, cidx: seq<int>, coefs: seq<int>)

  function Build(calls: seq<Call>): Graph {
    if calls == [] then map[]
    else
      var n := |calls| - 1;
      JoinGraph(Build(calls[..n]), calls[n].pidx, calls[n].cidx, calls[n].coefs)
  }

  // No caller has to be careful: whatever is joined, in whatever order, with
  // repeated, unknown or self-referring indices, the graph has no cycle and
  // its parent lists mirror its child lists.
  lemma {:induction false} EveryBuildIsSound(calls: seq<Call>)
    ensures Linked(Build(calls)) && Acyclic(Build(calls))
  {
    var _ := BuildRank(calls);
  }

  lemma {:induction false} BuildRank(calls: seq<Call>) returns (rank: map<int, nat>)
    ensures Linked(Build(calls)) && Ranked(Build(calls), rank)
    ensures forall v :: v in rank ==> rank[v] <= |calls|
  {
    if calls == [] {
      rank := map[];
    } else {
      var n := |calls| - 1;
      var g, c := Build(calls[..n]), calls[n];
      var r := BuildRank(calls[..n]);
      JoinLinked(g, c.pidx, c.cidx, c.coefs);
      JoinRanked(g, r, n + 1, c.pidx, c.cidx, c.coefs);
      rank := JoinRank(g, r, n + 1, c.pidx, c.cidx);
    }
  }

  // ---------------------------------------------------------------- meaning

  // Every inner vertex equals the combination it was joined with.
  ghost predicate Sound(f: Field, g: Graph, val: int -> Byte) {
    forall v :: v in g && g[v].children != [] ==> val(v) == Comb(f, g[v].coefs, g[v].children, val)
  }

  lemma JoinSound(f: Field, g: Graph, p: int, cs: seq<int>, coefs: seq<int>, val: int -> Byte)
    requires Sound(f, g, val)
    requires p in g || p in cs || val(p) == Comb(f, coefs, cs, val)
    ensures Sound(f, JoinGraph(g, p, cs, coefs), val)
  {
    JoinKeeps(g, p, cs, coefs);
  }

  // A symbol assignment that satisfies every Join is what evaluating the
  // graph from the values of its leaves gives.
  lemma SoundIsEvaluation(f: Field, g: Graph, rank: map<int, nat>, val: int -> Byte, v: int)
    requires Ranked(g, rank) && Sound(f, g, val) && v in g
    ensures Value(f, g, rank, val, v) == val(v)
  {
    EvaluationExists(f, g, rank, val);
    EvaluationUnique(f, g, rank, val, Valuation(f, g, rank, val), val, v);
  }
}
