// The linear-combination DAG as a value: what ECDAG::_ecNodeMap holds.
module Dag {
  import opened Util
  import opened GF

  // children, coefs and parents are the three lists an ECNode keeps.
  datatype Vertex = Vertex(children: seq<int>, coefs: seq<int>, parents: seq<int>)

  type Graph = map<int, Vertex>

  // Every child exists and is listed under each of its parents as often as
  // the parent lists it as a child.
  ghost predicate Linked(g: Graph) {
    && (forall v, c :: v in g && c in g[v].children ==> c in g)
    && (forall c, v :: c in g && v in g[c].parents ==> v in g)
    && (forall c, v {:trigger Count(g[c].parents, v)} {:trigger Count(g[v].children, c)} ::
          c in g && v in g ==> Count(g[c].parents, v) == Count(g[v].children, c))
  }

  // rank is a witness of acyclicity: it grows strictly along every edge.
  ghost predicate Ranked(g: Graph, rank: map<int, nat>) {
    && rank.Keys == g.Keys
    && forall v, c :: v in g && c in g[v].children ==> c in g && rank[c] < rank[v]
  }

  ghost predicate Acyclic(g: Graph) {
    exists rank :: Ranked(g, rank)
  }

  // ---------------------------------------------------------------- values

  // val is a central evaluation of g when the leaves hold what is stored in
  // them and every other vertex is the combination it was joined with.
  ghost predicate Evaluates(f: Field, g: Graph, leaf: int -> Byte, val: int -> Byte) {
    forall v :: v in g ==>
      val(v) == if g[v].children == [] then leaf(v) else Comb(f, g[v].coefs, g[v].children, val)
  }

  ghost function Value(f: Field, g: Graph, rank: map<int, nat>, leaf: int -> Byte, v: int): Byte
    requires Ranked(g, rank) && v in g
    decreases rank[v], |g[v].children| + 1
  {
    if g[v].children == [] then leaf(v) else PartialValue(f, g, rank, leaf, v, |g[v].children|)
  }

  ghost function PartialValue(f: Field, g: Graph, rank: map<int, nat>, leaf: int -> Byte, v: int, n: nat): Byte
    requires Ranked(g, rank) && v in g && n <= |g[v].children|
    decreases rank[v], n
  {
    if n == 0 then 0
    else
      f.add(PartialValue(f, g, rank, leaf, v, n - 1),
            f.mul(CoefAt(g[v].coefs, n - 1), Value(f, g, rank, leaf, g[v].children[n - 1])))
  }

  ghost function Valuation(f: Field, g: Graph, rank: map<int, nat>, leaf: int -> Byte): int -> Byte
    requires Ranked(g, rank)
  {
    v => if v in g then Value(f, g, rank, leaf, v) else 0
  }

  lemma {:induction false} PartialIsComb(f: Field, g: Graph, rank: map<int, nat>, leaf: int -> Byte, v: int, n: nat)
    requires Ranked(g, rank) && v in g && n <= |g[v].children|
    ensures PartialValue(f, g, rank, leaf, v, n)
         == Comb(f, g[v].coefs, g[v].children[..n], Valuation(f, g, rank, leaf))
  {
    if n > 0 {
      PartialIsComb(f, g, rank, leaf, v, n - 1);
      assert g[v].children[..n][..n - 1] == g[v].children[..n - 1];
      assert g[v].children[n - 1] in g[v].children;
    }
  }

  // An acyclic graph has a central evaluation ...
  lemma EvaluationExists(f: Field, g: Graph, rank: map<int, nat>, leaf: int -> Byte)
    requires Ranked(g, rank)
    ensures Evaluates(f, g, leaf, Valuation(f, g, rank, leaf))
  {
    forall v | v in g && g[v].children != []
      ensures Value(f, g, rank, leaf, v) == Comb(f, g[v].coefs, g[v].children, Valuation(f, g, rank, leaf))
    {
      var n := |g[v].children|;
      PartialIsComb(f, g, rank, leaf, v, n);
      assert g[v].children[..n] == g[v].children;
    }
  }

  // ... and only one, whichever leaf assignment is given: two evaluations of
  // graphs that agree on the leaves agree on every vertex.
  lemma {:induction false} EvaluationUnique(f: Field, g: Graph, rank: map<int, nat>, leaf: int -> Byte,
                                            v: int -> Byte, w: int -> Byte, x: int)
    requires Ranked(g, rank) && x in g
    requires Evaluates(f, g, leaf, v) && Evaluates(f, g, leaf, w)
    ensures v(x) == w(x)
    decreases rank[x]
  {
    forall i | 0 <= i < |g[x].children| ensures v(g[x].children[i]) == w(g[x].children[i]) {
      EvaluationUnique(f, g, rank, leaf, v, w, g[x].children[i]);
    }
    CombAgrees(f, g[x].coefs, g[x].children, v, w);
  }
}
