// What every coding scheme does with the DAG: from symbols that may be read,
// join one symbol after the other, each once and by an equation of the code.
// Symbols are DAG indices here; a code is the set of its words.
module Decoding {
  import opened Util
  import opened GF
  import opened Dag
  import opened Join
  import opened EcDag

  type Words = (int -> Byte) -> bool

  // known may be read, done has been joined - each index by one call of Join.
  // Nothing else is in the DAG, its leaves are known, and every Join is an
  // identity in all words of the code.
  ghost predicate Progress(f: Field, words: Words, known: set<int>, done: set<int>, nodes: Graph, joins: multiset<int>) {
    && known !! done
    && (forall v :: v in nodes ==> v in known || v in done)
    && (forall v :: v in done ==> v in nodes && nodes[v].children != [])
    && (forall v :: v in known && v in nodes ==> nodes[v].children == [])
    && joins == multiset(done)
    && (forall val {:trigger words(val)} :: words(val) ==> Sound(f, nodes, val))
  }

  // The same, when sure; kept closed, because it is passed on far more often
  // than it is looked at.
  ghost predicate Certain(f: Field, words: Words, known: set<int>, done: set<int>, nodes: Graph, joins: multiset<int>, sure: bool) {
    forall x: int {:trigger Look(x)} :: Look(x) && sure ==> Progress(f, words, known, done, nodes, joins)
  }

  lemma Uncertain(f: Field, words: Words, known: set<int>, done: set<int>, nodes: Graph, joins: multiset<int>, sure: bool)
    requires Certain(f, words, known, done, nodes, joins, sure)
    ensures sure ==> Progress(f, words, known, done, nodes, joins)
    ensures Certain(f, words, known, done, nodes, joins, false)
  {
    assert Look(0);
  }

  lemma NothingYet(f: Field, words: Words, known: set<int>)
    ensures Progress(f, words, known, {}, map[], multiset{}) && Certain(f, words, known, {}, map[], multiset{}, true)
  {
  }

  // The identity behind a Join, in every word.
  ghost predicate Identity(f: Field, words: Words, p: int, cs: seq<int>, coefs: seq<int>) {
    forall val {:trigger words(val)} :: words(val) ==> val(p) == Comb(f, coefs, cs, val)
  }

  ghost predicate AllThere(known: set<int>, done: set<int>, cs: seq<int>) {
    forall i :: 0 <= i < |cs| ==> cs[i] in known || cs[i] in done
  }

  lemma AddOnce(done: set<int>, p: int)
    requires p !in done
    ensures multiset(done + {p}) == multiset(done) + multiset{p}
  {
  }

  lemma JoinProgress(f: Field, words: Words, known: set<int>, done: set<int>, nodes: Graph, joins: multiset<int>,
                     p: int, cs: seq<int>, coefs: seq<int>)
    requires Progress(f, words, known, done, nodes, joins)
    requires p !in known && p !in done && cs != [] && AllThere(known, done, cs) && Identity(f, words, p, cs, coefs)
    ensures Progress(f, words, known, done + {p}, JoinGraph(nodes, p, cs, coefs), joins + multiset{p})
  {
    var r := JoinGraph(nodes, p, cs, coefs);
    assert p !in nodes && p !in cs;
    AddOnce(done, p);
    JoinAdds(nodes, p, cs, coefs);
    StaysInOrder(known, done, nodes, r, p, cs);
    forall val | words(val) ensures Sound(f, r, val) {
      JoinSound(f, nodes, p, cs, coefs, val);
    }
  }

  lemma StaysInOrder(known: set<int>, done: set<int>, nodes: Graph, r: Graph, p: int, cs: seq<int>)
    requires Adds(nodes, r, p, cs) && p !in nodes && p !in cs && cs != [] && AllThere(known, done, cs)
    requires p !in known && p !in done && known !! done
    requires forall v :: v in nodes ==> v in known || v in done
    requires forall v :: v in done ==> v in nodes && nodes[v].children != []
    requires forall v :: v in known && v in nodes ==> nodes[v].children == []
    ensures forall v :: v in r ==> v in known || v in done + {p}
    ensures forall v :: v in done + {p} ==> v in r && r[v].children != []
    ensures forall v :: v in known && v in r ==> r[v].children == []
  {
  }

  // Whoever evaluates the DAG from a word's known symbols gets that word.
  lemma {:induction false} JoinedIsRight(f: Field, words: Words, known: set<int>, done: set<int>, nodes: Graph, joins: multiset<int>,
                                         rank: map<int, nat>, val: int -> Byte, leaf: int -> Byte, v: int)
    requires Progress(f, words, known, done, nodes, joins) && Ranked(nodes, rank) && words(val) && v in nodes
    requires forall s :: s in known && s in nodes ==> leaf(s) == val(s)
    ensures Value(f, nodes, rank, leaf, v) == val(v)
  {
    EvaluationExists(f, nodes, rank, leaf);
    forall u | u in nodes && nodes[u].children == [] ensures leaf(u) == val(u) {
      assert u in known || u in done;
    }
    assert Evaluates(f, nodes, leaf, val);
    EvaluationUnique(f, nodes, rank, leaf, Valuation(f, nodes, rank, leaf), val, v);
  }

  // v is joined from exactly these, in this order.
  ghost predicate MadeOf(g: Graph, v: int, cs: seq<int>) { v in g && g[v].children == cs }

  // If v was not there before, it came as a leaf.
  ghost predicate BornLeaf(before: Graph, after: Graph, v: int) {
    v !in before ==> v in after && after[v].children == []
  }

  // One Join. Without sure - when what it reads need not be there - all that
  // is known is that nothing is taken away, and what is new is a leaf.
  method JoinOne(dag: ECDAG, p: int, cs: seq<int>, coefs: seq<int>, ghost f: Field, ghost words: Words,
                 ghost known: set<int>, ghost done: set<int>, ghost sure: bool)
    requires dag.Valid() && Certain(f, words, known, done, dag.nodes, dag.joins, sure) && cs != []
    requires sure ==> p !in known && p !in done && AllThere(known, done, cs) && Identity(f, words, p, cs, coefs)
    modifies dag
    ensures dag.Valid() && Certain(f, words, known, done + {p}, dag.nodes, dag.joins, sure)
    ensures Extends(old(dag.nodes), dag.nodes)
    ensures sure ==> MadeOf(dag.nodes, p, cs)
    ensures forall i :: 0 <= i < |cs| ==> cs[i] in dag.nodes && BornLeaf(old(dag.nodes), dag.nodes, cs[i])
  {
    Uncertain(f, words, known, done, dag.nodes, dag.joins, sure);
    JoinAdds(dag.nodes, p, cs, coefs);
    if sure { JoinProgress(f, words, known, done, dag.nodes, dag.joins, p, cs, coefs); }
    ghost var before := dag.nodes;
    dag.Join(p, cs, coefs);
    JoinBears(before, dag.nodes, p, cs);
  }

  lemma JoinBears(g: Graph, r: Graph, p: int, cs: seq<int>)
    requires Adds(g, r, p, cs)
    ensures forall i :: 0 <= i < |cs| ==> cs[i] in r && BornLeaf(g, r, cs[i])
  {
    forall i | 0 <= i < |cs| ensures cs[i] in r && BornLeaf(g, r, cs[i]) {
      var c := cs[i];
      assert c in cs;
    }
  }
}
