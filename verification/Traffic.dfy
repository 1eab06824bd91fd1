// src/common/Stripe.cc: how much a colouring makes every node send and
// receive; the full count, and the two updates by hand for one recoloured
// vertex.
module StripeTraffic {
  import opened Util
  import opened Dag
  import opened EcDag
  import opened Tasks

  // Vertex v is sent once from its own node to each other node that uses it.
  datatype Flow = Flow(v: int, from: int, to: int)

  function In(s: set<Flow>, d: int): nat { |set t | t in s && t.to == d| }

  function Out(s: set<Flow>, c: int): nat { |set t | t in s && t.from == c| }

  // A counter that is not in the map reads as zero.
  function Get(m: map<int, int>, k: int): int { if k in m then m[k] else 0 }

  // ------------------------------------------------------------- what is sent

  // The DAG the stripe holds: no vertex lists a child twice or itself.
  ghost predicate Painted(g: Graph, col: map<int, int>) {
    && Linked(g)
    && (forall v :: v in g ==> v in col)
    && (forall v :: v in g ==> NoDup(g[v].children) && v !in g[v].children)
  }

  function ParentColors(g: Graph, col: map<int, int>, v: int): (r: seq<int>)
    requires v in g && forall i :: 0 <= i < |g[v].parents| ==> g[v].parents[i] in col
  {
    ColorsOf(col, g[v].parents)
  }

  lemma ParentsPainted(g: Graph, col: map<int, int>, v: int)
    requires Painted(g, col) && v in g
    ensures forall i :: 0 <= i < |g[v].parents| ==> g[v].parents[i] in g && g[v].parents[i] in col
  {
    forall i | 0 <= i < |g[v].parents| ensures g[v].parents[i] in g && g[v].parents[i] in col {
      var p := g[v].parents[i];
      assert p in g[v].parents;
    }
  }

  // How many parents of v have colour c.
  function UsesOn(g: Graph, col: map<int, int>, v: int, c: int): nat
    requires Painted(g, col) && v in g
  {
    ParentsPainted(g, col, v);
    Count(ParentColors(g, col, v), c)
  }

  ghost predicate Sent(g: Graph, col: map<int, int>, t: Flow)
    requires Painted(g, col)
  {
    && t.v in g && t.from == col[t.v] && t.from != -1 && t.to != -1 && t.to != t.from
    && UsesOn(g, col, t.v, t.to) > 0
  }

  ghost function Transfers(g: Graph, col: map<int, int>): (r: set<Flow>)
    requires Painted(g, col)
    ensures forall t :: t in r <==> Sent(g, col, t)
  {
    var r := set v, d | v in g.Keys && d in Colors(g, col, v) && Sent(g, col, Flow(v, col[v], d)) :: Flow(v, col[v], d);
    forall t | Sent(g, col, t) ensures t in r {
      ParentsPainted(g, col, t.v);
      assert t.to in Colors(g, col, t.v);
    }
    r
  }

  ghost function Colors(g: Graph, col: map<int, int>, v: int): seq<int>
    requires Painted(g, col) && v in g
  {
    ParentsPainted(g, col, v);
    ParentColors(g, col, v)
  }

  // ------------------------------------------------------------------ counting

  lemma FlowAdded(s: set<Flow>, t: Flow)
    requires t !in s
    ensures forall d :: In(s + {t}, d) == In(s, d) + if t.to == d then 1 else 0
    ensures forall c :: Out(s + {t}, c) == Out(s, c) + if t.from == c then 1 else 0
  {
    forall d ensures In(s + {t}, d) == In(s, d) + if t.to == d then 1 else 0 {
      var a := set x | x in s && x.to == d;
      var b := set x | x in s + {t} && x.to == d;
      if t.to == d { assert b == a + {t}; } else { assert b == a; }
    }
    forall c ensures Out(s + {t}, c) == Out(s, c) + if t.from == c then 1 else 0 {
      var a := set x | x in s && x.from == c;
      var b := set x | x in s + {t} && x.from == c;
      if t.from == c { assert b == a + {t}; } else { assert b == a; }
    }
  }

  lemma FlowRemoved(s: set<Flow>, t: Flow)
    requires t in s
    ensures forall d :: In(s - {t}, d) == In(s, d) - if t.to == d then 1 else 0
    ensures forall c :: Out(s - {t}, c) == Out(s, c) - if t.from == c then 1 else 0
  {
    FlowAdded(s - {t}, t);
    assert s - {t} + {t} == s;
  }

  // The two counter maps count the flows of s.
  ghost predicate Counts(ins: map<int, int>, outs: map<int, int>, s: set<Flow>) {
    && (forall d {:trigger Get(ins, d)} {:trigger In(s, d)} :: Get(ins, d) == In(s, d))
    && (forall c {:trigger Get(outs, c)} {:trigger Out(s, c)} :: Get(outs, c) == Out(s, c))
  }

  function Within(s: set<Flow>, ks: set<int>): nat { |set t | t in s && t.to in ks| }

  lemma WithinStep(s: set<Flow>, ks: set<int>, d: int)
    requires d in ks
    ensures Within(s, ks) == Within(s, ks - {d}) + In(s, d)
  {
    var a := set t | t in s && t.to in ks - {d};
    var b := set t | t in s && t.to == d;
    assert (set t | t in s && t.to in ks) == a + b;
  }

  lemma WithinAll(ins: map<int, int>, outs: map<int, int>, s: set<Flow>)
    requires Counts(ins, outs, s)
    ensures Within(s, ins.Keys) == |s| && Within(s, {}) == 0
  {
    forall t | t in s ensures t.to in ins {
      InPositive(s, t);
      assert Get(ins, t.to) == In(s, t.to);
    }
    assert (set t | t in s && t.to in ins.Keys) == s;
    assert (set t | t in s && t.to in {}) == {};
  }

  lemma InPositive(s: set<Flow>, t: Flow)
    requires t in s
    ensures In(s, t.to) > 0 && Out(s, t.from) > 0
  {
    FlowsNoMore({t}, set x | x in s && x.to == t.to);
    FlowsNoMore({t}, set x | x in s && x.from == t.from);
  }

  // Over any range that covers the nodes, what is received adds up to the
  // number of transfers, and so does what is sent.
  function TotalIn(s: set<Flow>, n: nat): nat { if n == 0 then 0 else TotalIn(s, n - 1) + In(s, n - 1) }

  function TotalOut(s: set<Flow>, n: nat): nat { if n == 0 then 0 else TotalOut(s, n - 1) + Out(s, n - 1) }

  lemma {:induction false} InIsConserved(s: set<Flow>, n: nat)
    requires forall t :: t in s ==> 0 <= t.to < n
    ensures TotalIn(s, n) == |s|
  {
    InBelow(s, n);
    assert (set t | t in s && 0 <= t.to < n) == s;
  }

  lemma {:induction false} InBelow(s: set<Flow>, n: nat)
    ensures TotalIn(s, n) == |set t | t in s && 0 <= t.to < n|
  {
    if n > 0 {
      InBelow(s, n - 1);
      var a := set t | t in s && 0 <= t.to < n - 1;
      var b := set t | t in s && t.to == n - 1;
      assert (set t | t in s && 0 <= t.to < n) == a + b;
    } else {
      assert (set t | t in s && 0 <= t.to < n) == {};
    }
  }

  lemma {:induction false} OutIsConserved(s: set<Flow>, n: nat)
    requires forall t :: t in s ==> 0 <= t.from < n
    ensures TotalOut(s, n) == |s|
  {
    OutBelow(s, n);
    assert (set t | t in s && 0 <= t.from < n) == s;
  }

  lemma {:induction false} OutBelow(s: set<Flow>, n: nat)
    ensures TotalOut(s, n) == |set t | t in s && 0 <= t.from < n|
  {
    if n > 0 {
      OutBelow(s, n - 1);
      var a := set t | t in s && 0 <= t.from < n - 1;
      var b := set t | t in s && t.from == n - 1;
      assert (set t | t in s && 0 <= t.from < n) == a + b;
    } else {
      assert (set t | t in s && 0 <= t.from < n) == {};
    }
  }

  // ------------------------------------------------------- recolouring a vertex

  // What the updates by hand count after vertex idx went to colour new.
  ghost predicate InAfter(g: Graph, col: map<int, int>, idx: int, new_: int, t: Flow)
    requires Painted(g, col) && idx in g
  {
    if t.v == idx then
      t.from == new_ && new_ != -1 && t.to != -1 && t.to != new_ && UsesOn(g, col, idx, t.to) > 0
    else if t.v in g[idx].children then
      && t.v in g && t.from == col[t.v] && t.from != -1 && t.to != t.from
      && ((t.to == new_ && UsesOn(g, col, t.v, new_) == 0)
          || (t.to != -1 && UsesOn(g, col, t.v, t.to) > 0 && !LastUse(g, col, idx, t.v, t.to)))
    else Sent(g, col, t)
  }

  // idx is the only vertex of its colour that uses c.
  ghost predicate LastUse(g: Graph, col: map<int, int>, idx: int, c: int, to: int)
    requires Painted(g, col) && idx in g && c in g
  {
    col[idx] != -1 && to == col[idx] && UsesOn(g, col, c, to) == 1
  }

  lemma {:induction false} RecolorCount(ps: seq<int>, col: map<int, int>, idx: int, new_: int, d: int)
    requires idx in col && forall i :: 0 <= i < |ps| ==> ps[i] in col
    ensures Count(ColorsOf(col[idx := new_], ps), d)
         == Count(ColorsOf(col, ps), d)
            + (if d == new_ then Count(ps, idx) else 0) - (if d == col[idx] then Count(ps, idx) else 0)
  {
    if ps != [] {
      var n := |ps| - 1;
      RecolorCount(ps[..n], col, idx, new_, d);
      assert ps == ps[..n] + [ps[n]];
      assert ColorsOf(col, ps) == ColorsOf(col, ps[..n]) + [col[ps[n]]];
      assert ColorsOf(col[idx := new_], ps) == ColorsOf(col[idx := new_], ps[..n]) + [col[idx := new_][ps[n]]];
    }
  }

  lemma {:induction false} CountOfNoDup(s: seq<int>, x: int)
    requires NoDup(s)
    ensures Count(s, x) == if x in s then 1 else 0
  {
    if s != [] {
      var n := |s| - 1;
      CountOfNoDup(s[..n], x);
      assert s == s[..n] + [s[n]];
    }
  }

  // How one recoloured vertex changes who uses v.
  lemma UsesAfter(g: Graph, col: map<int, int>, idx: int, new_: int, v: int, d: int)
    requires Painted(g, col) && idx in g && v in g
    ensures Painted(g, col[idx := new_])
    ensures var k := if v in g[idx].children then 1 else 0;
      UsesOn(g, col[idx := new_], v, d)
      == UsesOn(g, col, v, d) + (if d == new_ then k else 0) - (if d == col[idx] then k else 0)
  {
    assert Painted(g, col[idx := new_]);
    ParentsPainted(g, col, v);
    RecolorCount(g[v].parents, col, idx, new_, d);
    CountOfNoDup(g[idx].children, v);
    assert Count(g[v].parents, idx) == Count(g[idx].children, v);
  }

  lemma UsedByIdx(g: Graph, col: map<int, int>, idx: int, c: int)
    requires Painted(g, col) && idx in g && c in g[idx].children
    ensures c in g && UsesOn(g, col, c, col[idx]) > 0
  {
    ParentsPainted(g, col, c);
    assert Count(g[c].parents, idx) == Count(g[idx].children, c);
    assert idx in g[c].parents;
    var i :| 0 <= i < |g[c].parents| && g[c].parents[i] == idx;
    assert ParentColors(g, col, c)[i] == col[idx];
  }

  // When the updates by hand are right, as a condition on the call.
  ghost predicate Exact(g: Graph, col: map<int, int>, idx: int, new_: int)
    requires Painted(g, col) && idx in g
  {
    var old_ := col[idx];
    if new_ == old_ then
      old_ == -1 || forall c :: c in g[idx].children && c in g ==>
        col[c] == -1 || col[c] == old_ || UsesOn(g, col, c, old_) != 1
    else
      new_ != -1 || forall c :: c in g[idx].children && c in g ==> col[c] == -1 || UsesOn(g, col, c, -1) > 0
  }

  lemma AfterIsTransfers(g: Graph, col: map<int, int>, idx: int, new_: int, t: Flow)
    requires Painted(g, col) && idx in g && Exact(g, col, idx, new_)
    ensures Painted(g, col[idx := new_])
    ensures InAfter(g, col, idx, new_, t) <==> Sent(g, col[idx := new_], t)
  {
    assert Painted(g, col[idx := new_]);
    if t.v in g {
      UsesAfter(g, col, idx, new_, t.v, t.to);
      if t.v in g[idx].children { UsedByIdx(g, col, idx, t.v); }
    }
  }

  // A call that does not meet the condition leaves a wrong counter behind.
  lemma InexactMiscounts(g: Graph, col: map<int, int>, idx: int, new_: int, s: set<Flow>) returns (d: int)
    requires Painted(g, col) && idx in g && !Exact(g, col, idx, new_)
    requires forall t :: t in s <==> InAfter(g, col, idx, new_, t)
    ensures Painted(g, col[idx := new_])
    ensures d == new_ && In(s, d) != In(Transfers(g, col[idx := new_]), d)
  {
    assert Painted(g, col[idx := new_]);
    var after := Transfers(g, col[idx := new_]);
    d := new_;
    if new_ == col[idx] {
      assert col[idx := new_] == col;
      var c :| c in g[idx].children && c in g && col[c] != -1 && col[c] != new_ && UsesOn(g, col, c, new_) == 1;
      var t := Flow(c, col[c], new_);
      assert t in after && t !in s;
      var a := set x | x in s && x.to == d;
      var b := set x | x in after && x.to == d;
      forall x | x in a ensures x in b {
        if x.v in g[idx].children { UsedByIdx(g, col, idx, x.v); }
      }
      FlowSubset(a, b, t);
    } else {
      var c :| c in g[idx].children && c in g && col[c] != -1 && UsesOn(g, col, c, -1) == 0;
      var t := Flow(c, col[c], -1);
      assert t in s;
      InPositive(s, t);
      assert (set x | x in after && x.to == d) == {};
    }
  }

  lemma FlowSubset(a: set<Flow>, b: set<Flow>, t: Flow)
    requires a <= b && t in b && t !in a
    ensures |a| < |b|
  {
    FlowsNoMore(a, b - {t});
  }

  lemma {:induction false} FlowsNoMore(a: set<Flow>, b: set<Flow>)
    requires a <= b
    ensures |a| <= |b|
  {
    var c := b - a;
    assert b == a + c;
  }

  // ------------------------------------------------------------ the two loops

  // Flows of idx after the first i of its parents' colours were dealt with.
  ghost predicate InParents(all: set<Flow>, idx: int, new_: int, done: seq<int>, t: Flow) {
    if t.v == idx then
      (t in all && t.to !in done) || (t.from == new_ && new_ != -1 && t.to in done && t.to != -1 && t.to != new_)
    else t in all
  }

  ghost predicate ParentsDone(all: set<Flow>, idx: int, new_: int, done: seq<int>, s: set<Flow>) {
    forall t :: t in s <==> InParents(all, idx, new_, done, t)
  }

  function Swapped(s: set<Flow>, idx: int, old_: int, new_: int, d: int): set<Flow> {
    if d == -1 then s
    else
      var a := if d != old_ && old_ != -1 then s - {Flow(idx, old_, d)} else s;
      if d != new_ && new_ != -1 then a + {Flow(idx, new_, d)} else a
  }

  // One colour among the parents of idx: the transfer from the old node goes,
  // the one from the new node comes.
  lemma ParentStep(g: Graph, col: map<int, int>, all: set<Flow>, idx: int, new_: int, done: seq<int>, d: int, s: set<Flow>)
    requires Painted(g, col) && idx in g && all == Transfers(g, col) && UsesOn(g, col, idx, d) > 0
    requires d !in done && ParentsDone(all, idx, new_, done, s)
    ensures var old_ := col[idx];
      && (d != -1 && d != old_ && old_ != -1 ==> Flow(idx, old_, d) in s)
      && (d != -1 && d != new_ && new_ != -1 ==> Flow(idx, new_, d) !in s || new_ == old_)
      && ParentsDone(all, idx, new_, done + [d], Swapped(s, idx, old_, new_, d))
  {
    var old_ := col[idx];
    assert Sent(g, col, Flow(idx, old_, d)) <==> d != -1 && d != old_ && old_ != -1;
    forall t ensures t in Swapped(s, idx, old_, new_, d) <==> InParents(all, idx, new_, done + [d], t) {
      assert t.to in done + [d] <==> t.to in done || t.to == d;
      if t in all && t.v == idx { assert Sent(g, col, t); }
    }
  }

  // Flows after the children in done were dealt with as well.
  ghost predicate InChildren(g: Graph, col: map<int, int>, idx: int, new_: int, base: set<Flow>, done: seq<int>, t: Flow)
    requires Painted(g, col) && idx in g
  {
    if t.v in done then InAfter(g, col, idx, new_, t) else t in base
  }

  class Stripe {
    const ecdag: ECDAG
    var coloring: map<int, int>
    var ins: map<int, int>
    var outs: map<int, int>
    var bdwt: int
    var load: int

    constructor (dag: ECDAG, col: map<int, int>)
      ensures ecdag == dag && coloring == col && ins == map[] && outs == map[] && bdwt == 0 && load == 0
    {
      ecdag, coloring, ins, outs, bdwt, load := dag, col, map[], map[], 0, 0;
    }

    // What evaluateColoring leaves in the fields, and what every later update
    // is meant to keep.
    ghost predicate Evaluated()
      reads this, ecdag
    {
      && Painted(ecdag.nodes, coloring)
      && Counts(ins, outs, Transfers(ecdag.nodes, coloring))
      && Summed(ins, outs, bdwt, load, Transfers(ecdag.nodes, coloring))
    }

    method Inc(from: int, to: int, ghost s: set<Flow>, ghost t: Flow)
      requires Counts(ins, outs, s) && t !in s && t.from == from && t.to == to
      modifies `ins, `outs
      ensures Counts(ins, outs, s + {t})
    {
      FlowAdded(s, t);
      outs := outs[from := Get(outs, from) + 1];
      ins := ins[to := Get(ins, to) + 1];
    }

    method Dec(from: int, to: int, ghost s: set<Flow>, ghost t: Flow)
      requires Counts(ins, outs, s) && t in s && t.from == from && t.to == to
      modifies `ins, `outs
      ensures Counts(ins, outs, s - {t})
    {
      FlowRemoved(s, t);
      outs := outs[from := Get(outs, from) - 1];
      ins := ins[to := Get(ins, to) - 1];
    }

    method SumUp(ghost s: set<Flow>)
      requires Counts(ins, outs, s)
      modifies `bdwt, `load
      ensures Summed(ins, outs, bdwt, load, s)
    {
      bdwt, load := 0, 0;
      SumIn(s);
      MaxOut(s);
    }

    method SumIn(ghost s: set<Flow>)
      requires Counts(ins, outs, s) && bdwt == 0 && load == 0
      modifies `bdwt, `load
      ensures bdwt == |s| && (forall d :: d in ins ==> Get(ins, d) <= load)
      ensures load == 0 || exists d :: load == Get(ins, d)
    {
      var todo := ins.Keys;
      WithinAll(ins, outs, s);
      while todo != {}
        invariant todo <= ins.Keys && bdwt + Within(s, todo) == |s|
        invariant forall d :: d in ins && d !in todo ==> Get(ins, d) <= load
        invariant load == 0 || exists d :: load == Get(ins, d)
        decreases |todo|
      {
        NonEmpty(todo);
        var d :| d in todo;
        WithinStep(s, todo, d);
        todo := todo - {d};
        assert ins[d] == Get(ins, d) == In(s, d);
        bdwt := bdwt + ins[d];
        if ins[d] > load { load := ins[d]; }
      }
    }

    method MaxOut(ghost s: set<Flow>)
      requires Counts(ins, outs, s) && bdwt == |s| && forall d :: d in ins ==> Get(ins, d) <= load
      requires load == 0 || exists d :: load == Get(ins, d)
      modifies `load
      ensures Summed(ins, outs, bdwt, load, s)
    {
      var todo := outs.Keys;
      while todo != {}
        invariant todo <= outs.Keys
        invariant forall d :: d in ins ==> Get(ins, d) <= load
        invariant forall c :: c in outs && c !in todo ==> Get(outs, c) <= load
        invariant load == 0 || (exists d :: load == Get(ins, d)) || (exists c :: load == Get(outs, c))
        decreases |todo|
      {
        NonEmpty(todo);
        var c :| c in todo;
        todo := todo - {c};
        assert outs[c] == Get(outs, c);
        if outs[c] > load { load := outs[c]; }
      }
    }

    // ------------------------------------------------------------ full count

    method CountVertex(v: int, ghost g: Graph, ghost s: set<Flow>) returns (ghost r: set<Flow>)
      requires g == ecdag.nodes && Painted(g, coloring) && v in g && coloring[v] != -1
      requires Counts(ins, outs, s) && forall t :: t in s ==> t.v != v
      modifies `ins, `outs
      ensures Counts(ins, outs, r)
      ensures forall t :: t in r <==> t in s || (t.v == v && Sent(g, coloring, t))
    {
      ParentsPainted(g, coloring, v);
      var mine := coloring[v];
      var list := DistinctColors(coloring, ecdag.nodes[v].parents);
      r := s;
      var i := 0;
      while i < |list|
        invariant 0 <= i <= |list|
        invariant Counts(ins, outs, r)
        invariant forall t :: t in r <==> t in s || (t.v == v && t.to in list[..i] && Sent(g, coloring, t))
      {
        var d := list[i];
        assert list[..i + 1] == list[..i] + [d] && d !in list[..i];
        assert d in list;
        if mine != d && d != -1 {
          Inc(mine, d, r, Flow(v, mine, d));
          r := r + {Flow(v, mine, d)};
        }
        i := i + 1;
      }
      assert list[..|list|] == list;
    }

    method EvaluateColoring()
      requires Painted(ecdag.nodes, coloring) && coloring.Keys == ecdag.nodes.Keys
      modifies `ins, `outs, `bdwt, `load
      ensures Evaluated()
    {
      ghost var g := ecdag.nodes;
      ins, outs := map[], map[];
      ghost var s: set<Flow> := {};
      var todo := coloring.Keys;
      while todo != {}
        invariant todo <= coloring.Keys && g == ecdag.nodes
        invariant Counts(ins, outs, s)
        invariant forall t :: t in s <==> t.v !in todo && Sent(g, coloring, t)
        decreases |todo|
      {
        NonEmpty(todo);
        var v :| v in todo;
        todo := todo - {v};
        if coloring[v] == -1 { continue; }
        s := CountVertex(v, g, s);
      }
      assert s == Transfers(g, coloring);
      SumUp(s);
    }

    // --------------------------------------------------------- update by hand

    // The part of the update that looks at the parents of idx.
    method MoveParents(idx: int, new_color: int, ghost g: Graph, ghost all: set<Flow>) returns (ghost s: set<Flow>)
      requires g == ecdag.nodes && Painted(g, coloring) && idx in g
      requires all == Transfers(g, coloring) && Counts(ins, outs, all)
      modifies `ins, `outs
      ensures Counts(ins, outs, s)
      ensures forall t :: t in s <==>
                if t.v == idx then
                  t.from == new_color && new_color != -1 && t.to != -1 && t.to != new_color && UsesOn(g, coloring, idx, t.to) > 0
                else t in all
    {
      ParentsPainted(g, coloring, idx);
      var old_color := coloring[idx];
      var list := DistinctColors(coloring, ecdag.nodes[idx].parents);
      ListIsUses(g, coloring, idx, list);
      s := all;
      var i := 0;
      while i < |list|
        invariant 0 <= i <= |list|
        invariant Counts(ins, outs, s)
        invariant ParentsDone(all, idx, new_color, list[..i], s)
      {
        var d := list[i];
        assert list[..i + 1] == list[..i] + [d] && d !in list[..i];
        assert d in list;
        ParentStep(g, coloring, all, idx, new_color, list[..i], d, s);
        i := i + 1;
        if d == -1 { continue; }
        if d != old_color && old_color != -1 {
          Dec(old_color, d, s, Flow(idx, old_color, d));
          s := s - {Flow(idx, old_color, d)};
        }
        if d != new_color && new_color != -1 {
          Inc(new_color, d, s, Flow(idx, new_color, d));
          s := s + {Flow(idx, new_color, d)};
        }
      }
      assert list[..|list|] == list;
    }

    // The colours of the parents of one child, counted one by one.
    method CountUses(c: int, color: int, ghost g: Graph) returns (count: nat)
      requires g == ecdag.nodes && Painted(g, coloring) && c in g
      ensures count == UsesOn(g, coloring, c, color)
    {
      ParentsPainted(g, coloring, c);
      var ps := ecdag.nodes[c].parents;
      ghost var cs := ParentColors(g, coloring, c);
      count := 0;
      var i := 0;
      while i < |ps|
        invariant 0 <= i <= |ps| && count == Count(cs[..i], color)
      {
        assert cs[..i + 1] == cs[..i] + [cs[i]];
        if coloring[ps[i]] == color { count := count + 1; }
        i := i + 1;
      }
      assert cs[..|cs|] == cs;
    }

    // ... and the part that looks at one child.
    method MoveChild(idx: int, new_color: int, c: int, ghost g: Graph, ghost s: set<Flow>) returns (ghost r: set<Flow>)
      requires g == ecdag.nodes && Painted(g, coloring) && idx in g && c in g[idx].children && c in g
      requires Counts(ins, outs, s) && forall t: Flow :: t.v == c ==> (t in s <==> Sent(g, coloring, t))
      modifies `ins, `outs
      ensures Counts(ins, outs, r)
      ensures forall t :: t in r <==> if t.v == c then InAfter(g, coloring, idx, new_color, t) else t in s
    {
      var old_color, child_color := coloring[idx], coloring[c];
      r := s;
      if child_color == -1 { return; }
      UsedByIdx(g, coloring, idx, c);
      if old_color != -1 {
        var count_old := CountUses(c, old_color, g);
        if count_old == 1 && old_color != child_color {
          Dec(child_color, old_color, r, Flow(c, child_color, old_color));
          r := r - {Flow(c, child_color, old_color)};
        }
      }
      var count_new := CountUses(c, new_color, g);
      if count_new == 0 && new_color != child_color {
        Inc(child_color, new_color, r, Flow(c, child_color, new_color));
        r := r + {Flow(c, child_color, new_color)};
      }
    }

    method MoveChildren(idx: int, new_color: int, ghost g: Graph, ghost base: set<Flow>) returns (ghost s: set<Flow>)
      requires g == ecdag.nodes && Painted(g, coloring) && idx in g && Counts(ins, outs, base)
      requires forall t: Flow :: t.v != idx ==> (t in base <==> Sent(g, coloring, t))
      requires forall t: Flow :: t.v == idx ==> (t in base <==> InAfter(g, coloring, idx, new_color, t))
      modifies `ins, `outs
      ensures Counts(ins, outs, s)
      ensures forall t :: t in s <==> InAfter(g, coloring, idx, new_color, t)
    {
      var children := ecdag.nodes[idx].children;
      s := base;
      var i := 0;
      while i < |children|
        invariant 0 <= i <= |children|
        invariant Counts(ins, outs, s)
        invariant forall t :: t in s <==> InChildren(g, coloring, idx, new_color, base, children[..i], t)
      {
        var c := children[i];
        assert children[..i + 1] == children[..i] + [c] && c !in children[..i];
        assert c in children && c in g && c != idx;
        s := MoveChild(idx, new_color, c, g, s);
        i := i + 1;
      }
      assert children[..|children|] == children;
    }

    // The update by hand keeps every counter right if and only if the call is
    // one it was written for.
    method ChangeColor(idx: int, new_color: int)
      requires Evaluated() && idx in ecdag.nodes
      modifies `coloring, `ins, `outs, `bdwt, `load
      ensures coloring == old(coloring)[idx := new_color]
      ensures Painted(ecdag.nodes, coloring)
      ensures Counts(ins, outs, After(ecdag.nodes, old(coloring), idx, new_color))
      ensures Exact(ecdag.nodes, old(coloring), idx, new_color) <==> Evaluated()
      ensures forall k :: Get(ins, k) >= 0 && Get(outs, k) >= 0
    {
      ghost var g, col := ecdag.nodes, coloring;
      ghost var base := MoveParents(idx, new_color, g, Transfers(g, coloring));
      ghost var s := MoveChildren(idx, new_color, g, base);
      SumUp(s);
      coloring := coloring[idx := new_color];
      UsesAfter(g, col, idx, new_color, idx, new_color);
      assert s == After(g, col, idx, new_color);
      Judge(g, col, idx, new_color, ins, outs, bdwt, load, s);
    }

    // --------------------------------------------- the same, in a load table

    // Copy the counters into a table of <out, in> rows, one per node.
    method LoadTable(size: nat) returns (table: seq<(int, int)>)
      requires (forall k :: k in ins ==> 0 <= k < size) && (forall k :: k in outs ==> 0 <= k < size)
      ensures |table| == size && forall k :: 0 <= k < size ==> table[k] == (Get(outs, k), Get(ins, k))
    {
      table := seq(size, _ => (0, 0));
      var todo := ins.Keys;
      while todo != {}
        invariant todo <= ins.Keys && |table| == size
        invariant forall k :: 0 <= k < size ==> table[k] == (0, if k in todo then 0 else Get(ins, k))
        decreases |todo|
      {
        NonEmpty(todo);
        var k :| k in todo;
        todo := todo - {k};
        table := table[k := (table[k].0, ins[k])];
      }
      todo := outs.Keys;
      while todo != {}
        invariant todo <= outs.Keys && |table| == size
        invariant forall k :: 0 <= k < size ==> table[k] == (if k in todo then 0 else Get(outs, k), Get(ins, k))
        decreases |todo|
      {
        NonEmpty(todo);
        var k :| k in todo;
        todo := todo - {k};
        table := table[k := (outs[k], table[k].1)];
      }
    }

    method ShiftParents(table0: seq<(int, int)>, idx: int, new_color: int, ghost g: Graph, ghost all: set<Flow>)
      returns (table: seq<(int, int)>, ghost s: set<Flow>)
      requires g == ecdag.nodes && Painted(g, coloring) && idx in g && all == Transfers(g, coloring)
      requires 0 <= new_color < |table0| && forall v :: v in coloring ==> -1 <= coloring[v] < |table0|
      requires TableCounts(table0, all)
      ensures |table| == |table0| && TableCounts(table, s)
      ensures forall t :: t in s <==>
                if t.v == idx then
                  t.from == new_color && t.to != -1 && t.to != new_color && UsesOn(g, coloring, idx, t.to) > 0
                else t in all
    {
      ParentsPainted(g, coloring, idx);
      var old_color := coloring[idx];
      var list := DistinctColors(coloring, ecdag.nodes[idx].parents);
      ColorsInRange(g, coloring, idx, list, |table0|);
      ListIsUses(g, coloring, idx, list);
      table, s := table0, all;
      var i := 0;
      while i < |list|
        invariant 0 <= i <= |list| && |table| == |table0|
        invariant TableCounts(table, s)
        invariant ParentsDone(all, idx, new_color, list[..i], s)
      {
        var d := list[i];
        assert list[..i + 1] == list[..i] + [d] && d !in list[..i];
        assert d in list;
        ParentStep(g, coloring, all, idx, new_color, list[..i], d, s);
        i := i + 1;
        if d == -1 { continue; }
        if d != old_color && old_color != -1 {
          table := Shift(table, old_color, d, -1, s, Flow(idx, old_color, d));
          s := s - {Flow(idx, old_color, d)};
        }
        if d != new_color {
          table := Shift(table, new_color, d, 1, s, Flow(idx, new_color, d));
          s := s + {Flow(idx, new_color, d)};
        }
      }
      assert list[..|list|] == list;
    }

    method ShiftChild(table0: seq<(int, int)>, idx: int, new_color: int, c: int, ghost g: Graph, ghost s: set<Flow>)
      returns (table: seq<(int, int)>, ghost r: set<Flow>)
      requires g == ecdag.nodes && Painted(g, coloring) && idx in g && c in g[idx].children && c in g
      requires 0 <= new_color < |table0| && forall v :: v in coloring ==> -1 <= coloring[v] < |table0|
      requires TableCounts(table0, s) && forall t: Flow :: t.v == c ==> (t in s <==> Sent(g, coloring, t))
      ensures |table| == |table0| && TableCounts(table, r)
      ensures forall t :: t in r <==> if t.v == c then InAfter(g, coloring, idx, new_color, t) else t in s
    {
      var old_color, child_color := coloring[idx], coloring[c];
      table, r := table0, s;
      if child_color == -1 { return; }
      UsedByIdx(g, coloring, idx, c);
      if old_color != -1 {
        var count_old := CountUses(c, old_color, g);
        if count_old == 1 && old_color != child_color {
          table := Shift(table, child_color, old_color, -1, r, Flow(c, child_color, old_color));
          r := r - {Flow(c, child_color, old_color)};
        }
      }
      var count_new := CountUses(c, new_color, g);
      if count_new == 0 && new_color != child_color {
        table := Shift(table, child_color, new_color, 1, r, Flow(c, child_color, new_color));
        r := r + {Flow(c, child_color, new_color)};
      }
    }

    method ShiftChildren(table0: seq<(int, int)>, idx: int, new_color: int, ghost g: Graph, ghost base: set<Flow>)
      returns (table: seq<(int, int)>, ghost s: set<Flow>)
      requires g == ecdag.nodes && Painted(g, coloring) && idx in g && TableCounts(table0, base)
      requires 0 <= new_color < |table0| && forall v :: v in coloring ==> -1 <= coloring[v] < |table0|
      requires forall t: Flow :: t.v != idx ==> (t in base <==> Sent(g, coloring, t))
      requires forall t: Flow :: t.v == idx ==> (t in base <==> InAfter(g, coloring, idx, new_color, t))
      ensures |table| == |table0| && TableCounts(table, s)
      ensures forall t :: t in s <==> InAfter(g, coloring, idx, new_color, t)
    {
      var children := ecdag.nodes[idx].children;
      table, s := table0, base;
      var i := 0;
      while i < |children|
        invariant 0 <= i <= |children| && |table| == |table0|
        invariant TableCounts(table, s)
        invariant forall t :: t in s <==> InChildren(g, coloring, idx, new_color, base, children[..i], t)
      {
        var c := children[i];
        assert children[..i + 1] == children[..i] + [c] && c !in children[..i];
        assert c in children && c in g && c != idx;
        table, s := ShiftChild(table, idx, new_color, c, g, s);
        i := i + 1;
      }
      assert children[..|children|] == children;
    }

    // The rows after a change that is not made: the stripe stays as it is,
    // and the rows are a full recount exactly when the update is right for it.
    method EvaluateChange(size: nat, idx: int, new_color: int) returns (table: seq<(int, int)>)
      requires Evaluated() && idx in ecdag.nodes && 0 <= new_color < size
      requires forall v :: v in coloring ==> -1 <= coloring[v] < size
      requires (forall k :: k in ins ==> 0 <= k < size) && (forall k :: k in outs ==> 0 <= k < size)
      ensures |table| == size && TableCounts(table, After(ecdag.nodes, coloring, idx, new_color))
      ensures Painted(ecdag.nodes, coloring[idx := new_color])
      ensures Exact(ecdag.nodes, coloring, idx, new_color) <==>
                TableCounts(table, Transfers(ecdag.nodes, coloring[idx := new_color]))
    {
      ghost var g := ecdag.nodes;
      table := LoadTable(size);
      CountersFillTable(table, ins, outs, Transfers(g, coloring));
      ghost var base, s;
      table, base := ShiftParents(table, idx, new_color, g, Transfers(g, coloring));
      table, s := ShiftChildren(table, idx, new_color, g, base);
      assert s == After(g, coloring, idx, new_color);
      ExactAfter(g, coloring, idx, new_color);
      JudgeTable(g, coloring, idx, new_color, table, s);
    }

    // The transfers of this stripe on top of what a table shared by all
    // stripes holds already.
    method EvalColoringGlobal(loadTable: seq<(int, int)>) returns (table: seq<(int, int)>)
      requires Painted(ecdag.nodes, coloring) && coloring.Keys == ecdag.nodes.Keys
      requires forall v :: v in coloring ==> -1 <= coloring[v] < |loadTable|
      ensures AddedTo(loadTable, table, Transfers(ecdag.nodes, coloring))
    {
      ghost var g := ecdag.nodes;
      table := loadTable;
      ghost var s: set<Flow> := {};
      var todo := coloring.Keys;
      while todo != {}
        invariant todo <= coloring.Keys && AddedTo(loadTable, table, s)
        invariant forall t :: t in s <==> t.v !in todo && Sent(g, coloring, t)
        decreases |todo|
      {
        NonEmpty(todo);
        var v :| v in todo;
        todo := todo - {v};
        if coloring[v] == -1 { continue; }
        table, s := AddVertex(loadTable, table, v, g, s);
      }
      assert s == Transfers(g, coloring);
    }

    method AddVertex(ghost before: seq<(int, int)>, table0: seq<(int, int)>, v: int, ghost g: Graph, ghost s: set<Flow>)
      returns (table: seq<(int, int)>, ghost r: set<Flow>)
      requires g == ecdag.nodes && Painted(g, coloring) && v in g && coloring[v] != -1
      requires forall u :: u in coloring ==> -1 <= coloring[u] < |table0|
      requires AddedTo(before, table0, s) && forall t :: t in s ==> t.v != v
      ensures AddedTo(before, table, r)
      ensures forall t :: t in r <==> t in s || (t.v == v && Sent(g, coloring, t))
    {
      ParentsPainted(g, coloring, v);
      var mine := coloring[v];
      var list := DistinctColors(coloring, ecdag.nodes[v].parents);
      ColorsInRange(g, coloring, v, list, |table0|);
      table, r := table0, s;
      var i := 0;
      while i < |list|
        invariant 0 <= i <= |list| && AddedTo(before, table, r)
        invariant forall t :: t in r <==> t in s || (t.v == v && t.to in list[..i] && Sent(g, coloring, t))
      {
        var d := list[i];
        assert list[..i + 1] == list[..i] + [d] && d !in list[..i];
        assert d in list;
        if mine != d && d != -1 {
          table := AddOne(before, table, mine, d, r, Flow(v, mine, d));
          r := r + {Flow(v, mine, d)};
        }
        i := i + 1;
      }
      assert list[..|list|] == list;
    }

    // Any number of updates, each to a node other than the present one.
    method ChangeColors(changes: seq<(int, int)>)
      requires Evaluated() && Proper(ecdag.nodes, coloring, changes)
      modifies `coloring, `ins, `outs, `bdwt, `load
      ensures coloring == Recolored(old(coloring), changes) && Evaluated()
    {
      var i := 0;
      ghost var col := coloring;
      assert changes[0..] == changes;
      while i < |changes|
        invariant 0 <= i <= |changes| && Evaluated()
        invariant Proper(ecdag.nodes, coloring, changes[i..])
        invariant Recolored(coloring, changes[i..]) == Recolored(col, changes)
      {
        assert changes[i..][1..] == changes[i + 1..] && changes[i..][0] == changes[i];
        ChangeColor(changes[i].0, changes[i].1);
        i := i + 1;
      }
    }
  }

  function Recolored(col: map<int, int>, changes: seq<(int, int)>): map<int, int>
    decreases changes
  {
    if changes == [] then col else Recolored(col[changes[0].0 := changes[0].1], changes[1..])
  }

  predicate Proper(g: Graph, col: map<int, int>, changes: seq<(int, int)>)
    decreases changes
  {
    changes == [] ||
    (changes[0].0 in g && changes[0].0 in col && changes[0].1 != -1 && changes[0].1 != col[changes[0].0]
     && Proper(g, col[changes[0].0 := changes[0].1], changes[1..]))
  }

  // One transfer more (delta 1) or less (delta -1) in the table.
  method Shift(table: seq<(int, int)>, from: int, to: int, delta: int, ghost s: set<Flow>, ghost t: Flow)
    returns (r: seq<(int, int)>)
    requires 0 <= from < |table| && 0 <= to < |table| && from != to && t.from == from && t.to == to
    requires TableCounts(table, s) && ((delta == 1 && t !in s) || (delta == -1 && t in s))
    ensures |r| == |table| && TableCounts(r, if delta == 1 then s + {t} else s - {t})
  {
    r := table[from := (table[from].0 + delta, table[from].1)];
    r := r[to := (r[to].0, r[to].1 + delta)];
    if delta == 1 { FlowAdded(s, t); } else { FlowRemoved(s, t); }
  }

  method AddOne(ghost before: seq<(int, int)>, table: seq<(int, int)>, from: int, to: int, ghost s: set<Flow>, ghost t: Flow)
    returns (r: seq<(int, int)>)
    requires 0 <= from < |table| && 0 <= to < |table| && from != to && t.from == from && t.to == to
    requires AddedTo(before, table, s) && t !in s
    ensures AddedTo(before, r, s + {t})
  {
    r := table[from := (table[from].0 + 1, table[from].1)];
    r := r[to := (r[to].0, r[to].1 + 1)];
    FlowAdded(s, t);
  }

  ghost function After(g: Graph, col: map<int, int>, idx: int, new_: int): (r: set<Flow>)
    requires Painted(g, col) && idx in g
    ensures forall t :: t in r <==> InAfter(g, col, idx, new_, t)
  {
    var own := set d | d in Colors(g, col, idx) :: Flow(idx, new_, d);
    var below := set c | c in g[idx].children && c in col :: Flow(c, col[c], new_);
    var all := Transfers(g, col) + own + below;
    forall t | InAfter(g, col, idx, new_, t) ensures t in all {
      if t.v == idx { assert t.to in Colors(g, col, idx); }
    }
    set t | t in all && InAfter(g, col, idx, new_, t)
  }

  lemma ExactAfter(g: Graph, col: map<int, int>, idx: int, new_: int)
    requires Painted(g, col) && idx in g
    ensures Painted(g, col[idx := new_])
    ensures Exact(g, col, idx, new_) ==> After(g, col, idx, new_) == Transfers(g, col[idx := new_])
  {
    UsesAfter(g, col, idx, new_, idx, new_);
    if Exact(g, col, idx, new_) {
      forall t ensures t in After(g, col, idx, new_) <==> t in Transfers(g, col[idx := new_]) {
        AfterIsTransfers(g, col, idx, new_, t);
      }
    }
  }

  lemma ColorsInRange(g: Graph, col: map<int, int>, v: int, list: seq<int>, size: nat)
    requires Painted(g, col) && v in g && forall u :: u in col ==> -1 <= col[u] < size
    requires forall d :: d in list <==> d in Colors(g, col, v)
    ensures forall i :: 0 <= i < |list| ==> -1 <= list[i] < size
  {
    ParentsPainted(g, col, v);
    var cs := Colors(g, col, v);
    forall i | 0 <= i < |list| ensures -1 <= list[i] < size {
      var d := list[i];
      assert d in list && d in cs;
      var k :| 0 <= k < |cs| && cs[k] == d;
      var p := g[v].parents[k];
      assert p in col && d == col[p];
    }
  }

  lemma CountersFillTable(table: seq<(int, int)>, ins: map<int, int>, outs: map<int, int>, s: set<Flow>)
    requires Counts(ins, outs, s)
    requires forall k :: 0 <= k < |table| ==> table[k] == (Get(outs, k), Get(ins, k))
    ensures TableCounts(table, s)
  {
  }

  // bdwt is the number of transfers, load the largest counter.
  ghost predicate Summed(ins: map<int, int>, outs: map<int, int>, bdwt: int, load: int, s: set<Flow>) {
    && bdwt == |s|
    && (forall d {:trigger Get(ins, d)} :: Get(ins, d) <= load)
    && (forall c {:trigger Get(outs, c)} :: Get(outs, c) <= load)
    && (load == 0 || (exists d :: load == Get(ins, d)) || (exists c :: load == Get(outs, c)))
  }

  lemma ListIsUses(g: Graph, col: map<int, int>, v: int, list: seq<int>)
    requires Painted(g, col) && v in g
    requires forall d :: d in list <==> d in Colors(g, col, v)
    ensures forall d :: d in list <==> UsesOn(g, col, v, d) > 0
  {
  }

  lemma Judge(g: Graph, col: map<int, int>, idx: int, new_: int, ins: map<int, int>, outs: map<int, int>,
              bdwt: int, load: int, s: set<Flow>)
    requires Painted(g, col) && idx in g && Painted(g, col[idx := new_])
    requires Counts(ins, outs, s) && Summed(ins, outs, bdwt, load, s)
    requires forall t :: t in s <==> InAfter(g, col, idx, new_, t)
    ensures var after := Transfers(g, col[idx := new_]);
      Exact(g, col, idx, new_) <==> Counts(ins, outs, after) && Summed(ins, outs, bdwt, load, after)
  {
    var after := Transfers(g, col[idx := new_]);
    if Exact(g, col, idx, new_) {
      forall t ensures t in s <==> t in after { AfterIsTransfers(g, col, idx, new_, t); }
      assert s == after;
    } else {
      var d := InexactMiscounts(g, col, idx, new_, s);
      assert Get(ins, d) == In(s, d);
    }
  }

  lemma JudgeTable(g: Graph, col: map<int, int>, idx: int, new_: int, table: seq<(int, int)>, s: set<Flow>)
    requires Painted(g, col) && idx in g && 0 <= new_ < |table| && TableCounts(table, s)
    requires forall t :: t in s <==> InAfter(g, col, idx, new_, t)
    ensures Painted(g, col[idx := new_])
    ensures !Exact(g, col, idx, new_) ==> !TableCounts(table, Transfers(g, col[idx := new_]))
  {
    UsesAfter(g, col, idx, new_, idx, new_);
    if !Exact(g, col, idx, new_) {
      var d := InexactMiscounts(g, col, idx, new_, s);
      assert table[d].1 == In(s, d);
    }
  }

  // The rows of before, and the transfers of s on top.
  ghost predicate AddedTo(before: seq<(int, int)>, table: seq<(int, int)>, s: set<Flow>) {
    && |table| == |before|
    && forall k :: 0 <= k < |table| ==> table[k] == (before[k].0 + Out(s, k), before[k].1 + In(s, k))
  }

  ghost predicate TableCounts(table: seq<(int, int)>, s: set<Flow>) {
    forall k :: 0 <= k < |table| ==> table[k].0 == Out(s, k) && table[k].1 == In(s, k)
  }
}
