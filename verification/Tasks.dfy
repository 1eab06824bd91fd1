// Stripe::genRepairTasks as a plan: which task each node gets for each level
// of a coloured ECDAG.
module Tasks {
  import opened Util
  import opened GF
  import opened Dag
  import opened EcDag

  // ------------------------------------------------------------------ colours

  // Values in the order of their first occurrence.
  function Distinct(s: seq<int>): (r: seq<int>)
    ensures NoDup(r)
    ensures forall x :: x in r <==> x in s
  {
    if s == [] then []
    else
      var n := |s| - 1;
      var r := Distinct(s[..n]);
      assert s == s[..n] + [s[n]];
      if s[n] in r then r else r + [s[n]]
  }

  // A value is listed before another exactly when it occurs first.
  lemma {:induction false} FirstComeFirst(s: seq<int>, i: nat, j: nat)
    requires i < j < |Distinct(s)|
    ensures exists a: nat :: a < |s| && s[a] == Distinct(s)[i] && Distinct(s)[j] !in s[..a + 1]
  {
    var n := |s| - 1;
    var r := Distinct(s[..n]);
    assert s == s[..n] + [s[n]];
    if j < |r| {
      FirstComeFirst(s[..n], i, j);
      var a: nat :| a < n && s[..n][a] == r[i] && r[j] !in s[..n][..a + 1];
      assert s[..n][..a + 1] == s[..a + 1];
    } else {
      assert r[i] in r && r[i] in s[..n];
      var a: nat :| a < n && s[..n][a] == r[i];
      assert s[n] !in s[..n];
      assert forall k :: 0 <= k < a + 1 ==> s[..a + 1][k] == s[..n][k];
    }
  }

  function Drop(s: seq<int>, x: int): (r: seq<int>)
    requires NoDup(s)
    ensures NoDup(r)
    ensures forall y :: y in r <==> y in s && y != x
  {
    if s == [] then []
    else
      var n := |s| - 1;
      assert s == s[..n] + [s[n]] && s[n] !in s[..n];
      var r := Drop(s[..n], x);
      if s[n] == x then r else r + [s[n]]
  }

  function ColorsOf(col: map<int, int>, vs: seq<int>): (r: seq<int>)
    requires forall i :: 0 <= i < |vs| ==> vs[i] in col
    ensures |r| == |vs| && forall i :: 0 <= i < |vs| ==> r[i] == col[vs[i]]
  {
    seq(|vs|, i requires 0 <= i < |vs| => col[vs[i]])
  }

  // The loop with std::find that collects the distinct colours of a list.
  method DistinctColors(col: map<int, int>, vs: seq<int>) returns (list: seq<int>)
    requires forall i :: 0 <= i < |vs| ==> vs[i] in col
    ensures list == Distinct(ColorsOf(col, vs))
  {
    list := [];
    ghost var cs := ColorsOf(col, vs);
    var i := 0;
    while i < |vs|
      invariant 0 <= i <= |vs|
      invariant list == Distinct(cs[..i])
    {
      assert cs[..i + 1][..i] == cs[..i] && cs[..i + 1] == cs[..i] + [cs[i]];
      var color := col[vs[i]];
      if color !in list { list := list + [color]; }
      i := i + 1;
    }
    assert cs[..|cs|] == cs;
  }

  // A coloured DAG cut into levels, with the code parameters n and w.
  datatype Job = Job(g: Graph, col: map<int, int>, levels: seq<seq<int>>, n: nat, w: nat)

  // Every index that the job mentions is coloured and in the graph.
  ghost predicate Closed(j: Job) {
    && j.w > 0
    && (forall v :: v in j.g ==> v in j.col)
    && Linked(j.g)
    && (forall l, i :: 0 <= l < |j.levels| && 0 <= i < |j.levels[l]| ==> j.levels[l][i] in j.g)
  }

  // The distinct colours of the parents of v: the nodes that use v.
  function Users(j: Job, v: int): (r: seq<int>)
    requires Closed(j) && v in j.g
    ensures NoDup(r)
  {
    ParentsKnown(j, v);
    Distinct(ColorsOf(j.col, j.g[v].parents))
  }

  lemma ParentsKnown(j: Job, v: int)
    requires Closed(j) && v in j.g
    ensures forall i :: 0 <= i < |j.g[v].parents| ==> j.g[v].parents[i] in j.g
    ensures forall i :: 0 <= i < |j.g[v].parents| ==> j.g[v].parents[i] in j.col
  {
    forall i | 0 <= i < |j.g[v].parents|
      ensures j.g[v].parents[i] in j.g && j.g[v].parents[i] in j.col
    {
      var p := j.g[v].parents[i];
      assert p in j.g[v].parents && p in j.g;
    }
  }

  // ... and those among them that are not v's own node.
  function Remote(j: Job, v: int): (r: seq<int>)
    requires Closed(j) && v in j.g
    ensures NoDup(r)
    ensures forall c :: c in r <==> c in Users(j, v) && c != j.col[v]
  {
    Drop(Users(j, v), j.col[v])
  }

  // v is used on node c.
  predicate UsedAt(j: Job, v: int, c: int)
    requires Closed(j) && v in j.g
  {
    c in Users(j, v)
  }

  lemma UsedAtParent(j: Job, v: int, c: int)
    requires Closed(j) && v in j.g
    ensures UsedAt(j, v, c) <==> exists p :: p in j.g[v].parents && p in j.col && j.col[p] == c
  {
    ParentsKnown(j, v);
    var ps := j.g[v].parents;
    var cs := ColorsOf(j.col, ps);
    if c in cs {
      var i :| 0 <= i < |cs| && cs[i] == c;
      var p := ps[i];
      assert p in ps && p in j.col && j.col[p] == c;
    }
    if p :| p in ps && p in j.col && j.col[p] == c {
      var i :| 0 <= i < |ps| && ps[i] == p;
      assert cs[i] == c;
    }
  }

  // -------------------------------------------------------------------- tasks

  datatype Item = Item(dst: int, srcs: seq<int>, coefs: seq<int>, same: bool, diff: bool)

  datatype Task =
    | ReadBlock(blk: int, list: seq<int>, usage: seq<(bool, bool)>)
    | ReadZero(list: seq<int>)
    | Send(list: seq<int>, dests: seq<seq<int>>)
    | Recv(list: seq<int>)
    | Compute(items: seq<Item>)
    | Persist(list: seq<int>, blk: int)

  datatype Kind = KZero | KCalc | KSend | KRecv

  // A task by what it is for: the read of a block, the work of one kind for
  // one level on one node, or the file of a root.
  datatype Key = KRead(b: int) | KWork(k: Kind, l: nat, c: int) | KRoot(r: int)

  // At level 0 a sub-packet is real when its block exists; above, when its
  // colour is a node.
  predicate Active(j: Job, l: nat, v: int)
    requires j.w > 0 && v in j.col
  {
    if l == 0 then v / j.w < j.n else j.col[v] != -1
  }

  predicate Chosen(j: Job, k: Kind, l: nat, c: int, v: int)
    requires Closed(j) && v in j.g
  {
    match k
    case KZero => !Active(j, l, v) && c != -1 && UsedAt(j, v, c)
    case KCalc => l > 0 && Active(j, l, v) && j.col[v] == c
    case KSend => Active(j, l, v) && j.col[v] == c && Remote(j, v) != []
    case KRecv => Active(j, l, v) && c in Remote(j, v)
  }

  function Pick(j: Job, k: Kind, l: nat, c: int, s: seq<int>): seq<int>
    requires Closed(j) && forall i :: 0 <= i < |s| ==> s[i] in j.g
  {
    if s == [] then []
    else
      var n := |s| - 1;
      Pick(j, k, l, c, s[..n]) + if Chosen(j, k, l, c, s[n]) then [s[n]] else []
  }

  lemma {:induction false} PickMembers(j: Job, k: Kind, l: nat, c: int, s: seq<int>)
    requires Closed(j) && forall i :: 0 <= i < |s| ==> s[i] in j.g
    ensures forall v :: v in Pick(j, k, l, c, s) <==> v in s && v in j.g && Chosen(j, k, l, c, v)
    ensures NoDup(s) ==> NoDup(Pick(j, k, l, c, s))
  {
    if s != [] {
      var n := |s| - 1;
      PickMembers(j, k, l, c, s[..n]);
      assert forall v :: v in s <==> v in s[..n] || v == s[n] by { assert s == s[..n] + [s[n]]; }
      if NoDup(s) { assert s[n] !in s[..n]; }
    }
  }

  predicate InGraph(j: Job, s: seq<int>) {
    forall i :: 0 <= i < |s| ==> s[i] in j.g
  }

  function Work(j: Job, k: Kind, l: nat, c: int): (r: seq<int>)
    requires Closed(j) && l < |j.levels|
    ensures InGraph(j, r)
  {
    assert InGraph(j, j.levels[l]);
    PickMembers(j, k, l, c, j.levels[l]);
    PickInGraph(j, k, l, c, j.levels[l]);
    Pick(j, k, l, c, j.levels[l])
  }

  lemma {:induction false} PickInGraph(j: Job, k: Kind, l: nat, c: int, s: seq<int>)
    requires Closed(j) && InGraph(j, s)
    ensures InGraph(j, Pick(j, k, l, c, s))
  {
    if s != [] { PickInGraph(j, k, l, c, s[..|s| - 1]); }
  }

  // <used on its own node, used on another node>
  function Usage(j: Job, v: int): (bool, bool)
    requires Closed(j) && v in j.g
  {
    (UsedAt(j, v, j.col[v]), Remote(j, v) != [])
  }

  function Usages(j: Job, s: seq<int>): (r: seq<(bool, bool)>)
    requires Closed(j) && InGraph(j, s)
    ensures |r| == |s| && forall i :: 0 <= i < |s| ==> r[i] == Usage(j, s[i])
  {
    seq(|s|, i requires 0 <= i < |s| => Usage(j, s[i]))
  }

  function Destinations(j: Job, s: seq<int>): (r: seq<seq<int>>)
    requires Closed(j) && InGraph(j, s)
    ensures |r| == |s| && forall i :: 0 <= i < |s| ==> r[i] == Remote(j, s[i])
  {
    seq(|s|, i requires 0 <= i < |s| => Remote(j, s[i]))
  }

  function ItemOf(j: Job, v: int): Item
    requires Closed(j) && v in j.g
  {
    Item(v, j.g[v].children, j.g[v].coefs, Usage(j, v).0, Usage(j, v).1)
  }

  function Items(j: Job, s: seq<int>): (r: seq<Item>)
    requires Closed(j) && InGraph(j, s)
    ensures |r| == |s| && forall i :: 0 <= i < |s| ==> r[i] == ItemOf(j, s[i])
  {
    seq(|s|, i requires 0 <= i < |s| => ItemOf(j, s[i]))
  }

  // ----------------------------------------------------------- reading blocks

  // The leaves of block b, in the order in which level 0 lists them.
  function BlockLeaves(j: Job, b: int, s: seq<int>): (r: seq<int>)
    requires j.w > 0
    ensures forall v :: v in r <==> v in s && v / j.w == b
    ensures NoDup(s) ==> NoDup(r)
  {
    if s == [] then []
    else
      var n := |s| - 1;
      assert s == s[..n] + [s[n]];
      assert NoDup(s) ==> s[n] !in s[..n];
      BlockLeaves(j, b, s[..n]) + if s[n] / j.w == b then [s[n]] else []
  }

  predicate Increasing(s: seq<int>) {
    forall a, b :: 0 <= a < b < |s| ==> s[a] <= s[b]
  }

  function Insert(s: seq<int>, x: int): (r: seq<int>)
    requires Increasing(s)
    ensures Increasing(r) && multiset(r) == multiset(s) + multiset{x}
  {
    if s == [] then [x]
    else
      var n := |s| - 1;
      assert s == s[..n] + [s[n]];
      if s[n] <= x then s + [x]
      else
        var r := Insert(s[..n], x);
        NoneAbove(s, x, r);
        r + [s[n]]
  }

  lemma NoneAbove(s: seq<int>, x: int, r: seq<int>)
    requires s != [] && Increasing(s) && x < s[|s| - 1] && multiset(r) == multiset(s[..|s| - 1]) + multiset{x}
    ensures forall a :: 0 <= a < |r| ==> r[a] <= s[|s| - 1]
  {
    var n := |s| - 1;
    forall a | 0 <= a < |r| ensures r[a] <= s[n] {
      assert r[a] in multiset(r);
      assert r[a] == x || r[a] in s[..n];
    }
  }

  // std::sort on integers.
  function Sorted(s: seq<int>): (r: seq<int>)
    ensures Increasing(r) && multiset(r) == multiset(s)
  {
    if s == [] then []
    else
      var n := |s| - 1;
      assert s == s[..n] + [s[n]];
      Insert(Sorted(s[..n]), s[n])
  }

  lemma SortedMembers(s: seq<int>)
    ensures |Sorted(s)| == |s|
    ensures forall v :: v in Sorted(s) <==> v in s
    ensures NoDup(s) ==> NoDup(Sorted(s))
  {
    var r := Sorted(s);
    assert |multiset(r)| == |multiset(s)|;
    forall v ensures v in r <==> v in s {
      assert v in multiset(r) <==> v in multiset(s);
    }
    if NoDup(s) {
      forall a, b | 0 <= a < b < |r| ensures r[a] != r[b] {
        if r[a] == r[b] { Twice(r, a, b); Once(s, r[a]); }
      }
    }
  }

  // ------------------------------------------------------------------ the plan

  predicate Present(j: Job, key: Key)
    requires Closed(j)
  {
    |j.levels| >= 2 &&
    match key
    case KRead(b) => 0 <= b < j.n && BlockLeaves(j, b, j.levels[0]) != []
    case KWork(k, l, c) => l < |j.levels| - 1 && Work(j, k, l, c) != []
    case KRoot(r) => r in j.levels[|j.levels| - 1] && r in j.g
  }

  function ReadList(j: Job, b: int): (r: seq<int>)
    requires Closed(j) && |j.levels| > 0
    ensures InGraph(j, r)
    ensures forall v :: v in r <==> v in j.levels[0] && v / j.w == b
    ensures NoDup(j.levels[0]) ==> NoDup(r)
  {
    var s := BlockLeaves(j, b, j.levels[0]);
    SortedMembers(s);
    assert InGraph(j, Sorted(s)) by {
      forall i | 0 <= i < |Sorted(s)| ensures Sorted(s)[i] in j.g {
        var v := Sorted(s)[i];
        assert v in Sorted(s) && v in j.levels[0];
        var k :| 0 <= k < |j.levels[0]| && j.levels[0][k] == v;
      }
    }
    Sorted(s)
  }

  function TaskAt(j: Job, key: Key): Task
    requires Closed(j) && Present(j, key)
  {
    match key
    case KRead(b) => ReadBlock(b, ReadList(j, b), Usages(j, ReadList(j, b)))
    case KWork(KZero, l, c) => ReadZero(Work(j, KZero, l, c))
    case KWork(KCalc, l, c) => Compute(Items(j, Work(j, KCalc, l, c)))
    case KWork(KSend, l, c) => Send(Work(j, KSend, l, c), Destinations(j, Work(j, KSend, l, c)))
    case KWork(KRecv, l, c) => Recv(Work(j, KRecv, l, c))
    case KRoot(r) => Persist(j.g[r].children, REQUESTOR - r)
  }

  function NodeAt(j: Job, key: Key): int
    requires Closed(j) && Present(j, key)
  {
    match key
    case KRead(b) =>
      FirstLeaf(j, b);
      j.col[BlockLeaves(j, b, j.levels[0])[0]]
    case KWork(k, l, c) => c
    case KRoot(r) => j.col[r]
  }

  lemma FirstLeaf(j: Job, b: int)
    requires Closed(j) && Present(j, KRead(b))
    ensures BlockLeaves(j, b, j.levels[0])[0] in j.g
    ensures BlockLeaves(j, b, j.levels[0])[0] in ReadList(j, b)
  {
    var s := BlockLeaves(j, b, j.levels[0]);
    var v := s[0];
    assert v in s;
    var k :| 0 <= k < |j.levels[0]| && j.levels[0][k] == v;
  }

  // Every generated task once, in some order.
  ghost predicate Complete(j: Job, keys: seq<Key>)
    requires Closed(j)
  {
    && NoDup(keys)
    && (forall i :: 0 <= i < |keys| ==> Present(j, keys[i]))
    && (forall key {:trigger key in keys} :: Present(j, key) ==> key in keys)
  }
}
