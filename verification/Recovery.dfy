// From the decoding DAG of a code to the files the nodes write:
// Stripe::genRepairECDAG, Stripe::refreshECDAG, and what the whole repair of
// a stripe gives.
module Recovery {
  import opened Util
  import opened GF
  import opened Dag
  import opened Join
  import opened EcDag
  import opened Decoding
  import P = Planes
  import opened Tasks
  import N = Network
  import opened Programs
  import opened Sites
  import opened Execution

  // ------------------------------------------------------- the lost blocks

  // The sub-packets of block b, in order.
  function Chunk(b: int, w: nat): seq<int> { Span(b * w, w) }

  function Span(a: int, n: nat): (r: seq<int>)
    ensures |r| == n && forall o :: 0 <= o < n ==> r[o] == a + o
  {
    seq(n, o => a + o)
  }

  function Chunks(blocks: seq<int>, w: nat): seq<int> {
    if blocks == [] then [] else Chunks(blocks[..|blocks| - 1], w) + Chunk(blocks[|blocks| - 1], w)
  }

  // The first n blocks whose node failed, or did not.
  function Placed(nodelist: seq<int>, failed: seq<int>, fails: bool, n: nat): seq<int>
    requires n <= |nodelist|
  {
    if n == 0 then []
    else
      var r := Placed(nodelist, failed, fails, n - 1);
      if (nodelist[n - 1] in failed) == fails then r + [n - 1] else r
  }

  lemma {:induction false} PlacedIs(nodelist: seq<int>, failed: seq<int>, fails: bool, n: nat)
    requires n <= |nodelist|
    ensures NoDup(Placed(nodelist, failed, fails, n)) && Increasing(Placed(nodelist, failed, fails, n))
    ensures forall b :: b in Placed(nodelist, failed, fails, n) <==> 0 <= b < n && (nodelist[b] in failed) == fails
  {
    if n > 0 {
      PlacedIs(nodelist, failed, fails, n - 1);
      var r := Placed(nodelist, failed, fails, n - 1);
      forall i | 0 <= i < |r| ensures r[i] < n - 1 { assert r[i] in r; }
    }
  }

  lemma ChunksNext(blocks: seq<int>, b: int, w: nat)
    ensures Chunks(blocks + [b], w) == Chunks(blocks, w) + Chunk(b, w)
  {
    assert (blocks + [b])[..|blocks|] == blocks;
  }

  // Sub-packet o of the k-th block stands at place k * w + o, and nothing else
  // is listed.
  lemma {:induction false} ChunksAt(blocks: seq<int>, w: nat, k: nat, o: nat)
    requires k < |blocks| && o < w
    ensures |Chunks(blocks, w)| == |blocks| * w
    ensures k * w + o < |Chunks(blocks, w)| && Chunks(blocks, w)[k * w + o] == blocks[k] * w + o
  {
    var n := |blocks| - 1;
    var front := blocks[..n];
    ChunksLength(blocks, w);
    ChunksLength(front, w);
    if k < n { ChunksAt(front, w, k, o); }
  }

  lemma {:induction false} ChunksLength(blocks: seq<int>, w: nat)
    ensures |Chunks(blocks, w)| == |blocks| * w
  {
    if blocks != [] {
      var n := |blocks| - 1;
      ChunksLength(blocks[..n], w);
      assert |blocks| * w == n * w + w;
    }
  }

  method ListBlocks(nodelist: seq<int>, failed: seq<int>, w: nat) returns (from: seq<int>, to: seq<int>, lost: seq<int>)
    ensures Increasing(lost) && NoDup(lost) && forall b :: b in lost <==> 0 <= b < |nodelist| && nodelist[b] in failed
    ensures lost == Placed(nodelist, failed, true, |nodelist|)
    ensures to == Chunks(lost, w) && from == Chunks(Placed(nodelist, failed, false, |nodelist|), w)
  {
    PlacedIs(nodelist, failed, true, |nodelist|);
    from, to, lost := [], [], [];
    var b := 0;
    while b < |nodelist|
      invariant 0 <= b <= |nodelist| && lost == Placed(nodelist, failed, true, b)
      invariant to == Chunks(lost, w) && from == Chunks(Placed(nodelist, failed, false, b), w)
    {
      var chunk := ListBlock(b, w);
      if nodelist[b] in failed {
        ChunksNext(lost, b, w);
        to, lost := to + chunk, lost + [b];
      } else {
        ChunksNext(Placed(nodelist, failed, false, b), b, w);
        from := from + chunk;
      }
      b := b + 1;
    }
  }

  method ListBlock(b: int, w: nat) returns (chunk: seq<int>)
    ensures chunk == Chunk(b, w)
  {
    chunk := [];
    var offset := 0;
    while offset < w
      invariant 0 <= offset <= w && chunk == Chunk(b, w)[..offset]
    {
      chunk := chunk + [b * w + offset];
      offset := offset + 1;
    }
  }

  // --------------------------------------- one root per lost block

  lemma {:induction false} BlockOfSum(a: seq<int>, c: seq<int>, b: int, w: int)
    requires w > 0
    ensures BlockOf(a + c, b, w) == BlockOf(a, b, w) + BlockOf(c, b, w)
  {
    if c == [] {
      assert a + c == a;
    } else {
      var n := |c| - 1;
      assert (a + c)[..|a + c| - 1] == a + c[..n];
      BlockOfSum(a, c[..n], b, w);
    }
  }

  lemma {:induction false} BlockOfOne(s: seq<int>, b: int, d: int, w: int)
    requires w > 0 && forall i :: 0 <= i < |s| ==> s[i] / w == d
    ensures BlockOf(s, b, w) == if d == b then s else []
  {
    if s != [] {
      var n := |s| - 1;
      BlockOfOne(s[..n], b, d, w);
      assert s == s[..n] + [s[n]];
    }
  }

  lemma ChunkBlock(b: int, w: nat)
    requires w > 0
    ensures forall i :: 0 <= i < w ==> Chunk(b, w)[i] / w == b
  {
    var r := Chunk(b, w);
    forall i | 0 <= i < w ensures r[i] / w == b {
      assert r[i] == b * w + i;
      P.DivMod(b, i, w);
    }
  }

  lemma LastApart(s: seq<int>, n: nat)
    requires NoDup(s) && n + 1 == |s|
    ensures NoDup(s[..n]) && s[n] !in s[..n] && forall x :: x in s <==> x in s[..n] || x == s[n]
  {
    assert s == s[..n] + [s[n]];
  }

  lemma {:induction false} ChunksBlock(blocks: seq<int>, b: int, w: nat)
    requires w > 0 && NoDup(blocks)
    ensures BlockOf(Chunks(blocks, w), b, w) == if b in blocks then Chunk(b, w) else []
  {
    if blocks != [] {
      var n := |blocks| - 1;
      LastApart(blocks, n);
      ChunksBlock(blocks[..n], b, w);
      LastBlock(Chunks(blocks[..n], w), blocks[n], b, w);
    }
  }

  lemma LastBlock(s: seq<int>, d: int, b: int, w: nat)
    requires w > 0
    ensures BlockOf(s + Chunk(d, w), b, w) == BlockOf(s, b, w) + if d == b then Chunk(b, w) else []
  {
    ChunkBlock(d, w);
    BlockOfSum(s, Chunk(d, w), b, w);
    BlockOfOne(Chunk(d, w), b, d, w);
  }

  lemma {:induction false} ChunksMembers(blocks: seq<int>, w: nat)
    requires w > 0
    ensures forall v :: v in Chunks(blocks, w) <==> exists b :: b in blocks && v in Chunk(b, w)
  {
    if blocks != [] {
      var n := |blocks| - 1;
      ChunksMembers(blocks[..n], w);
      assert blocks == blocks[..n] + [blocks[n]];
    }
  }

  ghost predicate RootIn(v: int, lost: seq<int>) { exists b :: b in lost && v == RootOf(b) }

  // What the DAG of a repair is: part of the DAG the code decodes with, and
  // one root per lost block over the sub-packets of that block in order.
  ghost predicate RepairDag(start: Graph, g: Graph, lost: seq<int>, w: nat) {
    && (forall v :: v in g ==>
          || (v in start && g[v].children == start[v].children && g[v].coefs == start[v].coefs)
          || (RootIn(v, lost) && v !in start))
    && (forall b :: b in lost ==> RootOf(b) in g && g[RootOf(b)].children == Chunk(b, w))
  }

  // Indices of the code stay below those of the roots.
  ghost predicate BelowRoots(start: Graph, n: nat) { forall v :: v in start ==> v <= REQUESTOR - n }

  // The end of Stripe::genRepairECDAG; dag is what Decode(from, to) of the code
  // returned.
  method AddLostRoots(dag: ECDAG, to: seq<int>, lost: seq<int>, n: nat, w: nat)
    requires dag.Valid() && w > 0
    requires NoDup(lost) && to == Chunks(lost, w) && forall b :: b in lost ==> 0 <= b < n
    requires BelowRoots(dag.nodes, n) && forall v :: v in to ==> v in dag.nodes
    modifies dag
    ensures dag.Valid() && RepairDag(old(dag.nodes), dag.nodes, lost, w) && Extends(old(dag.nodes), dag.nodes)
    ensures forall v :: v in dag.concacts <==> v in old(dag.concacts) || RootBelow(v, lost, n)
  {
    TargetBlocks(to, lost, n, w);
    dag.Concact(to, n, w);
    RootsAre(to, lost, n, w);
    LostRooted(old(dag.nodes), dag.nodes, to, lost, n, w);
  }

  lemma LostRooted(start: Graph, g: Graph, to: seq<int>, lost: seq<int>, n: nat, w: nat)
    requires w > 0 && NoDup(lost) && to == Chunks(lost, w) && forall b :: b in lost ==> 0 <= b < n
    requires BelowRoots(start, n) && forall v :: v in to ==> v in start
    requires Extends(start, g) && forall v :: v in RootsOf(to, n, w) <==> RootBelow(v, lost, n)
    requires forall v :: v in g <==> v in start || v in to || v in RootsOf(to, n, w)
    requires RootsFree(start, to, n) ==>
               forall b :: 0 <= b < n ==>
                 if BlockOf(to, b, w) == [] then RootOf(b) !in g
                 else RootOf(b) in g && g[RootOf(b)].children == BlockOf(to, b, w)
    ensures RepairDag(start, g, lost, w)
  {
    assert RootsFree(start, to, n);
    forall v | v in g && v !in start ensures RootIn(v, lost) {
      assert RootBelow(v, lost, n);
    }
    forall b | b in lost ensures RootOf(b) in g && g[RootOf(b)].children == Chunk(b, w) {
      LostHasRoot(to, lost, b, w);
    }
  }

  lemma TargetBlocks(to: seq<int>, lost: seq<int>, n: nat, w: nat)
    requires w > 0 && to == Chunks(lost, w) && forall b :: b in lost ==> 0 <= b < n
    ensures forall i :: 0 <= i < |to| ==> 0 <= to[i] / w < n
  {
    ChunksMembers(lost, w);
    forall i | 0 <= i < |to| ensures 0 <= to[i] / w < n {
      var v := to[i];
      assert v in to;
      var b :| b in lost && v in Chunk(b, w);
      ChunkBlock(b, w);
    }
  }

  // v is the root of one of the lost blocks below m.
  ghost predicate RootBelow(v: int, lost: seq<int>, m: nat) { exists b :: b in lost && 0 <= b < m && v == RootOf(b) }

  lemma NextRootIs(to: seq<int>, m: nat, w: nat, v: int)
    requires w > 0
    ensures v in RootsOf(to, m + 1, w) <==> v in RootsOf(to, m, w) || (BlockOf(to, m, w) != [] && v == RootOf(m))
  {
    RootsNext(to, m, w, [], multiset{});
  }

  lemma OneMore(lost: seq<int>, m: nat, v: int)
    ensures RootBelow(v, lost, m + 1) <==> RootBelow(v, lost, m) || (m in lost && v == RootOf(m))
  {
  }

  lemma NextRoots(to: seq<int>, lost: seq<int>, m: nat, next: nat, w: nat)
    requires w > 0 && next == m + 1 && (BlockOf(to, m, w) != [] <==> m in lost)
    requires forall v :: v in RootsOf(to, m, w) <==> RootBelow(v, lost, m)
    ensures forall v :: v in RootsOf(to, next, w) <==> RootBelow(v, lost, next)
  {
    forall v ensures v in RootsOf(to, next, w) <==> RootBelow(v, lost, next) {
      NextRootIs(to, m, w, v);
      OneMore(lost, m, v);
    }
  }

  // The list to mentions block b just when it is lost.
  predicate Mentioned(to: seq<int>, lost: seq<int>, w: nat, b: int)
    requires w > 0
  {
    BlockOf(to, b, w) != [] <==> b in lost
  }

  lemma {:induction false} RootsBelowAre(to: seq<int>, lost: seq<int>, m: nat, w: nat)
    requires w > 0 && forall b {:trigger Mentioned(to, lost, w, b)} :: Mentioned(to, lost, w, b)
    ensures forall v :: v in RootsOf(to, m, w) <==> RootBelow(v, lost, m)
  {
    if m > 0 {
      RootsBelowAre(to, lost, m - 1, w);
      assert Mentioned(to, lost, w, m - 1);
      NextRoots(to, lost, m - 1, m, w);
    }
  }

  lemma RootsAre(to: seq<int>, lost: seq<int>, m: nat, w: nat)
    requires w > 0 && NoDup(lost) && to == Chunks(lost, w)
    ensures forall v :: v in RootsOf(to, m, w) <==> RootBelow(v, lost, m)
  {
    forall b ensures Mentioned(to, lost, w, b) { LostHasRoot(to, lost, b, w); }
    RootsBelowAre(to, lost, m, w);
  }

  lemma LostHasRoot(to: seq<int>, lost: seq<int>, b: int, w: nat)
    requires w > 0 && NoDup(lost) && to == Chunks(lost, w)
    ensures BlockOf(to, b, w) == if b in lost then Chunk(b, w) else []
    ensures BlockOf(to, b, w) != [] <==> b in lost
  {
    ChunksBlock(lost, b, w);
    assert |Chunk(b, w)| == w;
  }

  // ------------------------------------------- dangling roots are taken out

  function RemoveAll(s: seq<int>, x: int): (r: seq<int>)
    ensures forall y :: Count(r, y) == if y == x then 0 else Count(s, y)
  {
    if s == [] then []
    else
      var n := |s| - 1;
      assert s == s[..n] + [s[n]];
      var r := RemoveAll(s[..n], x);
      if s[n] == x then r else r + [s[n]]
  }

  // h is gone from the parent lists of cs.
  function Unlinked(g: Graph, h: int, cs: seq<int>): (r: Graph)
    ensures r.Keys == g.Keys
  {
    map v | v in g :: if v in cs then g[v].(parents := RemoveAll(g[v].parents, h)) else g[v]
  }

  // h is gone altogether.
  function Pruned(g: Graph, h: int): Graph {
    map v | v in g && v != h :: g[v].(parents := RemoveAll(g[v].parents, h))
  }

  lemma {:induction false} RemoveNone(s: seq<int>, x: int)
    requires Count(s, x) == 0
    ensures RemoveAll(s, x) == s
  {
    if s != [] {
      var n := |s| - 1;
      assert s == s[..n] + [s[n]];
      RemoveNone(s[..n], x);
    }
  }

  lemma {:induction false} RemoveTwice(s: seq<int>, x: int)
    ensures RemoveAll(RemoveAll(s, x), x) == RemoveAll(s, x)
  {
    RemoveNone(RemoveAll(s, x), x);
  }

  lemma UnlinkNext(g: Graph, h: int, cs: seq<int>, c: int)
    requires c in g
    ensures var r := Unlinked(g, h, cs);
      Unlinked(g, h, cs + [c]) == r[c := r[c].(parents := RemoveAll(r[c].parents, h))]
  {
    RemoveTwice(g[c].parents, h);
  }

  // Only the children of h list it as a parent.
  lemma PrunedIs(g: Graph, h: int)
    requires Linked(g) && h in g
    ensures Unlinked(g, h, g[h].children) - {h} == Pruned(g, h)
  {
    forall v | v in g && v !in g[h].children ensures RemoveAll(g[v].parents, h) == g[v].parents {
      assert Count(g[v].parents, h) == Count(g[h].children, v);
      RemoveNone(g[v].parents, h);
    }
  }

  lemma PrunedLinked(g: Graph, h: int)
    requires Linked(g) && h in g && g[h].parents == []
    ensures Linked(Pruned(g, h))
  {
    var r := Pruned(g, h);
    forall v, c | v in r && c in r[v].children ensures c in r {
      assert Count(g[c].parents, v) == Count(g[v].children, c);
    }
    forall c, v | c in r && v in r[c].parents ensures v in r {
      assert Count(r[c].parents, v) > 0;
    }
    forall c, v | c in r && v in r ensures Count(r[c].parents, v) == Count(r[v].children, c) {
      assert Count(g[c].parents, v) == Count(g[v].children, c);
    }
  }

  // Taking one dangling vertex out: the parent lists of its children first,
  // then the vertex itself.
  method TakeOut(dag: ECDAG, h: int)
    requires Linked(dag.nodes) && h in dag.nodes
    modifies dag`nodes
    ensures dag.nodes == Pruned(old(dag.nodes), h)
  {
    ghost var g := dag.nodes;
    var cs := dag.nodes[h].children;
    var i := 0;
    UnlinkNothing(g, h);
    while i < |cs|
      invariant 0 <= i <= |cs| && dag.nodes == Unlinked(g, h, cs[..i])
    {
      var c := cs[i];
      assert c in cs && cs[..i + 1] == cs[..i] + [c];
      UnlinkNext(g, h, cs[..i], c);
      dag.nodes := dag.nodes[c := dag.nodes[c].(parents := RemoveAll(dag.nodes[c].parents, h))];
      i := i + 1;
    }
    assert cs[..|cs|] == cs;
    dag.nodes := dag.nodes - {h};
    PrunedIs(g, h);
  }

  lemma UnlinkNothing(g: Graph, h: int)
    ensures Unlinked(g, h, []) == g
  {
  }

  // The vertices of heads that are no root of a lost block.
  function Dangling(heads: seq<int>, concacts: seq<int>): set<int> { set h | h in heads && h !in concacts }

  // g without the vertices of gone: everything else keeps what it computes.
  ghost predicate Without(g: Graph, r: Graph, gone: set<int>) {
    && Linked(r)
    && (forall v :: v in r <==> v in g && v !in gone)
    && (forall v :: v in r ==> r[v].children == g[v].children && r[v].coefs == g[v].coefs)
    && (forall v :: v in r && g[v].parents == [] ==> r[v].parents == [])
  }

  lemma WithoutNext(g: Graph, r: Graph, gone: set<int>, h: int)
    requires Without(g, r, gone) && h in g && h !in gone && g[h].parents == []
    ensures Without(g, Pruned(r, h), gone + {h})
  {
    PrunedLinked(r, h);
  }

  function KeptRank(r: Graph, rank: map<int, nat>): map<int, nat> { map v | v in r && v in rank :: rank[v] }

  lemma StillOk(g: Graph, r: Graph, gone: set<int>, rank: map<int, nat>, clock: nat, heads: seq<int>, headers: seq<int>, leaves: seq<int>)
    requires GraphOk(g, rank, clock) && ListsOk(g, heads, leaves) && Without(g, r, gone)
    requires forall v :: v in gone ==> v in heads
    requires forall v :: v in headers <==> v in heads && v !in gone
    ensures GraphOk(r, KeptRank(r, rank), clock) && ListsOk(r, headers, leaves)
  {
    var kept := KeptRank(r, rank);
    forall v ensures v in kept <==> v in r { assert v in r ==> v in g && v in rank; }
    assert kept.Keys == r.Keys;
    forall v, c | v in r && c in r[v].children ensures c in r && kept[c] < kept[v] {
      assert v in g && c in g[v].children;
    }
  }

  method TakeRootOut(dag: ECDAG, h: int, ghost g: Graph, ghost gone: set<int>)
    requires Without(g, dag.nodes, gone) && h in g && h !in gone && g[h].parents == [] && NoDup(dag.headers)
    modifies dag`nodes, dag`headers
    ensures Without(g, dag.nodes, gone + {h}) && NoDup(dag.headers)
    ensures forall v :: v in dag.headers <==> v in old(dag.headers) && v != h
  {
    WithoutNext(g, dag.nodes, gone, h);
    TakeOut(dag, h);
    dag.headers := EraseFirst(dag.headers, h);
  }

  method TakeDangling(dag: ECDAG)
    requires Linked(dag.nodes) && NoDup(dag.headers)
    requires forall v :: v in dag.headers ==> v in dag.nodes && dag.nodes[v].parents == []
    modifies dag`nodes, dag`headers
    ensures Without(old(dag.nodes), dag.nodes, Dangling(old(dag.headers), dag.concacts)) && NoDup(dag.headers)
    ensures forall v :: v in dag.headers <==> v in old(dag.headers) && v !in Dangling(old(dag.headers), dag.concacts)
  {
    var heads := dag.headers;
    ghost var g := dag.nodes;
    var i := 0;
    while i < |heads|
      invariant 0 <= i <= |heads| && NoDup(dag.headers)
      invariant Without(g, dag.nodes, Dangling(heads[..i], dag.concacts))
      invariant forall v :: v in dag.headers <==> v in heads && v !in Dangling(heads[..i], dag.concacts)
    {
      DanglingNext(heads, dag.concacts, i);
      if heads[i] !in dag.concacts { TakeRootOut(dag, heads[i], g, Dangling(heads[..i], dag.concacts)); }
      i := i + 1;
    }
    assert heads[..|heads|] == heads;
  }

  // Stripe::refreshECDAG: when there are more roots than lost blocks, the
  // other roots are taken out. What is left computes what it did before.
  method RefreshECDAG(dag: ECDAG)
    requires dag.Valid()
    modifies dag
    ensures dag.Valid() && dag.concacts == old(dag.concacts)
    ensures var gone := if |old(dag.headers)| == |dag.concacts| then {} else Dangling(old(dag.headers), dag.concacts);
      && Without(old(dag.nodes), dag.nodes, gone)
      && (forall v :: v in dag.headers <==> v in old(dag.headers) && v !in gone)
  {
    if |dag.headers| != |dag.concacts| {
      TakeDangling(dag);
      StillOk(old(dag.nodes), dag.nodes, Dangling(old(dag.headers), dag.concacts), dag.rank, dag.clock,
              old(dag.headers), dag.headers, dag.leaves);
      dag.rank := KeptRank(dag.nodes, dag.rank);
    }
  }

  lemma DanglingNext(heads: seq<int>, concacts: seq<int>, i: nat)
    requires NoDup(heads) && i < |heads|
    ensures heads[i] in heads && heads[i] !in Dangling(heads[..i], concacts)
    ensures Dangling(heads[..i + 1], concacts) == Dangling(heads[..i], concacts) + if heads[i] in concacts then {} else {heads[i]}
  {
    assert heads[..i + 1] == heads[..i] + [heads[i]];
  }

  // What the controller does with the DAG of a code before it colours it.
  method PrepareRepair(dag: ECDAG, to: seq<int>, lost: seq<int>, n: nat, w: nat)
    requires dag.Valid() && w > 0
    requires NoDup(lost) && to == Chunks(lost, w) && forall b :: b in lost ==> 0 <= b < n
    requires BelowRoots(dag.nodes, n) && forall v :: v in to ==> v in dag.nodes
    modifies dag
    ensures dag.Valid() && RepairDag(old(dag.nodes), dag.nodes, lost, w)
    ensures forall v :: v in dag.concacts <==> v in old(dag.concacts) || RootBelow(v, lost, n)
  {
    AddLostRoots(dag, to, lost, n, w);
    ghost var g := dag.nodes;
    ghost var gone := if |dag.headers| == |dag.concacts| then {} else Dangling(dag.headers, dag.concacts);
    RefreshECDAG(dag);
    RefreshKeeps(old(dag.nodes), g, dag.nodes, gone, lost, w);
  }

  lemma RefreshKeeps(start: Graph, g: Graph, r: Graph, gone: set<int>, lost: seq<int>, w: nat)
    requires RepairDag(start, g, lost, w) && Without(g, r, gone) && forall b :: b in lost ==> RootOf(b) !in gone
    ensures RepairDag(start, r, lost, w)
  {
  }

  // ------------------------------------------------------------ the theorem

  // Evaluated on what is stored of a word, the vertices of the decoding DAG
  // have their values in that word.
  lemma {:induction false} StartIsRight(f: Field, words: Words, known: set<int>, done: set<int>, start: Graph, joins: multiset<int>,
                                        lost: seq<int>, w: nat, g: Graph, rank: map<int, nat>, leaf: int -> Byte, val: int -> Byte,
                                        word: int -> Byte, v: int)
    requires Progress(f, words, known, done, start, joins) && Linked(start) && words(word)
    requires RepairDag(start, g, lost, w) && Ranked(g, rank) && Evaluates(f, g, leaf, val)
    requires forall u :: u in known && u in g ==> leaf(u) == word(u)
    requires v in g && v in start
    ensures val(v) == word(v)
    decreases rank[v]
  {
    var cs := start[v].children;
    if cs != [] {
      assert Sound(f, start, word);
      forall i | 0 <= i < |cs| ensures val(cs[i]) == word(cs[i]) {
        var c := cs[i];
        assert c in cs && c in g && c in start;
        StartIsRight(f, words, known, done, start, joins, lost, w, g, rank, leaf, val, word, c);
      }
      CombAgrees(f, start[v].coefs, cs, val, word);
    }
  }

  // Every packet of the disks holds a word of the code: what may be read of
  // an existing block is on disk, what may be read of a missing one is zero.
  ghost predicate Stored(j: Job, net: N.Net, words: Words, known: set<int>, word: nat -> int -> Byte)
    requires j.w > 0
  {
    forall p: nat :: PacketStored(j, net.disk(p), words, known, word(p))
  }

  ghost predicate PacketStored(j: Job, disk: int -> Byte, words: Words, known: set<int>, word: int -> Byte)
    requires j.w > 0
  {
    words(word) && forall v :: v in known && v in j.g ==> LeafOf(j, disk)(v) == word(v)
  }

  lemma LevelIsRank(j: Job, level: map<int, nat>)
    requires Planned(j, level)
    ensures Ranked(j.g, level)
  {
    EdgesRise(j.g, level);
  }

  lemma CentralOf(j: Job, level: map<int, nat>, net: N.Net) returns (val: nat -> int -> Byte)
    requires Planned(j, level) && IsField(net.f)
    ensures Central(j, net, val)
  {
    LevelIsRank(j, level);
    val := (p: nat) => Valuation(net.f, j.g, level, LeafOf(j, net.disk(p)));
    forall p: nat ensures Evaluates(net.f, j.g, LeafOf(j, net.disk(p)), val(p)) {
      EvaluationExists(net.f, j.g, level, LeafOf(j, net.disk(p)));
    }
  }

  // Sub-packet i of a lost block, in one packet.
  lemma ChunkIsRight(net: N.Net, words: Words, known: set<int>, done: set<int>, start: Graph, joins: multiset<int>,
                     lost: seq<int>, j: Job, level: map<int, nat>, word: int -> Byte, val: int -> Byte, p: nat, b: int, i: int)
    requires Progress(net.f, words, known, done, start, joins) && Linked(start)
    requires Planned(j, level) && RepairDag(start, j.g, lost, j.w) && PacketStored(j, net.disk(p), words, known, word)
    requires Evaluates(net.f, j.g, LeafOf(j, net.disk(p)), val)
    requires b in lost && 0 <= i < j.w && forall v :: v in Chunk(b, j.w) ==> v in done
    ensures val(Chunk(b, j.w)[i]) == word(Chunk(b, j.w)[i])
  {
    LevelIsRank(j, level);
    var list := Chunk(b, j.w);
    var v := list[i];
    assert v in list && v in j.g[RootOf(b)].children;
    StartIsRight(net.f, words, known, done, start, joins, lost, j.w, j.g, level, LeafOf(j, net.disk(p)), val, word, v);
  }

  // Thread t carries out the task that is filed under block b, over the
  // sub-packets of that block.
  ghost predicate Writes(j: Job, keys: seq<Key>, t: nat, b: int)
    requires Closed(j)
  {
    && t < |keys| && keys[t] == KRoot(RootOf(b))
    && Present(j, keys[t]) && TaskAt(j, keys[t]) == Persist(Chunk(b, j.w), b)
  }

  // The place of sub-packet i of packet p in a file.
  function Place(p: nat, w: nat, i: nat): int { p * w + i }

  // A file holds block b as the words have it: packet after packet, the
  // sub-packets in order, and nothing else.
  ghost predicate FileIs(file: seq<Byte>, b: int, w: nat, word: nat -> int -> Byte, n: nat) {
    && |file| == Place(n, w, 0)
    && forall p: nat, i: nat {:trigger Place(p, w, i)} :: p < n && i < w ==>
         0 <= Place(p, w, i) < |file| && file[Place(p, w, i)] == word(p)(b * w + i)
  }

  // Some thread wrote block b, in the file of block b, as the words have it.
  ghost predicate BlockWritten(net: N.Net, j: Job, keys: seq<Key>, s: N.State, b: int, word: nat -> int -> Byte) {
    && |s.th| == |keys| && Closed(j)
    && exists t: nat :: Writes(j, keys, t, b) && FileIs(s.th[t].out, b, j.w, word, net.pktnum)
  }

  lemma RepairedIsFile(file: seq<Byte>, b: int, w: nat, word: nat -> int -> Byte, n: nat)
    requires file == Repaired(Chunk(b, w), word, n)
    ensures FileIs(file, b, w, word, n)
  {
    RepairedLength(Chunk(b, w), word, n);
    forall p: nat, i: nat | p < n && i < w
      ensures 0 <= Place(p, w, i) < |file| && file[Place(p, w, i)] == word(p)(b * w + i)
    {
      RepairedAt(Chunk(b, w), word, n, p, i);
    }
  }

  // No thread of the run can move any more.
  ghost predicate Over(net: N.Net, ss: seq<N.State>, who: seq<nat>) {
    N.Run(net, AllPushes(net.progs), ss, who) && forall t: nat :: !N.Enabled(net, ss[|who|], t)
  }

  // The whole repair of a stripe: a DAG that the code decodes with, one root
  // per lost block, a plan, and any run of all threads. When no thread can
  // move, a lost block is written - packet after packet, its sub-packets in the
  // word that was stored - exactly when its root is on the last level, for only
  // that level gets tasks that write.
  lemma BlocksComeBack(net: N.Net, words: Words, known: set<int>, done: set<int>, start: Graph, joins: multiset<int>,
                       lost: seq<int>, j: Job, level: map<int, nat>, keys: seq<Key>, word: nat -> int -> Byte,
                       ss: seq<N.State>, who: seq<nat>, b: int)
    requires Progress(net.f, words, known, done, start, joins) && Linked(start) && IsField(net.f)
    requires Planned(j, level) && Compiled(j, keys, net) && RepairDag(start, j.g, lost, j.w)
    requires b in lost && forall v :: v in Chunk(b, j.w) ==> v in done
    requires Stored(j, net, words, known, word)
    requires Over(net, ss, who)
    ensures BlockWritten(net, j, keys, ss[|who|], b, word) <==> level[RootOf(b)] == Top(j)
  {
    if level[RootOf(b)] == Top(j) {
      TopIsWritten(net, words, known, done, start, joins, lost, j, level, keys, word, ss, who, b);
    } else {
      LowIsNotWritten(net, j, level, keys, word, ss[|who|], b);
    }
  }

  lemma LowIsNotWritten(net: N.Net, j: Job, level: map<int, nat>, keys: seq<Key>, word: nat -> int -> Byte, s: N.State, b: int)
    requires Planned(j, level) && Complete(j, keys) && RootOf(b) in level && level[RootOf(b)] != Top(j)
    ensures !BlockWritten(net, j, keys, s, b, word)
  {
    forall t | 0 <= t < |keys| ensures keys[t] != KRoot(RootOf(b)) {
      if keys[t] == KRoot(RootOf(b)) { OnlyTopWrites(j, level, keys, t, b); }
    }
  }

  lemma OnlyTopWrites(j: Job, level: map<int, nat>, keys: seq<Key>, t: nat, b: int)
    requires Planned(j, level) && Complete(j, keys) && t < |keys| && keys[t] == KRoot(RootOf(b))
    ensures RootOf(b) in level && level[RootOf(b)] == Top(j)
  {
    RootIsLast(j, keys, t, b);
    assert Lists(j.levels, level) by { assert Leveling(j.g, j.levels, level); }
    OnLastLevel(j.levels, level, RootOf(b));
  }

  lemma RootIsLast(j: Job, keys: seq<Key>, t: nat, b: int)
    requires Closed(j) && Complete(j, keys) && t < |keys| && keys[t] == KRoot(RootOf(b))
    ensures |j.levels| >= 2 && RootOf(b) in j.levels[|j.levels| - 1]
  {
    assert Present(j, keys[t]);
  }

  lemma OnLastLevel(levels: seq<seq<int>>, level: map<int, nat>, v: int)
    requires Lists(levels, level) && |levels| > 0 && v in levels[|levels| - 1]
    ensures v in level && level[v] == |levels| - 1
  {
  }

  lemma TopIsWritten(net: N.Net, words: Words, known: set<int>, done: set<int>, start: Graph, joins: multiset<int>,
                     lost: seq<int>, j: Job, level: map<int, nat>, keys: seq<Key>, word: nat -> int -> Byte,
                     ss: seq<N.State>, who: seq<nat>, b: int)
    requires Progress(net.f, words, known, done, start, joins) && Linked(start) && IsField(net.f)
    requires Planned(j, level) && Compiled(j, keys, net) && RepairDag(start, j.g, lost, j.w)
    requires b in lost && level[RootOf(b)] == Top(j) && forall v :: v in Chunk(b, j.w) ==> v in done
    requires Stored(j, net, words, known, word)
    requires Over(net, ss, who)
    ensures BlockWritten(net, j, keys, ss[|who|], b, word)
  {
    var val := CentralOf(j, level, net);
    RepairIsCorrect(j, level, keys, net, val, ss, who);
    RootIsPlanned(j, level, keys, b);
    var list := Chunk(b, j.w);
    forall p: nat, i | 0 <= i < |list| ensures val(p)(list[i]) == word(p)(list[i]) {
      ChunkIsRight(net, words, known, done, start, joins, lost, j, level, word(p), val(p), p, b, i);
    }
    SameFile(list, val, word, net.pktnum);
    var t: nat :| t < |keys| && keys[t] == KRoot(RootOf(b));
    RootWrites(j, keys, t, b);
    RepairedIsFile(ss[|who|].th[t].out, b, j.w, word, net.pktnum);
  }

  lemma RootWrites(j: Job, keys: seq<Key>, t: nat, b: int)
    requires Closed(j) && Complete(j, keys) && t < |keys| && keys[t] == KRoot(RootOf(b))
    requires RootOf(b) in j.g && j.g[RootOf(b)].children == Chunk(b, j.w)
    ensures Writes(j, keys, t, b)
  {
    assert Present(j, keys[t]);
  }

  lemma LastLevelLists(levels: seq<seq<int>>, level: map<int, nat>, v: int)
    requires Lists(levels, level) && v in level && level[v] == |levels| - 1
    ensures v in levels[|levels| - 1]
  {
  }

  lemma RootIsPlanned(j: Job, level: map<int, nat>, keys: seq<Key>, b: int)
    requires Planned(j, level) && Complete(j, keys) && RootOf(b) in j.g && level[RootOf(b)] == Top(j)
    ensures KRoot(RootOf(b)) in keys
  {
    LastLevelLists(j.levels, level, RootOf(b));
    assert Present(j, KRoot(RootOf(b)));
  }

  lemma {:induction false} SameFile(list: seq<int>, val: nat -> int -> Byte, word: nat -> int -> Byte, n: nat)
    requires forall p: nat, i :: 0 <= i < |list| ==> val(p)(list[i]) == word(p)(list[i])
    ensures Repaired(list, val, n) == Repaired(list, word, n)
  {
    if n > 0 { SameFile(list, val, word, n - 1); }
  }

  lemma TopIsRoot(start: Graph, j: Job, level: map<int, nat>, b: int, v: int)
    requires Closed(j) && level.Keys == j.g.Keys && v in j.g && VertexOk(j, level, v) && level[v] == Top(j)
    requires RepairDag(start, j.g, [b], j.w) && BelowRoots(start, j.n)
    ensures v == RootOf(b)
  {
    assert v !in start && RootIn(v, [b]);
  }

  // With one lost block, its root is alone on the last level.
  lemma OnlyRoot(start: Graph, j: Job, level: map<int, nat>, b: int)
    requires Planned(j, level) && RepairDag(start, j.g, [b], j.w) && BelowRoots(start, j.n)
    ensures level[RootOf(b)] == Top(j)
  {
    var v := LastVertex(j, level);
    TopIsRoot(start, j, level, b, v);
  }

  lemma LastVertex(j: Job, level: map<int, nat>) returns (v: int)
    requires Planned(j, level)
    ensures v in j.g && v in level && VertexOk(j, level, v) && level[v] == Top(j)
  {
    v := j.levels[Top(j)][0];
    assert v in j.levels[Top(j)];
  }

  // A repair from its plan to the end of a run, closed until it is used.
  ghost predicate Repairs(net: N.Net, start: Graph, j: Job, level: map<int, nat>, keys: seq<Key>, b: int,
                          ss: seq<N.State>, who: seq<nat>) {
    forall x: int {:trigger Look(x)} :: Look(x) ==>
      && Planned(j, level) && Compiled(j, keys, net) && RepairDag(start, j.g, [b], j.w) && Over(net, ss, who)
  }

  lemma BlockComesBack(net: N.Net, words: Words, known: set<int>, done: set<int>, start: Graph, joins: multiset<int>,
                       j: Job, level: map<int, nat>, keys: seq<Key>, word: nat -> int -> Byte,
                       ss: seq<N.State>, who: seq<nat>, b: int)
    requires Progress(net.f, words, known, done, start, joins) && Linked(start) && BelowRoots(start, j.n) && IsField(net.f)
    requires Repairs(net, start, j, level, keys, b, ss, who)
    requires j.w > 0 && (forall v :: v in Chunk(b, j.w) ==> v in done) && Stored(j, net, words, known, word)
    ensures |ss| > |who| && BlockWritten(net, j, keys, ss[|who|], b, word)
  {
    assert Look(0);
    OnlyRoot(start, j, level, b);
    BlocksComeBack(net, words, known, done, start, joins, [b], j, level, keys, word, ss, who, b);
  }
}
