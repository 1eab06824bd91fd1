// ECDAG::genTopoIdxs: the vertices in between, children first, by a queue of
// vertices whose children have all been taken.
module TopoOrder {
  import opened Util
  import opened Dag
  import opened EcDag

  // Every counter is the number of children that still wait; a vertex that no
  // longer waits has no waiting child.
  ghost predicate Counting(g: Graph, inref: map<int, int>, waiting: set<int>) {
    && inref.Keys == g.Keys && waiting <= g.Keys
    && (forall v :: v in g ==> inref[v] == Pending(g[v].children, waiting))
    && (forall v, c :: v in g && v !in waiting && c in g[v].children ==> c !in waiting)
  }

  // The queue holds the waiting vertices without waiting children, once each.
  ghost predicate Queued(inref: map<int, int>, waiting: set<int>, queue: seq<int>) {
    && NoDup(queue)
    && forall v :: v in queue <==> v in waiting && v in inref && inref[v] == 0
  }

  // Every child of a vertex on the list that is itself to be listed comes
  // before it.
  ghost predicate ChildrenFirst(g: Graph, list: seq<int>, skip: set<int>) {
    forall i, c :: 0 <= i < |list| && list[i] in g && c in g[list[i]].children && c !in skip ==> c in list[..i]
  }

  lemma OnePopped(g: Graph, inref: map<int, int>, after: map<int, int>, waiting: set<int>, idx: int)
    requires Linked(g) && Counting(g, inref, waiting) && idx in waiting && inref[idx] == 0
    requires after.Keys == inref.Keys && forall v :: v in inref ==> after[v] == inref[v] - Count(g[idx].parents, v)
    ensures Counting(g, after, waiting - {idx})
  {
    forall v | v in g ensures after[v] == Pending(g[v].children, waiting - {idx}) {
      PendingDrop(g[v].children, waiting, idx);
      assert Count(g[idx].parents, v) == Count(g[v].children, idx);
    }
    PendingZero(g[idx].children, waiting);
  }

  // A parent of a waiting vertex waits, and waits for it.
  lemma ParentsCount(g: Graph, inref: map<int, int>, waiting: set<int>, idx: int)
    requires Linked(g) && Counting(g, inref, waiting) && idx in waiting
    ensures forall k :: 0 <= k < |g[idx].parents| ==> g[idx].parents[k] in waiting
    ensures forall v :: v in g ==> inref[v] >= Count(g[idx].parents, v)
  {
    forall k | 0 <= k < |g[idx].parents| ensures g[idx].parents[k] in waiting {
      var p := g[idx].parents[k];
      assert p in g[idx].parents && p in g;
      assert Count(g[idx].parents, p) == Count(g[p].children, idx);
      assert idx in g[p].children;
    }
    forall v | v in g ensures inref[v] >= Count(g[idx].parents, v) {
      PendingDrop(g[v].children, waiting, idx);
      assert Count(g[idx].parents, v) == Count(g[v].children, idx);
    }
  }

  // One decrement per parent entry; whoever reaches zero joins the queue.
  method Release(inref: map<int, int>, queue: seq<int>, parents: seq<int>) returns (rest: map<int, int>, more: seq<int>)
    requires forall k :: 0 <= k < |parents| ==> parents[k] in inref && parents[k] !in queue
    requires forall v :: v in inref ==> inref[v] >= Count(parents, v)
    requires NoDup(queue)
    ensures rest.Keys == inref.Keys && forall v :: v in inref ==> rest[v] == inref[v] - Count(parents, v)
    ensures NoDup(more)
    ensures forall v :: v in more <==> v in queue || (v in parents && v in rest && rest[v] == 0)
  {
    rest, more := inref, queue;
    var k := 0;
    while k < |parents|
      invariant 0 <= k <= |parents| && rest.Keys == inref.Keys && NoDup(more)
      invariant forall v :: v in inref ==> rest[v] == inref[v] - Count(parents[..k], v)
      invariant forall v :: v in more <==> v in queue || (v in parents[..k] && v in rest && rest[v] == 0)
    {
      var p := parents[k];
      assert parents[..k + 1] == parents[..k] + [p];
      assert parents == parents[..k] + [p] + parents[k + 1..];
      assert Count(parents, p) >= Count(parents[..k], p) + 1;
      rest := rest[p := rest[p] - 1];
      if rest[p] == 0 {
        NoDupAppend(more, p);
        more := more + [p];
      }
      k := k + 1;
    }
    assert parents[..|parents|] == parents;
  }

  // How often a vertex is a child: only whether that is zero is ever asked.
  method OutRefs(dag: ECDAG) returns (outref: map<int, int>)
    requires dag.Valid()
    ensures forall v :: v in outref ==> outref[v] > 0
    ensures forall v :: v in outref <==> exists u :: u in dag.nodes && v in dag.nodes[u].children
  {
    outref := map[];
    var todo := dag.nodes.Keys;
    while todo != {}
      invariant todo <= dag.nodes.Keys
      invariant forall v :: v in outref ==> outref[v] > 0
      invariant forall v :: v in outref <==> exists u :: u in dag.nodes && u !in todo && v in dag.nodes[u].children
      decreases |todo|
    {
      NonEmpty(todo);
      var u :| u in todo;
      ghost var before := outref;
      outref := CountChildren(outref, dag.nodes[u].children);
      forall v ensures v in outref <==> exists x :: x in dag.nodes && x !in todo - {u} && v in dag.nodes[x].children {
        if v in before {
          var x :| x in dag.nodes && x !in todo && v in dag.nodes[x].children;
          assert x !in todo - {u};
        }
      }
      todo := todo - {u};
    }
  }

  method CountChildren(outref: map<int, int>, children: seq<int>) returns (r: map<int, int>)
    requires forall v :: v in outref ==> outref[v] > 0
    ensures forall v :: v in r ==> r[v] > 0
    ensures forall v :: v in r <==> v in outref || v in children
  {
    r := outref;
    var i := 0;
    while i < |children|
      invariant 0 <= i <= |children| && forall v :: v in r ==> r[v] > 0
      invariant forall v :: v in r <==> v in outref || v in children[..i]
    {
      var c := children[i];
      assert children[..i + 1] == children[..i] + [c];
      if c !in r { r := r[c := 1]; } else { r := r[c := r[c] + 1]; }
      i := i + 1;
    }
    assert children[..|children|] == children;
  }

  lemma IsChild(g: Graph, idx: int)
    requires Linked(g) && idx in g && g[idx].parents != []
    ensures exists u :: u in g && idx in g[u].children
  {
    var p := g[idx].parents[0];
    assert p in g[idx].parents && p in g;
    assert Count(g[idx].parents, p) == Count(g[p].children, idx);
    assert idx in g[p].children;
  }

  // While a vertex waits, the queue is not empty.
  lemma QueueHasSome(g: Graph, rank: map<int, nat>, inref: map<int, int>, waiting: set<int>, queue: seq<int>)
    requires Ranked(g, rank) && Counting(g, inref, waiting) && Queued(inref, waiting, queue) && waiting != {}
    ensures queue != []
  {
    NonEmpty(waiting);
    var v :| v in waiting;
    var low := Lowest(g, rank, waiting, v);
    PendingZero(g[low].children, waiting);
    assert low in queue;
  }

  // Every vertex that is neither a leaf nor a root made by Concact, exactly
  // once, and its children before it.
  method GenTopoIdxs(dag: ECDAG) returns (topo: seq<int>)
    requires dag.Valid()
    ensures NoDup(topo)
    ensures forall v :: v in topo <==> v in dag.nodes && v !in dag.leaves && v !in dag.concacts
    ensures ChildrenFirst(dag.nodes, topo, AsSet(dag.leaves) + AsSet(dag.concacts))
  {
    ghost var g, skip := dag.nodes, AsSet(dag.leaves) + AsSet(dag.concacts);
    var outref := OutRefs(dag);
    var inref: map<int, int> := map v | v in dag.nodes :: |dag.nodes[v].children|;
    ghost var waiting := g.Keys;
    InitialCounts(g, inref);
    var queue := dag.Ready(inref);
    topo := [];
    while queue != []
      invariant g == dag.nodes && Counting(g, inref, waiting) && Queued(inref, waiting, queue)
      invariant Between(g, topo, waiting, skip)
      decreases |waiting|
    {
      var idx := queue[0];
      assert idx in queue;
      if idx !in dag.concacts && idx !in dag.leaves {
        Listed(g, topo, skip, inref, waiting, idx);
        topo := topo + [idx];
      } else {
        PassedOver(g, topo, skip, waiting, idx);
      }
      inref, queue := Pop(dag, inref, outref, queue, waiting);
      waiting := waiting - {idx};
    }
    if waiting != {} { QueueHasSome(g, dag.rank, inref, waiting, queue); }
  }

  // The vertices taken so far that are to be listed, children first.
  ghost predicate Between(g: Graph, topo: seq<int>, waiting: set<int>, skip: set<int>) {
    && NoDup(topo)
    && (forall v :: v in topo <==> v in g && v !in waiting && v !in skip)
    && ChildrenFirst(g, topo, skip)
  }

  lemma PassedOver(g: Graph, topo: seq<int>, skip: set<int>, waiting: set<int>, idx: int)
    requires Between(g, topo, waiting, skip) && idx in skip
    ensures Between(g, topo, waiting - {idx}, skip)
  {
  }

  // Take the first vertex out of the queue.
  method Pop(dag: ECDAG, inref: map<int, int>, outref: map<int, int>, queue: seq<int>, ghost waiting: set<int>)
    returns (rest: map<int, int>, more: seq<int>)
    requires dag.Valid() && queue != [] && Counting(dag.nodes, inref, waiting) && Queued(inref, waiting, queue)
    requires forall v :: v in outref ==> outref[v] > 0
    requires forall v :: v in outref <==> exists u :: u in dag.nodes && v in dag.nodes[u].children
    ensures Counting(dag.nodes, rest, waiting - {queue[0]}) && Queued(rest, waiting - {queue[0]}, more)
  {
    ghost var g := dag.nodes;
    var idx := queue[0];
    assert idx in queue;
    rest, more := inref, queue[1..];
    HeadOnce(queue);
    ParentsCount(g, inref, waiting, idx);
    if idx in outref {
      forall k | 0 <= k < |g[idx].parents|
        ensures g[idx].parents[k] in inref && g[idx].parents[k] !in more
      {
        var p := g[idx].parents[k];
        NotQueued(g, inref, waiting, idx, k);
        assert p in more ==> p in queue;
      }
      rest, more := Release(inref, more, dag.nodes[idx].parents);
    } else if g[idx].parents != [] {
      IsChild(g, idx);
    }
    OnePopped(g, inref, rest, waiting, idx);
    StillQueued(g, inref, rest, waiting, idx, queue, more);
  }

  lemma HeadOnce(s: seq<int>)
    requires s != [] && NoDup(s)
    ensures NoDup(s[1..]) && s[0] !in s[1..]
    ensures forall v :: v in s <==> v == s[0] || v in s[1..]
  {
    assert s == [s[0]] + s[1..];
    forall i | 0 <= i < |s[1..]| ensures s[1..][i] != s[0] { assert s[1..][i] == s[i + 1]; }
    forall i, j | 0 <= i < j < |s[1..]| ensures s[1..][i] != s[1..][j] {
      assert s[1..][i] == s[i + 1] && s[1..][j] == s[j + 1];
    }
  }

  // A parent waits for idx, so it is not in the queue.
  lemma NotQueued(g: Graph, inref: map<int, int>, waiting: set<int>, idx: int, k: int)
    requires Linked(g) && Counting(g, inref, waiting) && idx in waiting && 0 <= k < |g[idx].parents|
    ensures g[idx].parents[k] in inref && inref[g[idx].parents[k]] > 0
  {
    var p := g[idx].parents[k];
    assert p in g[idx].parents && p in g;
    assert Count(g[idx].parents, p) > 0;
    ParentsCount(g, inref, waiting, idx);
  }

  lemma Listed(g: Graph, topo: seq<int>, skip: set<int>, inref: map<int, int>, waiting: set<int>, idx: int)
    requires Linked(g) && Counting(g, inref, waiting) && idx in waiting && inref[idx] == 0 && idx !in skip
    requires Between(g, topo, waiting, skip)
    ensures Between(g, topo + [idx], waiting - {idx}, skip)
  {
    PendingZero(g[idx].children, waiting);
    var list := topo + [idx];
    NoDupAppend(topo, idx);
    forall i, c | 0 <= i < |list| && list[i] in g && c in g[list[i]].children && c !in skip ensures c in list[..i] {
      if i < |topo| {
        assert list[..i] == topo[..i] && list[i] == topo[i];
      } else {
        assert list[..i] == topo;
        assert c in g;
      }
    }
  }

  lemma StillQueued(g: Graph, before: map<int, int>, after: map<int, int>, waiting: set<int>, idx: int,
                    queue: seq<int>, more: seq<int>)
    requires Linked(g) && Counting(g, before, waiting) && Queued(before, waiting, queue)
    requires queue != [] && idx == queue[0] && idx in waiting && before[idx] == 0
    requires NoDup(more) && after.Keys == before.Keys
    requires forall v :: v in before ==> after[v] == before[v] - Count(g[idx].parents, v)
    requires forall v :: v in more <==> v in queue[1..] || (v in g[idx].parents && v in after && after[v] == 0)
    ensures Queued(after, waiting - {idx}, more)
  {
    ParentsCount(g, before, waiting, idx);
    HeadOnce(queue);
    forall v ensures v in more <==> v in waiting - {idx} && v in after && after[v] == 0 {
      if v in g[idx].parents {
        var k :| 0 <= k < |g[idx].parents| && g[idx].parents[k] == v;
        NotQueued(g, before, waiting, idx, k);
      } else {
        assert Count(g[idx].parents, v) == 0;
      }
    }
  }
}
