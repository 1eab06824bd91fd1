// src/ec/ECDAG.cc: the object that coding schemes build by Join and that the
// repair compiler walks level by level.
module EcDag {
  import opened Util
  import opened GF
  import opened Dag
  import opened Join

  // The index of the root of block 0; block i has root REQUESTOR - i.
  const REQUESTOR := 32767

  function RootOf(b: int): int { REQUESTOR - b }

  // The part of cidx that belongs to block b.
  function BlockOf(cidx: seq<int>, b: int, w: int): seq<int>
    requires w > 0
  {
    if cidx == [] then []
    else
      var n := |cidx| - 1;
      BlockOf(cidx[..n], b, w) + if cidx[n] / w == b then [cidx[n]] else []
  }

  // No index of a root is in use.
  ghost predicate RootsFree(g: Graph, cidx: seq<int>, n: nat) {
    forall b :: 0 <= b < n ==> RootOf(b) !in g && RootOf(b) !in cidx
  }

  // The roots of the blocks below n that lost something.
  function RootsOf(cidx: seq<int>, n: nat, w: int): seq<int>
    requires w > 0
  {
    if n == 0 then []
    else RootsOf(cidx, n - 1, w) + RootFor(n - 1, BlockOf(cidx, n - 1, w))
  }

  ghost predicate RootAdded(g: Graph, r: Graph, b: int, block: seq<int>) {
    if block == [] then r == g else Adds(g, r, RootOf(b), block)
  }

  function RootFor(b: int, block: seq<int>): seq<int> { if block == [] then [] else [RootOf(b)] }

  function MinusOnes(n: nat): seq<int> {
    if n == 0 then [] else MinusOnes(n - 1) + [-1]
  }

  // g grew into h: nothing that was there lost or changed its children.
  ghost predicate Extends(g: Graph, h: Graph) {
    forall v :: v in g ==> v in h && h[v].children == g[v].children && h[v].coefs == g[v].coefs
  }

  // ------------------------------------------------------------- leveling

  // How many entries of s lie in K.
  function Pending(s: seq<int>, K: set<int>): nat {
    if s == [] then 0
    else Pending(s[..|s| - 1], K) + if s[|s| - 1] in K then 1 else 0
  }

  lemma {:induction false} PendingDrop(s: seq<int>, K: set<int>, x: int)
    requires x in K
    ensures Pending(s, K - {x}) + Count(s, x) == Pending(s, K)
  {
    if s != [] {
      assert s == s[..|s| - 1] + [s[|s| - 1]];
      PendingDrop(s[..|s| - 1], K, x);
    }
  }

  lemma {:induction false} PendingZero(s: seq<int>, K: set<int>)
    ensures Pending(s, K) == 0 <==> forall c :: c in s ==> c !in K
  {
    if s != [] {
      var n := |s| - 1;
      PendingZero(s[..n], K);
      assert forall c :: c in s <==> c in s[..n] || c == s[n] by { assert s == s[..n] + [s[n]]; }
    }
  }

  lemma {:induction false} PendingAll(s: seq<int>, K: set<int>)
    requires forall c :: c in s ==> c in K
    ensures Pending(s, K) == |s|
  {
    if s != [] {
      var n := |s| - 1;
      assert forall c :: c in s <==> c in s[..n] || c == s[n] by { assert s == s[..n] + [s[n]]; }
      PendingAll(s[..n], K);
    }
  }

  // v sits one above its highest child; a vertex without children sits at 0.
  ghost predicate OneAbove(g: Graph, level: map<int, nat>, v: int)
    requires v in g && v in level
  {
    if level[v] == 0 then g[v].children == []
    else
      && (forall c :: c in g[v].children ==> c in level && level[c] < level[v])
      && (exists c :: c in g[v].children && c in level && level[c] == level[v] - 1)
  }

  ghost predicate IsLevelMap(g: Graph, level: map<int, nat>) {
    level.Keys == g.Keys && forall v :: v in g ==> OneAbove(g, level, v)
  }

  // levels lists every vertex exactly once, under its level; no level is empty.
  ghost predicate Lists(levels: seq<seq<int>>, level: map<int, nat>) {
    && (forall v :: v in level ==> level[v] < |levels| && v in levels[level[v]])
    && (forall l, v :: 0 <= l < |levels| && v in levels[l] ==> v in level && level[v] == l)
    && (forall l :: 0 <= l < |levels| ==> NoDup(levels[l]) && levels[l] != [])
  }

  ghost predicate Leveling(g: Graph, levels: seq<seq<int>>, level: map<int, nat>) {
    IsLevelMap(g, level) && Lists(levels, level)
  }

  // The level of a vertex is the length of the longest path below it, so it
  // does not depend on the order in which maps were walked.
  lemma {:induction false} LevelUnique(g: Graph, rank: map<int, nat>, a: map<int, nat>, b: map<int, nat>, v: int)
    requires Ranked(g, rank) && v in g && IsLevelMap(g, a) && IsLevelMap(g, b)
    ensures a[v] == b[v]
    decreases rank[v]
  {
    assert OneAbove(g, a, v) && OneAbove(g, b, v);
    forall c | c in g[v].children ensures a[c] == b[c] {
      LevelUnique(g, rank, a, b, c);
    }
  }

  ghost predicate GraphOk(g: Graph, rank: map<int, nat>, clock: nat) {
    && Linked(g)
    && Ranked(g, rank)
    && clock > 0 && forall v :: v in rank ==> rank[v] < clock
  }

  // Roots have no parents, leaves have no children, and nothing is both.
  ghost predicate ListsOk(g: Graph, headers: seq<int>, leaves: seq<int>) {
    && (forall v :: v in headers ==> v in g && v !in leaves && g[v].parents == [])
    && (forall v :: v in leaves ==> v in g && g[v].children == [])
  }

  lemma JoinOk(g: Graph, rank: map<int, nat>, clock: nat, p: int, cs: seq<int>, coefs: seq<int>)
    requires GraphOk(g, rank, clock)
    ensures GraphOk(JoinGraph(g, p, cs, coefs), JoinRank(g, rank, clock, p, cs), clock + 1)
  {
    JoinLinked(g, p, cs, coefs);
    JoinRanked(g, rank, clock, p, cs, coefs);
  }

  class ECDAG {
    var nodes: Graph
    var headers: seq<int>
    var leaves: seq<int>
    var concacts: seq<int>
    // the index of every call of Join so far
    ghost var joins: multiset<int>
    ghost var rank: map<int, nat>
    ghost var clock: nat

    ghost predicate Valid()
      reads this
    {
      && GraphOk(nodes, rank, clock)
      && NoDup(headers) && NoDup(leaves)
      && ListsOk(nodes, headers, leaves)
    }

    constructor ()
      ensures Valid() && nodes == map[] && headers == [] && leaves == [] && concacts == []
      ensures joins == multiset{}
    {
      nodes, headers, leaves, concacts, joins := map[], [], [], [], multiset{};
      rank, clock := map[], 1;
    }

    // Step 0 of Join: look the children up, create the unknown ones.
    method TakeChildren(cidx: seq<int>)
      requires NoDup(headers) && NoDup(leaves)
      requires forall v :: v in leaves ==> v in nodes
      modifies `nodes, `headers, `leaves
      ensures nodes == Touch(old(nodes), cidx)
      ensures NoDup(headers) && NoDup(leaves)
      ensures forall v :: v in leaves <==> v in old(leaves) || (v in cidx && v !in old(nodes))
      ensures forall v :: v in headers <==> v in old(headers) && v !in cidx
    {
      var i := 0;
      assert cidx[..0] == [];
      while i < |cidx|
        invariant 0 <= i <= |cidx|
        invariant nodes == Touch(old(nodes), cidx[..i])
        invariant NoDup(headers) && NoDup(leaves)
        invariant forall v :: v in leaves <==> v in old(leaves) || (v in cidx[..i] && v !in old(nodes))
        invariant forall v :: v in headers <==> v in old(headers) && v !in cidx[..i]
      {
        var curId := cidx[i];
        assert cidx[..i + 1] == cidx[..i] + [curId] && cidx[..i + 1][..i] == cidx[..i];
        if curId !in nodes {
          nodes := nodes[curId := LONE];
          leaves := leaves + [curId];
        }
        // an index that was just created is in no list of roots
        headers := EraseFirst(headers, curId);
        i := i + 1;
      }
      assert cidx[..|cidx|] == cidx;
    }

    // Step 1 of Join: the new parent enters each child's parent list.
    method LinkParent(pidx: int, cidx: seq<int>)
      requires forall i :: 0 <= i < |cidx| ==> cidx[i] in nodes
      modifies `nodes
      ensures nodes == Adopt(old(nodes), pidx, cidx)
    {
      var j := 0;
      while j < |cidx|
        invariant 0 <= j <= |cidx|
        invariant nodes == Adopt(old(nodes), pidx, cidx[..j])
      {
        assert cidx[..j + 1][..j] == cidx[..j];
        nodes := nodes[cidx[j] := nodes[cidx[j]].(parents := nodes[cidx[j]].parents + [pidx])];
        j := j + 1;
      }
      assert cidx[..|cidx|] == cidx;
    }

    // The three lists of Join, step by step as the source updates them.
    method Link(pidx: int, cidx: seq<int>, coefs: seq<int>)
      requires NoDup(headers) && NoDup(leaves) && Linked(nodes) && ListsOk(nodes, headers, leaves)
      modifies `nodes, `headers, `leaves
      ensures nodes == JoinGraph(old(nodes), pidx, cidx, coefs)
      ensures NoDup(headers) && NoDup(leaves) && ListsOk(nodes, headers, leaves)
      ensures forall v :: v in leaves <==> v in old(leaves) || (v in cidx && v !in old(nodes))
      ensures forall v :: v in headers <==>
                (v in old(headers) && v !in cidx) || (v == pidx && pidx !in old(nodes) && pidx !in cidx)
    {
      ghost var g, heads, lvs := nodes, headers, leaves;
      TakeChildren(cidx);
      if pidx !in nodes {
        nodes := nodes[pidx := Vertex(cidx, coefs, [])];
        NoDupAppend(headers, pidx);
        headers := headers + [pidx];
        LinkParent(pidx, cidx);
      }
      ListsStayRight(g, pidx, cidx, coefs, heads, headers, lvs, leaves);
    }

    method Join(pidx: int, cidx: seq<int>, coefs: seq<int>)
      requires Valid()
      modifies this
      ensures Valid()
      ensures nodes == JoinGraph(old(nodes), pidx, cidx, coefs)
      ensures forall v :: v in leaves <==> v in old(leaves) || (v in cidx && v !in old(nodes))
      ensures forall v :: v in headers <==>
                (v in old(headers) && v !in cidx) || (v == pidx && pidx !in old(nodes) && pidx !in cidx)
      ensures concacts == old(concacts) && joins == old(joins) + multiset{pidx}
    {
      JoinOk(nodes, rank, clock, pidx, cidx, coefs);
      rank, clock := JoinRank(nodes, rank, clock, pidx, cidx), clock + 1;
      Link(pidx, cidx, coefs);
      joins := joins + multiset{pidx};
    }

    // A block without lost sub-packets gets no root.
    method AddRoot(b: nat, block: seq<int>, coefs: seq<int>)
      requires Valid()
      modifies this
      ensures Valid()
      ensures RootAdded(old(nodes), nodes, b, block)
      ensures concacts == old(concacts) + RootFor(b, block) && joins == old(joins) + multiset(RootFor(b, block))
    {
      if block != [] {
        JoinAdds(nodes, RootOf(b), block, coefs);
        Join(RootOf(b), block, coefs);
        concacts := concacts + [RootOf(b)];
      }
    }

    // One root per repaired block, over the lost sub-packets of that block:
    // as long as the indices of the roots are not in use, the root of block b
    // ends up with exactly the sub-packets of b, in the order given, and a
    // block without any gets no root.
    method Concact(cidx: seq<int>, n: nat, w: int)
      requires Valid()
      requires w > 0 && forall i :: 0 <= i < |cidx| ==> 0 <= cidx[i] / w < n
      modifies this
      ensures Valid() && Extends(old(nodes), nodes)
      ensures concacts == old(concacts) + RootsOf(cidx, n, w)
      ensures joins == old(joins) + multiset(RootsOf(cidx, n, w))
      ensures forall v :: v in nodes <==> v in old(nodes) || v in cidx || v in RootsOf(cidx, n, w)
      ensures forall v :: v in nodes && v !in old(nodes) && v !in RootsOf(cidx, n, w) ==> nodes[v].children == []
      ensures RootsFree(old(nodes), cidx, n) ==>
                forall b :: 0 <= b < n ==>
                  if BlockOf(cidx, b, w) == [] then RootOf(b) !in nodes
                  else RootOf(b) in nodes && nodes[RootOf(b)].children == BlockOf(cidx, b, w)
    {
      var block := SplitBlocks(cidx, n, w);
      AddRoots(cidx, block, n, w);
      ConcactEnds(old(nodes), nodes, cidx, n, w);
    }

    method AddRoots(cidx: seq<int>, block: seq<seq<int>>, n: nat, w: int)
      requires Valid() && w > 0 && |block| == n && forall b :: 0 <= b < n ==> block[b] == BlockOf(cidx, b, w)
      modifies this
      ensures Valid() && Concacted(old(nodes), nodes, cidx, n, n, w)
      ensures concacts == old(concacts) + RootsOf(cidx, n, w) && joins == old(joins) + multiset(RootsOf(cidx, n, w))
    {
      var coefs := MinusOnes(|cidx|);
      var b := 0;
      ConcactStarts(nodes, cidx, n, w);
      while b < n
        invariant 0 <= b <= n && Valid()
        invariant concacts == old(concacts) + RootsOf(cidx, b, w) && joins == old(joins) + multiset(RootsOf(cidx, b, w))
        invariant Concacted(old(nodes), nodes, cidx, b, n, w)
      {
        ghost var before := nodes;
        AddRoot(b, block[b], coefs);
        ConcactGoesOn(old(nodes), before, nodes, cidx, b, n, w);
        RootsNext(cidx, b, w, old(concacts), old(joins));
        b := b + 1;
      }
    }

    // Levels from the leaves up: each round takes the vertices all of whose
    // children have been taken.
    method GenLeveledTopologicalSorting() returns (levels: seq<seq<int>>, ghost level: map<int, nat>)
      requires Valid()
      ensures Leveling(nodes, levels, level)
    {
      var inref: map<int, int> := map v | v in nodes :: |nodes[v].children|;
      levels, level := [], map[];
      InitialCounts(nodes, inref);
      while inref.Keys != {}
        invariant Waiting(nodes, inref)
        invariant Settled(nodes, inref.Keys, level, |levels|) && Lists(levels, level)
        invariant NextRound(nodes, inref.Keys, level, |levels|)
        decreases |inref.Keys|
      {
        SomeoneIsReady(nodes, rank, inref);
        var taken := Ready(inref);
        ghost var before := inref;
        inref := RemoveLevel(taken, inref);
        ReadyIsRound(nodes, before, inref.Keys, taken);
        RoundSettles(nodes, before.Keys, inref.Keys, level, |levels|, taken);
        RoundLists(level, levels, taken);
        RoundHoldsBack(nodes, before.Keys, inref.Keys, level, |levels|, taken);
        level := Enter(level, taken, |levels|);
        levels := levels + [taken];
      }
      SettledIsLevelMap(nodes, level, |levels|);
    }

    // The vertices whose inref is 0, in whatever order the map is walked.
    method Ready(inref: map<int, int>) returns (taken: seq<int>)
      ensures NoDup(taken)
      ensures forall v :: v in taken <==> v in inref && inref[v] == 0
    {
      taken := [];
      var todo := inref.Keys;
      while todo != {}
        invariant todo <= inref.Keys && NoDup(taken)
        invariant forall v :: v in taken <==> v in inref && v !in todo && inref[v] == 0
        decreases |todo|
      {
        NonEmpty(todo);
        var v :| v in todo;
        todo := todo - {v};
        if inref[v] == 0 { taken := taken + [v]; }
      }
    }

    // Take a level out: one decrement per parent entry, then erase.
    method RemoveLevel(taken: seq<int>, inref: map<int, int>) returns (rest: map<int, int>)
      requires Valid() && Waiting(nodes, inref) && NoDup(taken)
      requires forall v :: v in taken <==> v in inref && inref[v] == 0
      ensures Waiting(nodes, rest)
      ensures rest.Keys == inref.Keys - set v | v in taken
    {
      rest := inref;
      var i := 0;
      forall k | 0 <= k < |taken| ensures taken[k] in rest && rest[taken[k]] == 0 {
        var v := taken[k];
        assert v in taken;
      }
      while i < |taken|
        invariant 0 <= i <= |taken|
        invariant Waiting(nodes, rest)
        invariant rest.Keys == inref.Keys - set v | v in taken[..i]
        invariant forall k :: i <= k < |taken| ==> taken[k] in rest && rest[taken[k]] == 0
      {
        var idx := taken[i];
        assert taken[..i + 1] == taken[..i] + [idx];
        ghost var before := rest;
        ParentsWait(nodes, rank, rest, idx);
        rest := Decrement(rest, nodes[idx].parents);
        rest := rest - {idx};
        OneTaken(nodes, before, rest, idx);
        i := i + 1;
      }
      assert taken[..|taken|] == taken;
    }
  }

  // ------------------------------------------ the counters of the leveling

  // The counter of a waiting vertex is the number of its children that wait.
  ghost predicate Waiting(g: Graph, inref: map<int, int>) {
    && inref.Keys <= g.Keys
    && (forall v :: v in inref ==> inref[v] == Pending(g[v].children, inref.Keys))
    && (forall v, c :: v in g && v !in inref && c in g[v].children ==> c !in inref)
  }

  // The vertices that no longer wait carry their level.
  ghost predicate Settled(g: Graph, waiting: set<int>, level: map<int, nat>, round: nat) {
    && level.Keys == g.Keys - waiting
    && forall v :: v in level ==> level[v] < round && OneAbove(g, level, v)
  }

  // A vertex that still waits after the last round is held back by a child
  // that waits, or by one that was taken in that round.
  ghost predicate NextRound(g: Graph, waiting: set<int>, level: map<int, nat>, round: nat) {
    forall v :: v in waiting && v in g && round > 0 ==>
      exists c :: c in g[v].children && (c in waiting || (c in level && level[c] == round - 1))
  }

  lemma InitialCounts(g: Graph, inref: map<int, int>)
    requires Linked(g) && inref == map v | v in g :: |g[v].children|
    ensures Waiting(g, inref)
  {
    forall v | v in g ensures Pending(g[v].children, inref.Keys) == |g[v].children| {
      PendingAll(g[v].children, inref.Keys);
    }
  }

  // Acyclicity is what keeps the loop from spinning: the lowest waiting
  // vertex has no waiting child.
  lemma SomeoneIsReady(g: Graph, rank: map<int, nat>, inref: map<int, int>)
    requires Ranked(g, rank) && Waiting(g, inref) && inref.Keys != {}
    ensures exists v :: v in inref && inref[v] == 0
  {
    NonEmpty(inref.Keys);
    var v :| v in inref.Keys;
    var low := Lowest(g, rank, inref.Keys, v);
    PendingZero(g[low].children, inref.Keys);
  }

  lemma {:induction false} Lowest(g: Graph, rank: map<int, nat>, waiting: set<int>, v: int) returns (low: int)
    requires Ranked(g, rank) && waiting <= g.Keys && v in waiting
    ensures low in waiting && forall c :: c in g[low].children ==> c !in waiting
    decreases rank[v]
  {
    if c :| c in g[v].children && c in waiting {
      low := Lowest(g, rank, waiting, c);
    } else {
      low := v;
    }
  }

  lemma ParentsWait(g: Graph, rank: map<int, nat>, inref: map<int, int>, idx: int)
    requires Linked(g) && Ranked(g, rank) && Waiting(g, inref) && idx in inref
    ensures forall k :: 0 <= k < |g[idx].parents| ==> g[idx].parents[k] in inref
  {
    forall k | 0 <= k < |g[idx].parents| ensures g[idx].parents[k] in inref {
      var p := g[idx].parents[k];
      assert p in g[idx].parents && p in g;
      assert Count(g[idx].parents, p) == Count(g[p].children, idx);
      assert idx in g[p].children;
    }
  }

  method Decrement(inref: map<int, int>, parents: seq<int>) returns (rest: map<int, int>)
    requires forall k :: 0 <= k < |parents| ==> parents[k] in inref
    ensures rest.Keys == inref.Keys
    ensures forall v :: v in inref ==> rest[v] == inref[v] - Count(parents, v)
  {
    rest := inref;
    var k := 0;
    while k < |parents|
      invariant 0 <= k <= |parents|
      invariant rest.Keys == inref.Keys
      invariant forall v :: v in inref ==> rest[v] == inref[v] - Count(parents[..k], v)
    {
      assert parents[..k + 1] == parents[..k] + [parents[k]];
      rest := rest[parents[k] := rest[parents[k]] - 1];
      k := k + 1;
    }
    assert parents[..|parents|] == parents;
  }

  lemma OneTaken(g: Graph, before: map<int, int>, after: map<int, int>, idx: int)
    requires Linked(g) && Waiting(g, before)
    requires idx in before && before[idx] == 0
    requires after.Keys == before.Keys - {idx}
    requires forall v :: v in after ==> after[v] == before[v] - Count(g[idx].parents, v)
    ensures Waiting(g, after)
  {
    forall v | v in after ensures after[v] == Pending(g[v].children, after.Keys) {
      PendingDrop(g[v].children, before.Keys, idx);
      assert Count(g[idx].parents, v) == Count(g[v].children, idx);
    }
    PendingZero(g[idx].children, before.Keys);
  }

  // One round: taken is the set of waiting vertices with no waiting child.
  ghost predicate Round(g: Graph, before: set<int>, after: set<int>, taken: seq<int>) {
    && before <= g.Keys
    && (forall v, c :: v in g && c in g[v].children ==> c in g)
    && (forall v :: v in taken <==> v in before && forall c :: c in g[v].children ==> c !in before)
    && (forall v :: v in after <==> v in before && v !in taken)
  }

  lemma ReadyIsRound(g: Graph, inref: map<int, int>, after: set<int>, taken: seq<int>)
    requires Linked(g) && Waiting(g, inref) && after == inref.Keys - set v | v in taken
    requires forall v :: v in taken <==> v in inref && inref[v] == 0
    requires exists v :: v in inref && inref[v] == 0
    ensures Round(g, inref.Keys, after, taken) && taken != [] && |after| < |inref.Keys|
  {
    forall v | v in inref
      ensures v in taken <==> forall c :: c in g[v].children ==> c !in inref.Keys
    {
      PendingZero(g[v].children, inref.Keys);
    }
    var v :| v in inref && inref[v] == 0;
    assert v in taken;
    StrictSubset(after, inref.Keys, v);
  }

  function Enter(level: map<int, nat>, taken: seq<int>, round: nat): (l: map<int, nat>)
    ensures forall v :: v in l <==> v in level || v in taken
    ensures forall v :: v in l ==> l[v] == if v in taken then round else level[v]
  {
    level + map v | v in taken :: round
  }

  lemma RoundSettles(g: Graph, before: set<int>, after: set<int>, level: map<int, nat>, round: nat, taken: seq<int>)
    requires Round(g, before, after, taken)
    requires Settled(g, before, level, round) && NextRound(g, before, level, round)
    ensures Settled(g, after, Enter(level, taken, round), round + 1)
  {
    var l := Enter(level, taken, round);
    forall v ensures v in l <==> v in g && v !in after {
      assert v in level <==> v in g && v !in before;
    }
    assert l.Keys == g.Keys - after;
    forall v | v in l ensures OneAbove(g, l, v) {
      if v in taken {
        forall c | c in g[v].children ensures c in l && l[c] < l[v] {
          assert c in g && c !in before;
        }
        assert g[v].children == [] || exists c :: c in g[v].children by {
          assert g[v].children == [] || g[v].children[0] in g[v].children;
        }
      } else {
        assert OneAbove(g, level, v);
        if level[v] > 0 {
          var c :| c in g[v].children && c in level && level[c] == level[v] - 1;
          assert c !in taken;
        }
      }
    }
  }

  lemma RoundLists(level: map<int, nat>, levels: seq<seq<int>>, taken: seq<int>)
    requires Lists(levels, level)
    requires NoDup(taken) && taken != [] && forall v :: v in taken ==> v !in level
    ensures Lists(levels + [taken], Enter(level, taken, |levels|))
  {
    var all, l := levels + [taken], Enter(level, taken, |levels|);
    forall v | v in l ensures l[v] < |all| && v in all[l[v]] { ListedBelow(level, levels, taken, v); }
    forall i, v | 0 <= i < |all| && v in all[i] ensures v in l && l[v] == i { OnlyThere(level, levels, taken, i, v); }
    forall i | 0 <= i < |all| ensures NoDup(all[i]) && all[i] != [] {
      if i < |levels| { assert all[i] == levels[i]; }
    }
  }

  lemma ListedBelow(level: map<int, nat>, levels: seq<seq<int>>, taken: seq<int>, v: int)
    requires Lists(levels, level) && v in Enter(level, taken, |levels|)
    ensures var k := Enter(level, taken, |levels|)[v];
      k <= |levels| && v in if k < |levels| && v !in taken then levels[k] else taken
    ensures (v in taken <==> Enter(level, taken, |levels|)[v] == |levels|)
  {
  }

  lemma OnlyThere(level: map<int, nat>, levels: seq<seq<int>>, taken: seq<int>, i: nat, v: int)
    requires Lists(levels, level) && (forall x :: x in taken ==> x !in level) && i <= |levels|
    requires v in if i < |levels| then levels[i] else taken
    ensures v in Enter(level, taken, |levels|) && Enter(level, taken, |levels|)[v] == i
  {
  }

  lemma RoundHoldsBack(g: Graph, before: set<int>, after: set<int>, level: map<int, nat>, round: nat, taken: seq<int>)
    requires Round(g, before, after, taken)
    ensures NextRound(g, after, Enter(level, taken, round), round + 1)
  {
    forall v | v in after
      ensures exists c :: c in g[v].children && (c in after || (c in Enter(level, taken, round) && Enter(level, taken, round)[c] == round))
    {
      var c :| c in g[v].children && c in before;
    }
  }

  lemma SettledIsLevelMap(g: Graph, level: map<int, nat>, round: nat)
    requires Settled(g, {}, level, round)
    ensures IsLevelMap(g, level)
  {
  }

  lemma {:induction false} BlockMembers(cidx: seq<int>, b: int, w: int)
    requires w > 0
    ensures forall x :: x in BlockOf(cidx, b, w) <==> x in cidx && x / w == b
  {
    if cidx != [] {
      var n := |cidx| - 1;
      BlockMembers(cidx[..n], b, w);
      assert cidx == cidx[..n] + [cidx[n]];
    }
  }

  // The sub-packets of the blocks below b.
  function Taken(cidx: seq<int>, b: nat, w: int): set<int>
    requires w > 0
  {
    if b == 0 then {} else Taken(cidx, b - 1, w) + AsSet(BlockOf(cidx, b - 1, w))
  }

  lemma {:induction false} TakenIs(cidx: seq<int>, b: nat, w: int, v: int)
    requires w > 0
    ensures v in Taken(cidx, b, w) <==> v in cidx && 0 <= v / w < b
  {
    if b > 0 {
      TakenIs(cidx, b - 1, w, v);
      BlockMembers(cidx, b - 1, w);
    }
  }

  lemma AllTaken(cidx: seq<int>, n: nat, w: int)
    requires w > 0 && forall i :: 0 <= i < |cidx| ==> 0 <= cidx[i] / w < n
    ensures forall v :: v in Taken(cidx, n, w) <==> v in cidx
  {
    forall v ensures v in Taken(cidx, n, w) <==> v in cidx {
      TakenIs(cidx, n, w, v);
      if v in cidx {
        var i :| 0 <= i < |cidx| && cidx[i] == v;
      }
    }
  }

  // What Concact has added for the blocks below b.
  ghost predicate ConcactBelow(start: Graph, g: Graph, cidx: seq<int>, b: nat, w: int)
    requires w > 0
  {
    && (forall v :: v in g <==> v in start || v in Taken(cidx, b, w) || v in RootsOf(cidx, b, w))
    && (forall v :: v in g && v !in start && v !in RootsOf(cidx, b, w) ==> g[v].children == [])
  }

  ghost predicate RootsBelow(g: Graph, cidx: seq<int>, b: nat, n: nat, w: int)
    requires w > 0
  {
    && (forall d :: b <= d < n ==> RootOf(d) !in g)
    && (forall d :: 0 <= d < b ==>
          if BlockOf(cidx, d, w) == [] then RootOf(d) !in g
          else RootOf(d) in g && g[RootOf(d)].children == BlockOf(cidx, d, w))
  }

  ghost predicate Concacted(start: Graph, g: Graph, cidx: seq<int>, b: nat, n: nat, w: int)
    requires w > 0
  {
    forall x {:trigger Look(x)} :: Look(x) ==>
      Extends(start, g) && ConcactBelow(start, g, cidx, b, w) && (RootsFree(start, cidx, n) ==> RootsBelow(g, cidx, b, n, w))
  }

  lemma ConcactStarts(g: Graph, cidx: seq<int>, n: nat, w: int)
    requires w > 0
    ensures Concacted(g, g, cidx, 0, n, w) && RootsOf(cidx, 0, w) == []
  {
  }

  lemma ConcactGoesOn(start: Graph, before: Graph, after: Graph, cidx: seq<int>, b: nat, n: nat, w: int)
    requires w > 0 && b < n && Concacted(start, before, cidx, b, n, w)
    requires RootAdded(before, after, b, BlockOf(cidx, b, w))
    ensures Concacted(start, after, cidx, b + 1, n, w)
  {
    assert Look(0);
    MoreBelow(start, before, after, cidx, b, w);
    if RootsFree(start, cidx, n) { NextRoot(before, after, cidx, b, n, w); }
  }

  lemma ConcactEnds(start: Graph, g: Graph, cidx: seq<int>, n: nat, w: int)
    requires w > 0 && Concacted(start, g, cidx, n, n, w) && forall i :: 0 <= i < |cidx| ==> 0 <= cidx[i] / w < n
    ensures Extends(start, g)
    ensures forall v :: v in g <==> v in start || v in cidx || v in RootsOf(cidx, n, w)
    ensures forall v :: v in g && v !in start && v !in RootsOf(cidx, n, w) ==> g[v].children == []
    ensures RootsFree(start, cidx, n) ==>
              forall b :: 0 <= b < n ==>
                if BlockOf(cidx, b, w) == [] then RootOf(b) !in g
                else RootOf(b) in g && g[RootOf(b)].children == BlockOf(cidx, b, w)
  {
    assert Look(0);
    AllTaken(cidx, n, w);
  }

  lemma RootsNext(cidx: seq<int>, b: nat, w: int, list: seq<int>, all: multiset<int>)
    requires w > 0
    ensures list + RootsOf(cidx, b + 1, w) == list + RootsOf(cidx, b, w) + RootFor(b, BlockOf(cidx, b, w))
    ensures all + multiset(RootsOf(cidx, b + 1, w)) == all + multiset(RootsOf(cidx, b, w)) + multiset(RootFor(b, BlockOf(cidx, b, w)))
    ensures forall v :: v in RootsOf(cidx, b + 1, w) <==>
              v in RootsOf(cidx, b, w) || (BlockOf(cidx, b, w) != [] && v == RootOf(b))
  {
    assert RootsOf(cidx, b + 1, w) == RootsOf(cidx, b, w) + RootFor(b, BlockOf(cidx, b, w));
  }

  lemma MoreBelow(start: Graph, before: Graph, after: Graph, cidx: seq<int>, b: nat, w: int)
    requires w > 0 && ConcactBelow(start, before, cidx, b, w) && RootAdded(before, after, b, BlockOf(cidx, b, w))
    ensures ConcactBelow(start, after, cidx, b + 1, w)
  {
    RootsNext(cidx, b, w, [], multiset{});
  }

  lemma NextRoot(before: Graph, after: Graph, cidx: seq<int>, b: nat, n: nat, w: int)
    requires w > 0 && b < n && RootsBelow(before, cidx, b, n, w) && forall d :: 0 <= d < n ==> RootOf(d) !in cidx
    requires RootAdded(before, after, b, BlockOf(cidx, b, w))
    ensures RootsBelow(after, cidx, b + 1, n, w)
  {
    var block := BlockOf(cidx, b, w);
    forall d | 0 <= d < n ensures RootOf(d) !in block { NotInBlock(cidx, b, w, RootOf(d)); }
  }

  lemma NotInBlock(cidx: seq<int>, b: int, w: int, v: int)
    requires w > 0 && v !in cidx
    ensures v !in BlockOf(cidx, b, w)
  {
    BlockMembers(cidx, b, w);
  }

  method SplitBlocks(cidx: seq<int>, n: nat, w: int) returns (block: seq<seq<int>>)
    requires w > 0 && forall i :: 0 <= i < |cidx| ==> 0 <= cidx[i] / w < n
    ensures |block| == n
    ensures forall b :: 0 <= b < n ==> block[b] == BlockOf(cidx, b, w)
  {
    block := seq(n, _ => []);
    var i := 0;
    while i < |cidx|
      invariant 0 <= i <= |cidx|
      invariant |block| == n
      invariant forall b :: 0 <= b < n ==> block[b] == BlockOf(cidx[..i], b, w)
    {
      assert cidx[..i + 1][..i] == cidx[..i];
      var b := cidx[i] / w;
      block := block[b := block[b] + [cidx[i]]];
      i := i + 1;
    }
    assert cidx[..|cidx|] == cidx;
  }

  // What is a root stays without parents until it is used as a child, and
  // what is a leaf stays without children.
  lemma ListsStayRight(g: Graph, p: int, cs: seq<int>, coefs: seq<int>,
                       heads0: seq<int>, heads: seq<int>, leaves0: seq<int>, leaves: seq<int>)
    requires Linked(g) && ListsOk(g, heads0, leaves0)
    requires forall v :: v in heads <==> (v in heads0 && v !in cs) || (v == p && p !in g && p !in cs)
    requires forall v :: v in leaves <==> v in leaves0 || (v in cs && v !in g)
    ensures ListsOk(JoinGraph(g, p, cs, coefs), heads, leaves)
  {
    JoinKeeps(g, p, cs, coefs);
    var t := Touch(g, cs);
    if p !in t {
      var h := t[p := Vertex(cs, coefs, [])];
      forall v | v in heads ensures Adopt(h, p, cs)[v].parents == [] {
        NotAdopted(h, p, cs, v);
      }
    }
  }

  lemma {:induction false} NotAdopted(g: Graph, p: int, cs: seq<int>, v: int)
    requires forall i :: 0 <= i < |cs| ==> cs[i] in g
    requires v in g && v !in cs
    ensures Adopt(g, p, cs)[v] == g[v]
  {
    if cs != [] {
      assert cs[|cs| - 1] in cs;
      assert v !in cs[..|cs| - 1];
      NotAdopted(g, p, cs[..|cs| - 1], v);
    }
  }
}
