// src/RepairScheduler_new.hh: choosing nodes so that every stripe beyond its
// tolerance gets back below it.
module Greedy {
  import opened Util
  import opened Trace

  datatype Risk = Risk(id: int, failCount: int, critical: bool, failedNodes: seq<int>)

  datatype Priority = Priority(node: int, criticals: int, highs: int, score: int)

  function FailedIn(failed: seq<int>, pl: seq<int>): seq<int> {
    if failed == [] then []
    else
      var n := |failed| - 1;
      FailedIn(failed[..n], pl) + if failed[n] in pl then [failed[n]] else []
  }

  function RiskOf(failed: seq<int>, s: Stripe, tolerance: int): Risk {
    var mine := FailedIn(failed, s.placement);
    Risk(s.id, |mine|, |mine| > tolerance, mine)
  }

  // The records of the stripes with something down, in stripe order.
  function Risks(failed: seq<int>, stripes: seq<Stripe>, tolerance: int): seq<Risk> {
    if stripes == [] then []
    else
      var n := |stripes| - 1;
      var r := RiskOf(failed, stripes[n], tolerance);
      Risks(failed, stripes[..n], tolerance) + if r.failCount > 0 then [r] else []
  }

  // One record for every stripe with something down, in stripe order.
  method ComputeStripeRisks(failed: seq<int>, stripes: seq<Stripe>, tolerance: int) returns (risks: seq<Risk>)
    ensures risks == Risks(failed, stripes, tolerance)
    ensures forall r :: r in risks <==> IsRisk(failed, stripes, tolerance, r)
    ensures NoDup(failed) ==> forall r :: r in risks ==> exists k :: 0 <= k < |stripes| && Describes(r, stripes[k], failed, tolerance)
  {
    risks := [];
    var i := 0;
    while i < |stripes|
      invariant 0 <= i <= |stripes| && risks == Risks(failed, stripes[..i], tolerance)
      invariant forall r :: r in risks <==> IsRisk(failed, stripes[..i], tolerance, r)
    {
      var mine := FailedOf(failed, stripes[i].placement);
      assert stripes[..i + 1][..i] == stripes[..i];
      forall r ensures IsRisk(failed, stripes[..i + 1], tolerance, r) <==>
        IsRisk(failed, stripes[..i], tolerance, r) || (r == RiskOf(failed, stripes[i], tolerance) && r.failCount > 0)
      {
        RiskStep(failed, stripes, i, tolerance, r);
      }
      if |mine| > 0 { risks := risks + [Risk(stripes[i].id, |mine|, |mine| > tolerance, mine)]; }
      i := i + 1;
    }
    assert stripes[..|stripes|] == stripes;
    forall r | r in risks && NoDup(failed) ensures exists k :: 0 <= k < |stripes| && Describes(r, stripes[k], failed, tolerance) {
      var k :| 0 <= k < |stripes| && r == RiskOf(failed, stripes[k], tolerance);
      RiskDescribes(failed, stripes[k], tolerance);
    }
  }

  // The nodes of the stripe that are down, how many they are, and whether they
  // are more than the code bears.
  ghost predicate Describes(r: Risk, s: Stripe, failed: seq<int>, tolerance: int) {
    && r.id == s.id && r.failCount == |Hit(failed, s.placement)| && (r.critical <==> |Hit(failed, s.placement)| > tolerance)
    && NoDup(r.failedNodes) && forall x :: x in r.failedNodes <==> x in failed && x in s.placement
  }

  lemma RiskDescribes(failed: seq<int>, s: Stripe, tolerance: int)
    requires NoDup(failed)
    ensures Describes(RiskOf(failed, s, tolerance), s, failed, tolerance)
  {
    FailedIsHit(failed, s.placement);
    FailedInIs(failed, s.placement);
  }

  lemma {:induction false} FailedInIs(failed: seq<int>, pl: seq<int>)
    requires NoDup(failed)
    ensures NoDup(FailedIn(failed, pl)) && forall x :: x in FailedIn(failed, pl) <==> x in failed && x in pl
  {
    if failed != [] {
      var n := |failed| - 1;
      assert failed == failed[..n] + [failed[n]] && failed[n] !in failed[..n];
      FailedInIs(failed[..n], pl);
    }
  }

  predicate IsRisk(failed: seq<int>, stripes: seq<Stripe>, tolerance: int, r: Risk) {
    r.failCount > 0 && exists i :: 0 <= i < |stripes| && r == RiskOf(failed, stripes[i], tolerance)
  }

  lemma RiskStep(failed: seq<int>, stripes: seq<Stripe>, i: nat, tolerance: int, r: Risk)
    requires i < |stripes|
    ensures IsRisk(failed, stripes[..i + 1], tolerance, r) <==>
      IsRisk(failed, stripes[..i], tolerance, r) || (r == RiskOf(failed, stripes[i], tolerance) && r.failCount > 0)
  {
    if IsRisk(failed, stripes[..i + 1], tolerance, r) {
      var l :| 0 <= l < i + 1 && r == RiskOf(failed, stripes[..i + 1][l], tolerance);
      if l < i { assert stripes[..i][l] == stripes[l]; }
    }
    if IsRisk(failed, stripes[..i], tolerance, r) {
      var l :| 0 <= l < i && r == RiskOf(failed, stripes[..i][l], tolerance);
      assert stripes[..i + 1][l] == stripes[l];
    }
    assert stripes[..i + 1][i] == stripes[i];
  }

  method FailedOf(failed: seq<int>, pl: seq<int>) returns (mine: seq<int>)
    ensures mine == FailedIn(failed, pl)
  {
    mine := [];
    var l := 0;
    while l < |failed|
      invariant 0 <= l <= |failed| && mine == FailedIn(failed[..l], pl)
    {
      assert failed[..l + 1][..l] == failed[..l];
      if failed[l] in pl { mine := mine + [failed[l]]; }
      l := l + 1;
    }
    assert failed[..|failed|] == failed;
  }

  // How many stripes with an id of the given set hold a block on the node.
  function On(stripes: seq<Stripe>, ids: set<int>, node: int): nat {
    if stripes == [] then 0
    else
      var s := stripes[|stripes| - 1];
      On(stripes[..|stripes| - 1], ids, node) + if s.id in ids && node in s.placement then 1 else 0
  }

  lemma {:induction false} OnPositive(stripes: seq<Stripe>, ids: set<int>, node: int, i: nat)
    requires i < |stripes| && stripes[i].id in ids && node in stripes[i].placement
    ensures On(stripes, ids, node) > 0
  {
    if i < |stripes| - 1 { OnPositive(stripes[..|stripes| - 1], ids, node, i); }
  }

  function Ids(risks: seq<Risk>): set<int> { set i | 0 <= i < |risks| :: risks[i].id }

  // The score is ten per critical stripe and one per high-risk stripe.
  function PriorityOf(stripes: seq<Stripe>, critical: set<int>, high: set<int>, node: int): Priority {
    var c, h := On(stripes, critical, node), On(stripes, high, node);
    Priority(node, c, h, 10 * c + h)
  }

  function Scores(stripes: seq<Stripe>, critical: set<int>, high: set<int>, nodes: seq<int>): (r: seq<Priority>)
    ensures |r| == |nodes| && forall i :: 0 <= i < |nodes| ==> r[i] == PriorityOf(stripes, critical, high, nodes[i])
  {
    seq(|nodes|, i requires 0 <= i < |nodes| => PriorityOf(stripes, critical, high, nodes[i]))
  }

  predicate Falling(p: seq<Priority>) { forall i, j :: 0 <= i < j < |p| ==> p[i].score >= p[j].score }

  // A sort by falling score; equal scores may end up in any order.
  method SortFalling(p: seq<Priority>) returns (r: seq<Priority>)
    ensures Falling(r) && multiset(r) == multiset(p)
  {
    r := [];
    var i := 0;
    while i < |p|
      invariant 0 <= i <= |p| && Falling(r) && multiset(r) == multiset(p[..i])
    {
      assert p[..i + 1] == p[..i] + [p[i]];
      r := InsertFalling(r, p[i]);
      i := i + 1;
    }
    assert p[..|p|] == p;
  }

  method InsertFalling(r: seq<Priority>, x: Priority) returns (s: seq<Priority>)
    requires Falling(r)
    ensures Falling(s) && multiset(s) == multiset(r) + multiset{x}
  {
    var j := 0;
    while j < |r| && r[j].score >= x.score
      invariant 0 <= j <= |r| && forall l :: 0 <= l < j ==> r[l].score >= x.score
    {
      j := j + 1;
    }
    assert r == r[..j] + r[j..];
    s := r[..j] + [x] + r[j..];
  }

  method ComputeNodePriorities(failed: seq<int>, stripes: seq<Stripe>, critical: seq<Risk>, high: seq<Risk>)
    returns (priorities: seq<Priority>)
    ensures Falling(priorities)
    ensures multiset(priorities) == multiset(Scores(stripes, Ids(critical), Ids(high), failed))
    ensures forall i, j :: 0 <= i < |priorities| && 0 <= j < |priorities| && Outranks(priorities[i], priorities[j]) ==> i < j
  {
    var criticalIds, highIds := Ids(critical), Ids(high);
    var list: seq<Priority> := [];
    var i := 0;
    while i < |failed|
      invariant 0 <= i <= |failed| && |list| == i
      invariant forall l :: 0 <= l < i ==> list[l] == PriorityOf(stripes, criticalIds, highIds, failed[l])
    {
      var c, h := CountStripes(stripes, criticalIds, highIds, failed[i]);
      list := list + [Priority(failed[i], c, h, c * 10 + h)];
      i := i + 1;
    }
    assert list == Scores(stripes, criticalIds, highIds, failed);
    priorities := SortFalling(list);
    forall i, j | 0 <= i < |priorities| && 0 <= j < |priorities| && Outranks(priorities[i], priorities[j]) ensures i < j {
      ScoreIs(priorities, i, stripes, criticalIds, highIds, failed);
      ScoreIs(priorities, j, stripes, criticalIds, highIds, failed);
    }
  }

  // One critical stripe more outweighs up to nine high-risk stripes; with as
  // many critical stripes, more high-risk stripes decide.
  predicate Outranks(a: Priority, b: Priority) {
    || (a.criticals > b.criticals && b.highs - a.highs < 10 * (a.criticals - b.criticals))
    || (a.criticals == b.criticals && a.highs > b.highs)
  }

  // What a record says about its node, counted over the set of stripes.
  lemma ScoreIs(p: seq<Priority>, i: nat, stripes: seq<Stripe>, critical: set<int>, high: set<int>, failed: seq<int>)
    requires multiset(p) == multiset(Scores(stripes, critical, high, failed)) && i < |p|
    ensures p[i].node in failed
    ensures p[i].criticals == |OnSet(stripes, critical, p[i].node)| && p[i].highs == |OnSet(stripes, high, p[i].node)|
    ensures p[i].score == 10 * p[i].criticals + p[i].highs
  {
    Listed(p, stripes, critical, high, failed, i);
    OnCounts(stripes, critical, p[i].node);
    OnCounts(stripes, high, p[i].node);
  }

  lemma {:induction false} OnCounts(stripes: seq<Stripe>, ids: set<int>, node: int)
    ensures On(stripes, ids, node) == |OnSet(stripes, ids, node)|
  {
    if stripes == [] {
      assert OnSet(stripes, ids, node) == {};
    } else {
      var n := |stripes| - 1;
      OnCounts(stripes[..n], ids, node);
      OnGrows(stripes, n, ids, node);
    }
  }

  // The places of those stripes in the list.
  function OnSet(stripes: seq<Stripe>, ids: set<int>, node: int): set<int> {
    set k | 0 <= k < |stripes| && stripes[k].id in ids && node in stripes[k].placement
  }

  lemma OnGrows(stripes: seq<Stripe>, n: nat, ids: set<int>, node: int)
    requires |stripes| == n + 1
    ensures |OnSet(stripes, ids, node)| == |OnSet(stripes[..n], ids, node)| + if stripes[n].id in ids && node in stripes[n].placement then 1 else 0
  {
    var a, b := OnSet(stripes, ids, node), OnSet(stripes[..n], ids, node);
    forall k ensures k in a <==> k in b || (k == n && stripes[n].id in ids && node in stripes[n].placement) {
      if 0 <= k < n { assert stripes[..n][k] == stripes[k]; }
    }
    WithOne(b, n);
    assert a == if stripes[n].id in ids && node in stripes[n].placement then b + {n} else b;
  }

  method CountStripes(stripes: seq<Stripe>, criticalIds: set<int>, highIds: set<int>, node: int) returns (c: int, h: int)
    ensures c == On(stripes, criticalIds, node) && h == On(stripes, highIds, node)
  {
    c, h := 0, 0;
    var i := 0;
    while i < |stripes|
      invariant 0 <= i <= |stripes|
      invariant c == On(stripes[..i], criticalIds, node) && h == On(stripes[..i], highIds, node)
    {
      assert stripes[..i + 1][..i] == stripes[..i];
      if node in stripes[i].placement {
        if stripes[i].id in criticalIds { c := c + 1; }
        if stripes[i].id in highIds { h := h + 1; }
      }
      i := i + 1;
    }
    assert stripes[..|stripes|] == stripes;
  }

  // ------------------------------------------------------------- the selection

  // How many of the first nodes of a list hold a block of the placement.
  function Holding(nodes: seq<int>, pl: seq<int>): nat {
    if nodes == [] then 0 else Holding(nodes[..|nodes| - 1], pl) + if nodes[|nodes| - 1] in pl then 1 else 0
  }

  function Need(failCount: int, tolerance: int): int {
    if failCount - tolerance + 1 > 1 then failCount - tolerance + 1 else 1
  }

  // It is the smallest number, but at least one, that brings a stripe below
  // its tolerance.
  lemma NeedIsLeast(failCount: int, tolerance: int, m: int)
    ensures Need(failCount, tolerance) >= 1 && failCount - Need(failCount, tolerance) < tolerance
    ensures m >= 1 && failCount - m < tolerance ==> m >= Need(failCount, tolerance)
  {
  }

  function NodesOf(p: seq<Priority>): (r: seq<int>)
    ensures |r| == |p| && forall i :: 0 <= i < |p| ==> r[i] == p[i].node
  {
    seq(|p|, i requires 0 <= i < |p| => p[i].node)
  }

  // What is left to cover of every critical stripe after the nodes of seen.
  ghost predicate Covering(uncovered: map<int, int>, need: map<int, int>, byId: map<int, Stripe>, seen: seq<int>, selected: seq<int>) {
    && uncovered.Keys <= need.Keys
    && (forall id :: id in need && id in byId ==>
          && (id in uncovered ==> uncovered[id] == need[id] - Holding(seen, byId[id].placement) && uncovered[id] > 0)
          && (id !in uncovered ==> Holding(selected, byId[id].placement) >= need[id])
          && (id in uncovered ==> Holding(selected, byId[id].placement) == Holding(seen, byId[id].placement)))
  }

  // A greedy pass over a list: short tells, of the nodes taken so far and one
  // more, whether that one is still needed.
  ghost function Pass(nodes: seq<int>, short: (seq<int>, int) -> bool): seq<int> {
    if nodes == [] then []
    else
      var n := |nodes| - 1;
      var before := Pass(nodes[..n], short);
      if short(before, nodes[n]) then before + [nodes[n]] else before
  }

  // Each node that is taken was needed when its turn came ...
  lemma {:induction false} TakenWasNeeded(nodes: seq<int>, short: (seq<int>, int) -> bool, i: nat)
    requires i < |Pass(nodes, short)|
    ensures var s := Pass(nodes, short); short(s[..i], s[i]) && s[i] in nodes
  {
    var n := |nodes| - 1;
    var before := Pass(nodes[..n], short);
    if i < |before| {
      TakenWasNeeded(nodes[..n], short, i);
      assert before[..i] == Pass(nodes, short)[..i];
    } else {
      assert before == Pass(nodes, short)[..i];
    }
  }

  // ... what is taken is taken in list order, and whoever is needed is taken.
  lemma {:induction false} NeededIsTaken(nodes: seq<int>, short: (seq<int>, int) -> bool, p: nat)
    requires p < |nodes|
    ensures Pass(nodes[..p], short) <= Pass(nodes[..p + 1], short) <= Pass(nodes, short)
    ensures Pass(nodes[..p + 1], short) == Pass(nodes[..p], short) + if short(Pass(nodes[..p], short), nodes[p]) then [nodes[p]] else []
  {
    var n := |nodes| - 1;
    assert nodes[..p + 1][..p] == nodes[..p];
    if p == n {
      assert nodes[..p + 1] == nodes;
    } else {
      NeededIsTaken(nodes[..n], short, p);
      assert nodes[..n][..p] == nodes[..p] && nodes[..n][..p + 1] == nodes[..p + 1];
    }
  }

  // A pass that stops because nothing is needed any more might as well go on.
  lemma {:induction false} PassOn(nodes: seq<int>, upto: nat, short: (seq<int>, int) -> bool)
    requires upto <= |nodes| && forall p :: upto <= p < |nodes| ==> !short(Pass(nodes[..upto], short), nodes[p])
    ensures Pass(nodes, short) == Pass(nodes[..upto], short)
  {
    if upto == |nodes| {
      assert nodes[..upto] == nodes;
    } else {
      var n := |nodes| - 1;
      assert nodes[..n][..upto] == nodes[..upto];
      PassOn(nodes[..n], upto, short);
    }
  }

  lemma {:induction false} PassSame(nodes: seq<int>, a: (seq<int>, int) -> bool, b: (seq<int>, int) -> bool)
    requires forall before, x {:trigger b(before, x)} :: a(before, x) == b(before, x)
    ensures Pass(nodes, a) == Pass(nodes, b)
  {
    if nodes != [] { PassSame(nodes[..|nodes| - 1], a, b); }
  }

  // Node x is on a critical stripe that needs more nodes than it has so far.
  ghost predicate Short(failed: seq<int>, stripes: seq<Stripe>, critical: seq<Risk>, tolerance: int, before: seq<int>, x: int) {
    exists k :: 0 <= k < |stripes| && RiskOf(failed, stripes[k], tolerance) in critical && x in stripes[k].placement
             && Holding(before, stripes[k].placement) < Need(RiskOf(failed, stripes[k], tolerance).failCount, tolerance)
  }

  ghost function ShortTest(failed: seq<int>, stripes: seq<Stripe>, critical: seq<Risk>, tolerance: int): (seq<int>, int) -> bool {
    (before: seq<int>, x: int) => Short(failed, stripes, critical, tolerance, before, x)
  }

  lemma PassNext(nodes: seq<int>, x: int, short: (seq<int>, int) -> bool)
    ensures var s := Pass(nodes, short); Pass(nodes + [x], short) == if short(s, x) then s + [x] else s
  {
    assert (nodes + [x])[..|nodes|] == nodes;
  }

  // The same by identifiers, as the loop keeps them.
  ghost predicate ShortBy(need: map<int, int>, byId: map<int, Stripe>, before: seq<int>, x: int) {
    exists id :: id in need && id in byId && x in byId[id].placement && Holding(before, byId[id].placement) < need[id]
  }

  ghost function ShortByTest(need: map<int, int>, byId: map<int, Stripe>): (seq<int>, int) -> bool {
    (before: seq<int>, x: int) => ShortBy(need, byId, before, x)
  }

  lemma UsefulIsShort(uncovered: map<int, int>, need: map<int, int>, byId: map<int, Stripe>, seen: seq<int>, selected: seq<int>, x: int)
    requires Covering(uncovered, need, byId, seen, selected)
    ensures ShortBy(need, byId, selected, x) <==> exists id :: id in uncovered && id in need && id in byId && x in byId[id].placement
  {
  }

  lemma ShortIsShort(failed: seq<int>, stripes: seq<Stripe>, critical: seq<Risk>, tolerance: int, need: map<int, int>,
                     byId: map<int, Stripe>, before: seq<int>, x: int)
    requires forall r :: r in critical ==> IsRisk(failed, stripes, tolerance, r)
    requires forall r :: r in critical ==> r.id in need && need[r.id] == Need(r.failCount, tolerance)
    requires forall id :: id in need ==> exists r :: r in critical && r.id == id
    requires forall i :: 0 <= i < |stripes| ==> stripes[i].id in byId && byId[stripes[i].id] == stripes[i]
    ensures ShortBy(need, byId, before, x) <==> Short(failed, stripes, critical, tolerance, before, x)
  {
    if id :| id in need && id in byId && x in byId[id].placement && Holding(before, byId[id].placement) < need[id] {
      var r :| r in critical && r.id == id;
      var k :| 0 <= k < |stripes| && r == RiskOf(failed, stripes[k], tolerance);
      assert byId[id] == stripes[k];
    }
    if Short(failed, stripes, critical, tolerance, before, x) {
      var k :| 0 <= k < |stripes| && RiskOf(failed, stripes[k], tolerance) in critical && x in stripes[k].placement
             && Holding(before, stripes[k].placement) < Need(RiskOf(failed, stripes[k], tolerance).failCount, tolerance);
      assert stripes[k].id in need;
    }
  }

  // One node: every uncovered stripe it serves needs one node less.
  method CoverBy(node: int, uncovered0: map<int, int>, byId: map<int, Stripe>) returns (uncovered: map<int, int>, useful: bool)
    requires forall id :: id in uncovered0 ==> id in byId
    ensures uncovered.Keys <= uncovered0.Keys
    ensures useful <==> exists id :: id in uncovered0 && node in byId[id].placement
    ensures forall id :: id in uncovered0 ==>
              if node in byId[id].placement then
                (id in uncovered <==> uncovered0[id] - 1 > 0) && (id in uncovered ==> uncovered[id] == uncovered0[id] - 1)
              else id in uncovered && uncovered[id] == uncovered0[id]
  {
    uncovered, useful := uncovered0, false;
    var todo := uncovered0.Keys;
    while todo != {}
      invariant todo <= uncovered0.Keys && uncovered.Keys <= uncovered0.Keys
      invariant useful <==> exists id :: id in uncovered0 && id !in todo && node in byId[id].placement
      invariant forall id :: id in todo ==> id in uncovered && uncovered[id] == uncovered0[id]
      invariant forall id :: id in uncovered0 && id !in todo ==>
                  if node in byId[id].placement then
                    (id in uncovered <==> uncovered0[id] - 1 > 0) && (id in uncovered ==> uncovered[id] == uncovered0[id] - 1)
                  else id in uncovered && uncovered[id] == uncovered0[id]
      decreases |todo|
    {
      NonEmpty(todo);
      var id :| id in todo;
      todo := todo - {id};
      if node in byId[id].placement {
        useful := true;
        if uncovered[id] - 1 <= 0 { uncovered := uncovered - {id}; } else { uncovered := uncovered[id := uncovered[id] - 1]; }
      }
    }
  }

  // The loop over the sorted nodes; i is where it stopped.
  method SelectLoop(priorities: seq<Priority>, need: map<int, int>, byId: map<int, Stripe>)
    returns (selected: seq<int>, uncovered: map<int, int>, i: nat)
    requires NoDup(NodesOf(priorities)) && (forall id :: id in need ==> id in byId && need[id] > 0)
    ensures i <= |priorities| && Covering(uncovered, need, byId, NodesOf(priorities[..i]), selected)
    ensures uncovered == map[] || (i < |priorities| ==> priorities[i].score == 0)
    ensures NoDup(selected) && forall x :: x in selected ==> x in NodesOf(priorities[..i])
    ensures selected == Pass(NodesOf(priorities[..i]), ShortByTest(need, byId))
  {
    uncovered := need;
    selected := [];
    i := 0;
    assert NodesOf(priorities[..0]) == [];
    while i < |priorities|
      invariant 0 <= i <= |priorities| && forall id :: id in uncovered ==> id in byId
      invariant Covering(uncovered, need, byId, NodesOf(priorities[..i]), selected)
      invariant NoDup(selected) && forall x :: x in selected ==> x in NodesOf(priorities[..i])
      invariant selected == Pass(NodesOf(priorities[..i]), ShortByTest(need, byId))
    {
      if uncovered == map[] { break; }
      if priorities[i].score == 0 { break; }
      var node := priorities[i].node;
      var before := uncovered;
      var useful;
      uncovered, useful := CoverBy(node, before, byId);
      NodeDone(priorities, i, before, uncovered, need, byId, selected, node, useful);
      if useful { selected := selected + [node]; }
      i := i + 1;
    }
  }

  // What one turn of the loop keeps.
  lemma NodeDone(p: seq<Priority>, i: nat, before: map<int, int>, after: map<int, int>, need: map<int, int>, byId: map<int, Stripe>,
                 selected: seq<int>, node: int, useful: bool)
    requires i < |p| && NoDup(NodesOf(p)) && node == p[i].node && after.Keys <= before.Keys
    requires Covering(before, need, byId, NodesOf(p[..i]), selected) && forall id :: id in before ==> id in byId
    requires useful <==> exists id :: id in before && node in byId[id].placement
    requires forall id :: id in before ==>
              if node in byId[id].placement then
                (id in after <==> before[id] - 1 > 0) && (id in after ==> after[id] == before[id] - 1)
              else id in after && after[id] == before[id]
    requires NoDup(selected) && forall x :: x in selected ==> x in NodesOf(p[..i])
    requires selected == Pass(NodesOf(p[..i]), ShortByTest(need, byId))
    ensures var s := if useful then selected + [node] else selected;
      && Covering(after, need, byId, NodesOf(p[..i + 1]), s) && s == Pass(NodesOf(p[..i + 1]), ShortByTest(need, byId))
      && NoDup(s) && forall x :: x in s ==> x in NodesOf(p[..i + 1])
  {
    NextNodes(p, i);
    CoverStep(before, after, need, byId, NodesOf(p[..i]), selected, node, useful);
    UsefulIsShort(before, need, byId, NodesOf(p[..i]), selected, node);
    PassNext(NodesOf(p[..i]), node, ShortByTest(need, byId));
  }

  lemma NextNodes(p: seq<Priority>, i: nat)
    requires i < |p| && NoDup(NodesOf(p))
    ensures NodesOf(p[..i + 1]) == NodesOf(p[..i]) + [p[i].node]
    ensures p[i].node !in NodesOf(p[..i])
  {
    forall l | 0 <= l < i ensures NodesOf(p[..i])[l] != p[i].node { assert NodesOf(p)[l] != NodesOf(p)[i]; }
  }

  // The nodes are taken in the order of the priorities, each one because a
  // critical stripe on it was still short of nodes, and none is passed over
  // that was needed. At least max(fail_count - tolerance + 1, 1) failed nodes
  // of every critical stripe are selected.
  method GreedySelectNodes(priorities: seq<Priority>, critical: seq<Risk>, stripes: seq<Stripe>, tolerance: int,
                           ghost failed: seq<int>, ghost high: set<int>)
    returns (selected: seq<int>)
    requires UniqueIds(stripes) && NoDup(failed) && tolerance >= 1
    requires Falling(priorities) && multiset(priorities) == multiset(Scores(stripes, Ids(critical), high, failed))
    requires forall r :: r in critical ==> IsRisk(failed, stripes, tolerance, r)
    ensures NoDup(selected) && forall x :: x in selected ==> x in failed
    ensures forall k {:trigger stripes[k]} :: 0 <= k < |stripes| ==> Served(failed, stripes[k], critical, tolerance, selected)
    ensures selected == Pass(NodesOf(priorities), ShortTest(failed, stripes, critical, tolerance))
    ensures forall i :: 0 <= i < |selected| ==> Short(failed, stripes, critical, tolerance, selected[..i], selected[i])
  {
    var need := Needs(critical, tolerance, failed, stripes);
    var byId := ById(stripes);
    CriticalKnown(critical, failed, stripes, tolerance, byId);
    NodesDistinct(priorities, stripes, Ids(critical), high, failed);
    var uncovered, i;
    selected, uncovered, i := SelectLoop(priorities, need, byId);
    PassedOver(priorities, i, uncovered, need, byId, critical, stripes, failed, high, tolerance, selected);
    forall l | 0 <= l < |selected| ensures Short(failed, stripes, critical, tolerance, selected[..l], selected[l]) {
      TakenWasNeeded(NodesOf(priorities), ShortTest(failed, stripes, critical, tolerance), l);
    }
    PrefixNodes(priorities, i, failed, stripes, Ids(critical), high);
    forall k | 0 <= k < |stripes| ensures Served(failed, stripes[k], critical, tolerance, selected) {
      var r := RiskOf(failed, stripes[k], tolerance);
      if r in critical && uncovered != map[] {
        LateNodes(priorities, i, critical, stripes, failed, high, k, r, tolerance);
      }
    }
  }

  // Nothing after the place where the loop stopped was needed.
  lemma PassedOver(p: seq<Priority>, i: nat, uncovered: map<int, int>, need: map<int, int>, byId: map<int, Stripe>,
                   critical: seq<Risk>, stripes: seq<Stripe>, failed: seq<int>, high: set<int>, tolerance: int,
                   selected: seq<int>)
    requires i <= |p| && Falling(p) && multiset(p) == multiset(Scores(stripes, Ids(critical), high, failed))
    requires forall r :: r in critical ==> IsRisk(failed, stripes, tolerance, r)
    requires forall r :: r in critical ==> r.id in need && need[r.id] == Need(r.failCount, tolerance)
    requires forall id :: id in need ==> exists r :: r in critical && r.id == id
    requires forall k :: 0 <= k < |stripes| ==> stripes[k].id in byId && byId[stripes[k].id] == stripes[k]
    requires Covering(uncovered, need, byId, NodesOf(p[..i]), selected)
    requires uncovered == map[] || (i < |p| ==> p[i].score == 0)
    requires selected == Pass(NodesOf(p[..i]), ShortByTest(need, byId))
    ensures selected == Pass(NodesOf(p), ShortTest(failed, stripes, critical, tolerance))
  {
    var byIds, test := ShortByTest(need, byId), ShortTest(failed, stripes, critical, tolerance);
    forall before, x ensures byIds(before, x) == test(before, x) {
      ShortIsShort(failed, stripes, critical, tolerance, need, byId, before, x);
    }
    PassSame(NodesOf(p[..i]), byIds, test);
    assert NodesOf(p)[..i] == NodesOf(p[..i]);
    forall l | i <= l < |p| ensures !test(selected, NodesOf(p)[l]) {
      if uncovered == map[] {
        UsefulIsShort(uncovered, need, byId, NodesOf(p[..i]), selected, NodesOf(p)[l]);
        assert !byIds(selected, NodesOf(p)[l]);
      } else {
        NotOnCritical(p, i, l, critical, stripes, failed, high, tolerance, selected);
      }
    }
    PassOn(NodesOf(p), i, test);
  }

  lemma NotOnCritical(p: seq<Priority>, i: nat, l: nat, critical: seq<Risk>, stripes: seq<Stripe>, failed: seq<int>, high: set<int>,
                      tolerance: int, before: seq<int>)
    requires i <= l < |p| && Falling(p) && p[i].score == 0
    requires multiset(p) == multiset(Scores(stripes, Ids(critical), high, failed))
    ensures !Short(failed, stripes, critical, tolerance, before, p[l].node)
  {
    forall k | 0 <= k < |stripes| && RiskOf(failed, stripes[k], tolerance) in critical ensures p[l].node !in stripes[k].placement {
      var r := RiskOf(failed, stripes[k], tolerance);
      var c :| 0 <= c < |critical| && critical[c] == r;
      assert stripes[k].id in Ids(critical);
      LateNode(p, i, l, stripes, Ids(critical), high, failed, k);
    }
  }

  predicate Served(failed: seq<int>, s: Stripe, critical: seq<Risk>, tolerance: int, selected: seq<int>) {
    var r := RiskOf(failed, s, tolerance);
    r in critical ==> Holding(selected, s.placement) >= Need(r.failCount, tolerance)
  }

  // max(fail_count - tolerance + 1, 1) nodes for every critical stripe.
  method Needs(critical: seq<Risk>, tolerance: int, ghost failed: seq<int>, ghost stripes: seq<Stripe>) returns (m: map<int, int>)
    requires UniqueIds(stripes) && forall r :: r in critical ==> IsRisk(failed, stripes, tolerance, r)
    ensures forall r :: r in critical ==> r.id in m && m[r.id] == Need(r.failCount, tolerance)
    ensures forall id :: id in m ==> m[id] >= 1 && exists r :: r in critical && r.id == id
  {
    m := map[];
    var i := 0;
    while i < |critical|
      invariant 0 <= i <= |critical|
      invariant forall r :: r in critical[..i] ==> r.id in m && m[r.id] == Need(r.failCount, tolerance)
      invariant forall id :: id in m ==> m[id] >= 1 && exists r :: r in critical[..i] && r.id == id
    {
      var r := critical[i];
      assert r in critical && critical[..i + 1] == critical[..i] + [r];
      forall q | q in critical[..i] && q.id == r.id ensures q == r {
        assert q in critical;
        SameStripe(failed, stripes, tolerance, q, r);
      }
      m := m[r.id := Need(r.failCount, tolerance)];
      i := i + 1;
    }
    assert critical[..|critical|] == critical;
  }

  lemma SameStripe(failed: seq<int>, stripes: seq<Stripe>, tolerance: int, a: Risk, b: Risk)
    requires UniqueIds(stripes) && IsRisk(failed, stripes, tolerance, a) && IsRisk(failed, stripes, tolerance, b)
    requires a.id == b.id
    ensures a == b
  {
    var i :| 0 <= i < |stripes| && a == RiskOf(failed, stripes[i], tolerance);
    var j :| 0 <= j < |stripes| && b == RiskOf(failed, stripes[j], tolerance);
  }

  lemma CriticalKnown(critical: seq<Risk>, failed: seq<int>, stripes: seq<Stripe>, tolerance: int, byId: map<int, Stripe>)
    requires forall r :: r in critical ==> IsRisk(failed, stripes, tolerance, r)
    requires forall i :: 0 <= i < |stripes| ==> stripes[i].id in byId && byId[stripes[i].id] == stripes[i]
    ensures forall r :: r in critical ==> r.id in byId
  {
    forall r | r in critical ensures r.id in byId {
      var i :| 0 <= i < |stripes| && r == RiskOf(failed, stripes[i], tolerance);
    }
  }

  lemma CoverStep(before: map<int, int>, after: map<int, int>, need: map<int, int>, byId: map<int, Stripe>,
                  seen: seq<int>, selected: seq<int>, node: int, useful: bool)
    requires Covering(before, need, byId, seen, selected) && after.Keys <= before.Keys
    requires forall id :: id in before ==> id in byId
    requires useful <==> exists id :: id in before && node in byId[id].placement
    requires forall id :: id in before ==>
              if node in byId[id].placement then
                (id in after <==> before[id] - 1 > 0) && (id in after ==> after[id] == before[id] - 1)
              else id in after && after[id] == before[id]
    ensures Covering(after, need, byId, seen + [node], if useful then selected + [node] else selected)
  {
    assert (seen + [node])[..|seen|] == seen && (selected + [node])[..|selected|] == selected;
  }

  // ----------------------------------------------------- the list of priorities

  function HoldingP(p: seq<Priority>, pl: seq<int>): nat {
    if p == [] then 0 else HoldingP(p[..|p| - 1], pl) + if p[|p| - 1].node in pl then 1 else 0
  }

  lemma {:induction false} HoldingPAppend(a: seq<Priority>, b: seq<Priority>, pl: seq<int>)
    ensures HoldingP(a + b, pl) == HoldingP(a, pl) + HoldingP(b, pl)
  {
    if b == [] {
      assert a + b == a;
    } else {
      var n := |b| - 1;
      HoldingPAppend(a, b[..n], pl);
      assert (a + b)[..|a + b| - 1] == a + b[..n];
    }
  }

  lemma {:induction false} HoldingNodes(p: seq<Priority>, pl: seq<int>)
    ensures Holding(NodesOf(p), pl) == HoldingP(p, pl)
  {
    if p != [] {
      var n := |p| - 1;
      HoldingNodes(p[..n], pl);
      assert NodesOf(p)[..n] == NodesOf(p[..n]);
    }
  }

  lemma Listed(p: seq<Priority>, stripes: seq<Stripe>, critical: set<int>, high: set<int>, failed: seq<int>, i: nat)
    requires multiset(p) == multiset(Scores(stripes, critical, high, failed)) && i < |p|
    ensures p[i].node in failed && p[i] == PriorityOf(stripes, critical, high, p[i].node)
  {
    var q := Scores(stripes, critical, high, failed);
    var x := p[i];
    assert x in multiset(p);
    assert x in q;
    var j :| 0 <= j < |q| && q[j] == x;
    assert failed[j] in failed;
  }

  lemma NodesDistinct(p: seq<Priority>, stripes: seq<Stripe>, critical: set<int>, high: set<int>, failed: seq<int>)
    requires multiset(p) == multiset(Scores(stripes, critical, high, failed)) && NoDup(failed)
    ensures NoDup(NodesOf(p))
  {
    var q := Scores(stripes, critical, high, failed);
    forall i, j | 0 <= i < j < |q| ensures q[i] != q[j] { assert failed[i] != failed[j]; }
    forall i, j | 0 <= i < j < |p| ensures p[i].node != p[j].node {
      Listed(p, stripes, critical, high, failed, i);
      Listed(p, stripes, critical, high, failed, j);
      if p[i].node == p[j].node {
        Twice(p, i, j);
        Once(q, p[i]);
      }
    }
  }

  lemma PrefixNodes(p: seq<Priority>, i: nat, failed: seq<int>, stripes: seq<Stripe>, critical: set<int>, high: set<int>)
    requires i <= |p| && multiset(p) == multiset(Scores(stripes, critical, high, failed))
    ensures forall x :: x in NodesOf(p[..i]) ==> x in failed
  {
    forall x | x in NodesOf(p[..i]) ensures x in failed {
      var l :| 0 <= l < i && p[l].node == x;
      Listed(p, stripes, critical, high, failed, l);
    }
  }

  lemma {:induction false} NoneHolding(p: seq<Priority>, pl: seq<int>)
    requires forall i :: 0 <= i < |p| ==> p[i].node !in pl
    ensures HoldingP(p, pl) == 0
  {
    if p != [] { NoneHolding(p[..|p| - 1], pl); }
  }

  lemma LateNode(p: seq<Priority>, i: nat, j: nat, stripes: seq<Stripe>, ids: set<int>, high: set<int>, failed: seq<int>, k: nat)
    requires i <= j < |p| && Falling(p) && p[i].score == 0 && k < |stripes| && stripes[k].id in ids
    requires multiset(p) == multiset(Scores(stripes, ids, high, failed))
    ensures p[j].node !in stripes[k].placement
  {
    Listed(p, stripes, ids, high, failed, j);
    assert p[j].score <= p[i].score;
    if p[j].node in stripes[k].placement { OnPositive(stripes, ids, p[j].node, k); }
  }

  // Once the scores are down to zero, every failed node of every critical
  // stripe has been looked at.
  lemma LateNodes(p: seq<Priority>, i: nat, critical: seq<Risk>, stripes: seq<Stripe>, failed: seq<int>, high: set<int>,
                  k: nat, r: Risk, tolerance: int)
    requires i <= |p| && Falling(p) && (i < |p| ==> p[i].score == 0) && tolerance >= 1 && NoDup(failed)
    requires multiset(p) == multiset(Scores(stripes, Ids(critical), high, failed))
    requires k < |stripes| && r in critical && r == RiskOf(failed, stripes[k], tolerance) && r.failCount > 0
    ensures Holding(NodesOf(p[..i]), stripes[k].placement) >= Need(r.failCount, tolerance)
  {
    var pl := stripes[k].placement;
    var ids := Ids(critical);
    var c :| 0 <= c < |critical| && critical[c] == r;
    assert stripes[k].id in ids;
    var tail := p[i..];
    forall j | 0 <= j < |tail| ensures tail[j].node !in pl {
      LateNode(p, i, i + j, stripes, ids, high, failed, k);
    }
    NoneHolding(tail, pl);
    assert p == p[..i] + tail;
    HoldingPAppend(p[..i], tail, pl);
    AllHolding(p, stripes, ids, high, failed, pl);
    HoldingNodes(p[..i], pl);
    HoldingNodes(p, pl);
  }

  lemma EveryNode(p: seq<Priority>, stripes: seq<Stripe>, critical: set<int>, high: set<int>, failed: seq<int>)
    requires multiset(p) == multiset(Scores(stripes, critical, high, failed))
    ensures forall x :: x in failed ==> x in NodesOf(p)
  {
    var q := Scores(stripes, critical, high, failed);
    forall x | x in failed ensures x in NodesOf(p) {
      var j :| 0 <= j < |failed| && failed[j] == x;
      assert q[j] in multiset(q);
      assert q[j] in p;
      var i :| 0 <= i < |p| && p[i] == q[j];
      assert NodesOf(p)[i] == x;
    }
  }

  // The whole list holds every failed node of the stripe.
  lemma AllHolding(p: seq<Priority>, stripes: seq<Stripe>, critical: set<int>, high: set<int>, failed: seq<int>, pl: seq<int>)
    requires multiset(p) == multiset(Scores(stripes, critical, high, failed)) && NoDup(failed)
    ensures Holding(NodesOf(p), pl) >= |FailedIn(failed, pl)|
  {
    NodesDistinct(p, stripes, critical, high, failed);
    EveryNode(p, stripes, critical, high, failed);
    HoldingIsHit(NodesOf(p), pl);
    FailedIsHit(failed, pl);
    Fewer(Hit(failed, pl), Hit(NodesOf(p), pl));
  }

  // ------------------------------------------------------- what it is good for

  lemma HitGrows(nodes: seq<int>, n: nat, pl: seq<int>)
    requires NoDup(nodes) && |nodes| == n + 1
    ensures NoDup(nodes[..n])
    ensures |Hit(nodes, pl)| == |Hit(nodes[..n], pl)| + if nodes[n] in pl then 1 else 0
  {
    var a, b, x := Hit(nodes, pl), Hit(nodes[..n], pl), nodes[n];
    assert forall y :: y in nodes <==> y in nodes[..n] || y == x by { assert nodes == nodes[..n] + [x]; }
    assert x !in nodes[..n];
    WithOne(b, x);
    assert a == if x in pl then b + {x} else b;
  }

  lemma WithOne(b: set<int>, x: int)
    requires x !in b
    ensures |b + {x}| == |b| + 1
  {
  }

  lemma {:induction false} HoldingIsHit(nodes: seq<int>, pl: seq<int>)
    requires NoDup(nodes)
    ensures |Hit(nodes, pl)| == Holding(nodes, pl)
  {
    if nodes == [] {
      assert Hit(nodes, pl) == {};
    } else {
      var n := |nodes| - 1;
      HoldingIsHit(nodes[..n], pl);
      HitGrows(nodes, n, pl);
    }
  }

  lemma {:induction false} FailedIsHit(failed: seq<int>, pl: seq<int>)
    requires NoDup(failed)
    ensures |Hit(failed, pl)| == |FailedIn(failed, pl)|
  {
    if failed == [] {
      assert Hit(failed, pl) == {};
    } else {
      var n := |failed| - 1;
      FailedIsHit(failed[..n], pl);
      HitGrows(failed, n, pl);
    }
  }

  // Every stripe beyond its tolerance ends strictly below it.
  lemma BackBelowTolerance(s: Stripe, failed: seq<int>, selected: seq<int>, left: seq<int>, tolerance: int)
    requires NoDup(failed) && NoDup(selected) && forall x :: x in selected ==> x in failed
    requires forall x :: x in left <==> x in failed && x !in selected
    requires var r := RiskOf(failed, s, tolerance); r.critical && Holding(selected, s.placement) >= Need(r.failCount, tolerance)
    ensures |Hit(left, s.placement)| < tolerance
  {
    var pl := s.placement;
    HoldingIsHit(selected, pl);
    FailedIsHit(failed, pl);
    Leftover(failed, selected, left, pl);
  }

  lemma Leftover(failed: seq<int>, selected: seq<int>, left: seq<int>, pl: seq<int>)
    requires forall x :: x in selected ==> x in failed
    requires forall x :: x in left <==> x in failed && x !in selected
    ensures |Hit(left, pl)| <= |Hit(failed, pl)| - |Hit(selected, pl)|
  {
    MinusSize(Hit(failed, pl), Hit(selected, pl));
    Fewer(Hit(left, pl), Hit(failed, pl) - Hit(selected, pl));
  }
}
