// src/genMLP.cc: the trade-off curve between load and bandwidth, kept as a
// doubly linked list between two sentinels, and the search that grows it.
module Curve {
  import opened Util

  // One colouring of the intermediate vertices, as an entry of the list.  Its
  // string is its vector of colours, written with a fixed number of digits.
  class Solution {
    const solution: seq<int>
    const load: int
    const bdwt: int
    var expanded: bool
    var prev: Solution?
    var next: Solution?

    constructor (s: seq<int>, l: int, b: int)
      ensures solution == s && load == l && bdwt == b && !expanded && prev == null && next == null
    {
      solution, load, bdwt, expanded, prev, next := s, l, b, false, null, null;
    }
  }

  // ---------------------------------------------------------------- dominance

  predicate Dominates(a: Solution, b: Solution) {
    a.load <= b.load && a.bdwt <= b.bdwt && (a.load < b.load || a.bdwt < b.bdwt)
  }

  method Dominate(a: Solution, b: Solution) returns (r: bool)
    ensures r <==> Dominates(a, b)
  {
    if a.load < b.load {
      if a.bdwt < b.bdwt { r := true; } else if a.bdwt == b.bdwt { r := true; } else { r := false; }
    } else if a.load > b.load {
      r := false;
    } else {
      if a.bdwt < b.bdwt { r := true; } else { r := false; }
    }
  }

  // Strictly increasing in load and strictly decreasing in bandwidth.
  ghost predicate Strict(c: seq<Solution>) {
    forall i, j :: 0 <= i < j < |c| ==> c[i].load < c[j].load && c[i].bdwt > c[j].bdwt
  }

  // ------------------------------------------------------------------ the list

  ghost predicate Chained(full: seq<Solution>)
    reads full`next, full`prev
  {
    && NoDup(full)
    && forall i, j {:trigger full[i], full[j]} :: 0 <= i < j < |full| && j == i + 1 ==> full[i].next == full[j] && full[j].prev == full[i]
  }

  ghost function Cells(full: seq<Solution>): set<Solution> { set x | x in full }

  // Put sol between full[i] and full[j]; what was between them is dropped.
  method Splice(sol: Solution, a: Solution, b: Solution, ghost full: seq<Solution>, ghost i: nat, ghost j: nat)
    requires Chained(full) && sol !in full && i < j < |full| && full[i] == a && full[j] == b
    modifies {a, sol}`next, {b, sol}`prev
    ensures Chained(full[..i + 1] + [sol] + full[j..])
  {
    a.next := sol;
    sol.prev := a;
    sol.next := b;
    b.prev := sol;
    ghost var r := full[..i + 1] + [sol] + full[j..];
    forall k | 0 <= k < |r| - 1 ensures r[k].next == r[k + 1] && r[k + 1].prev == r[k] {
      if k < i { assert r[k] == full[k] && r[k + 1] == full[k + 1]; }
      else if k > i + 1 { assert r[k] == full[k - i - 2 + j] && r[k + 1] == full[k - i - 1 + j]; }
    }
  }

  // sol is full[i]; drop the entry behind it.
  method Skip(sol: Solution, b: Solution, ghost full: seq<Solution>, ghost i: nat)
    requires Chained(full) && i + 2 < |full| && full[i] == sol && full[i + 2] == b
    modifies sol`next, b`prev
    ensures Chained(full[..i + 1] + full[i + 2..])
  {
    sol.next := b;
    b.prev := sol;
    ghost var r := full[..i + 1] + full[i + 2..];
    forall k | 0 <= k < |r| - 1 ensures r[k].next == r[k + 1] && r[k + 1].prev == r[k] {
      if k < i { assert r[k] == full[k] && r[k + 1] == full[k + 1]; }
      else if k > i { assert r[k] == full[k + 1] && r[k + 1] == full[k + 2]; }
    }
  }

  // ------------------------------------------------------------------ the maps

  // The first map holds the entries by load, the second by bandwidth.
  ghost predicate ByLoad(m: map<int, int>, s: set<Solution>) {
    && (forall e :: e in s ==> e.load in m && m[e.load] == e.bdwt)
    && (forall x :: x in m ==> exists e :: e in s && e.load == x)
  }

  ghost predicate ByBdwt(m: map<int, int>, s: set<Solution>) {
    && (forall e :: e in s ==> e.bdwt in m && m[e.bdwt] == e.load)
    && (forall y :: y in m ==> exists e :: e in s && e.bdwt == y)
  }

  // While a run of dominated entries is being dropped, the entry for the
  // bandwidth of sol may still be that of one of them.
  ghost predicate NearlyByBdwt(m: map<int, int>, s: set<Solution>, sol: Solution) {
    && sol in s
    && (forall e :: e in s ==> e.bdwt in m && (e.bdwt != sol.bdwt ==> m[e.bdwt] == e.load))
    && (forall y :: y in m ==> exists e :: e in s && e.bdwt == y)
    && (exists e :: e in s && e.bdwt == sol.bdwt && m[e.bdwt] == e.load)
  }

  function Erase(m: map<int, int>, k: int): map<int, int> { m - {k} }

  // insert keeps an entry that exists.
  function Insert(m: map<int, int>, k: int, v: int): map<int, int> { if k in m then m else m[k := v] }

  // No two entries share a load or a bandwidth.
  ghost predicate Apart(s: set<Solution>) {
    forall a, b :: a in s && b in s && (a.load == b.load || a.bdwt == b.bdwt) ==> a == b
  }

  ghost predicate Incomparable(s: set<Solution>, sol: Solution) {
    forall e :: e in s ==> !Dominates(e, sol) && !Dominates(sol, e)
  }

  lemma AddEntry(l: map<int, int>, b: map<int, int>, s: set<Solution>, sol: Solution)
    requires ByLoad(l, s) && ByBdwt(b, s) && Incomparable(s, sol)
    ensures ByLoad(Insert(l, sol.load, sol.bdwt), s + {sol}) && ByBdwt(Insert(b, sol.bdwt, sol.load), s + {sol})
  {
  }

  // sol takes the place of e.
  lemma ReplaceLoad(l: map<int, int>, s: set<Solution>, sol: Solution, e: Solution)
    requires ByLoad(l, s) && Apart(s) && e in s && sol !in s
    requires forall x :: x in s && x.load == sol.load ==> x == e
    ensures ByLoad(Insert(Erase(l, e.load), sol.load, sol.bdwt), s - {e} + {sol})
  {
  }

  lemma ReplaceBdwt(b: map<int, int>, s: set<Solution>, sol: Solution, e: Solution)
    requires ByBdwt(b, s) && Apart(s) && e in s && sol !in s
    ensures NearlyByBdwt(Insert(Erase(b, e.bdwt), sol.bdwt, sol.load), s - {e} + {sol}, sol)
  {
    var m := Insert(Erase(b, e.bdwt), sol.bdwt, sol.load);
    var t := s - {e} + {sol};
    forall y | y in m ensures exists x :: x in t && x.bdwt == y {
      if y != sol.bdwt { var x :| x in s && x.bdwt == y; assert x in t; } else { assert sol in t; }
    }
    assert sol in t;
    if m[sol.bdwt] != sol.load {
      var x :| x in s && x.bdwt == sol.bdwt;
      assert x in t && m[x.bdwt] == x.load;
    }
  }

  // e goes, sol is there already.
  lemma DropLoad(l: map<int, int>, s: set<Solution>, sol: Solution, e: Solution)
    requires ByLoad(l, s) && e in s && sol in s
    requires forall x :: x in s && x.load == e.load ==> x == e
    requires e != sol
    ensures ByLoad(Insert(Erase(l, e.load), sol.load, sol.bdwt), s - {e})
  {
    var m := Insert(Erase(l, e.load), sol.load, sol.bdwt);
    forall y | y in m ensures exists x :: x in s - {e} && x.load == y {
      var x :| x in s && x.load == y;
      assert x in s - {e};
    }
  }

  lemma DropBdwt(b: map<int, int>, s: set<Solution>, sol: Solution, e: Solution)
    requires NearlyByBdwt(b, s, sol) && e in s && e != sol
    requires forall x :: x in s && x.bdwt == e.bdwt ==> x == e || x == sol
    ensures NearlyByBdwt(Insert(Erase(b, e.bdwt), sol.bdwt, sol.load), s - {e}, sol)
  {
    var m := Insert(Erase(b, e.bdwt), sol.bdwt, sol.load);
    var t := s - {e};
    forall y | y in m ensures exists x :: x in t && x.bdwt == y {
      if y != sol.bdwt { var x :| x in s && x.bdwt == y; assert x in t; } else { assert sol in t; }
    }
    assert sol in t;
    if m[sol.bdwt] != sol.load {
      var x :| x in s && x.bdwt == sol.bdwt && b[x.bdwt] == x.load;
      assert x in t && m[x.bdwt] == x.load;
    }
  }

  lemma NothingStale(b: map<int, int>, s: set<Solution>, sol: Solution)
    requires NearlyByBdwt(b, s, sol) && forall e :: e in s && e.bdwt == sol.bdwt ==> e.load == sol.load
    ensures ByBdwt(b, s)
  {
  }

  // ---------------------------------------------------------------- one update

  function Full(head: Solution, c: seq<Solution>, tail: Solution): seq<Solution> { [head] + c + [tail] }

  // sol in the place of c[p..r].
  function With(c: seq<Solution>, p: nat, sol: Solution, r: nat): seq<Solution>
    requires p <= r <= |c|
  {
    c[..p] + [sol] + c[r..]
  }

  // The walk along the list ends here.
  predicate Stops(e: Solution, sol: Solution) { e.solution == sol.solution || Dominates(e, sol) }

  ghost predicate Blocked(c: seq<Solution>, sol: Solution) { exists k :: 0 <= k < |c| && Stops(c[k], sol) }

  ghost predicate Apiece(e: Solution, sol: Solution) { !Stops(e, sol) && !Dominates(sol, e) }

  // Where sol belongs, as far as the first i entries tell: behind those that
  // are comparable to nothing and not larger, in place of those it dominates.
  ghost predicate Fits(c: seq<Solution>, sol: Solution, p: nat, r: nat, i: nat)
    requires i <= |c|
  {
    && p <= r <= i
    && (forall k :: 0 <= k < p ==> Apiece(c[k], sol) && c[k].load <= sol.load)
    && (forall k :: p <= k < r ==> !Stops(c[k], sol) && Dominates(sol, c[k]))
    && (forall k :: r <= k < i ==> Apiece(c[k], sol) && sol.load < c[k].load)
  }

  // Once sol has its place, nothing further stops the walk, and only what is
  // next to it can be dominated.
  lemma Beyond(c: seq<Solution>, sol: Solution, p: nat, r: nat, i: nat)
    requires Strict(c) && i < |c| && Fits(c, sol, p, r, i) && p < i
    requires c[i].solution == sol.solution ==> c[i].load == sol.load && c[i].bdwt == sol.bdwt
    ensures sol.load < c[i].load && !Stops(c[i], sol)
    ensures Dominates(sol, c[i]) ==> r == i
  {
    assert c[p].load < c[i].load;
    if r < i { assert c[r].bdwt > c[i].bdwt; }
  }

  lemma {:induction false} FullSplice(head: Solution, c: seq<Solution>, tail: Solution, sol: Solution, p: nat, r: nat)
    requires p <= r <= |c|
    ensures Full(head, c, tail)[..p + 1] + [sol] + Full(head, c, tail)[r + 1..] == Full(head, With(c, p, sol, r), tail)
  {
  }

  lemma FullSkip(head: Solution, c: seq<Solution>, tail: Solution, sol: Solution, p: nat, r: nat)
    requires p <= r < |c|
    ensures var f := Full(head, With(c, p, sol, r), tail);
      && |f| > p + 3 && f[p + 1] == sol && f[p + 2] == c[r]
      && f[p + 3] == Full(head, c, tail)[r + 2]
      && f[..p + 2] + f[p + 3..] == Full(head, With(c, p, sol, r + 1), tail)
  {
  }

  ghost predicate Kept(c: seq<Solution>, p: nat, r: nat, x: Solution) {
    exists k :: 0 <= k < |c| && !(p <= k < r) && c[k] == x
  }

  lemma WithMembers(c: seq<Solution>, p: nat, sol: Solution, r: nat)
    requires p <= r <= |c|
    ensures forall x :: x in With(c, p, sol, r) <==> x == sol || Kept(c, p, r, x)
  {
    forall x ensures x in With(c, p, sol, r) <==> x == sol || Kept(c, p, r, x) {
      if k :| 0 <= k < |c| && !(p <= k < r) && c[k] == x {
        if k < p { assert x == c[..p][k]; } else { assert x == c[r..][k - r]; }
      }
    }
  }

  lemma WithCells(c: seq<Solution>, p: nat, sol: Solution, r: nat)
    requires p <= r <= |c| && NoDup(c) && sol !in c
    ensures r == p ==> Cells(With(c, p, sol, r)) == Cells(c) + {sol}
    ensures r == p + 1 ==> Cells(With(c, p, sol, r)) == Cells(c) - {c[p]} + {sol}
    ensures r < |c| ==> Cells(With(c, p, sol, r + 1)) == Cells(With(c, p, sol, r)) - {c[r]}
  {
    WithMembers(c, p, sol, r);
    if r < |c| { WithMembers(c, p, sol, r + 1); }
  }

  // No entry left has the bandwidth of sol and another load.
  lemma AllGone(c: seq<Solution>, sol: Solution, p: nat, r: nat)
    requires Strict(c) && Fits(c, sol, p, r, |c|)
    ensures forall e :: e in Cells(With(c, p, sol, r)) && e.bdwt == sol.bdwt ==> e.load == sol.load
  {
    WithMembers(c, p, sol, r);
  }

  // How far the walk has got: sol has no place yet, or it has one in front of
  // other entries, or it has become the last one.
  datatype Phase = Seeking | Placed(p: nat, r: nat) | Last

  ghost predicate Whole(l: map<int, int>, b: map<int, int>, c: seq<Solution>) {
    ByLoad(l, Cells(c)) && ByBdwt(b, Cells(c))
  }

  ghost predicate Nearly(l: map<int, int>, b: map<int, int>, c: seq<Solution>, p: nat, sol: Solution, r: nat)
    requires p <= r <= |c|
  {
    forall x {:trigger Look(x)} :: Look(x) ==>
      ByLoad(l, Cells(With(c, p, sol, r))) && NearlyByBdwt(b, Cells(With(c, p, sol, r)), sol)
  }

  // Equal vectors of colours have equal costs.
  ghost predicate Consistent(c: seq<Solution>, sol: Solution) {
    forall k :: 0 <= k < |c| && c[k].solution == sol.solution ==> c[k].load == sol.load && c[k].bdwt == sol.bdwt
  }

  // The facts below are passed on by name; only the steps that need them look
  // inside.
  ghost predicate Sane(area: set<Solution>, head: Solution, c: seq<Solution>, tail: Solution, sol: Solution) {
    forall x {:trigger Look(x)} :: Look(x) ==> SaneNow(area, head, c, tail, sol)
  }

  ghost predicate SaneNow(area: set<Solution>, head: Solution, c: seq<Solution>, tail: Solution, sol: Solution) {
    && Strict(c) && Consistent(c, sol) && NoDup(Full(head, c, tail)) && sol !in Full(head, c, tail)
    && sol in area && InArea(area, head, c, tail)
  }

  ghost predicate InArea(area: set<Solution>, head: Solution, c: seq<Solution>, tail: Solution) {
    forall x :: x in Full(head, c, tail) ==> x in area
  }

  ghost predicate Around(area: set<Solution>, head: Solution, c: seq<Solution>, tail: Solution, sol: Solution, p: nat, r: nat)
    requires p <= r <= |c|
    reads area`next, area`prev
  {
    InArea(area, head, With(c, p, sol, r), tail) && Chained(Full(head, With(c, p, sol, r), tail))
  }

  // The list as it is when the first i entries were looked at.
  ghost predicate Listed(area: set<Solution>, head: Solution, c: seq<Solution>, tail: Solution, sol: Solution, phase: Phase, i: nat)
    reads area`next, area`prev
  {
    forall x {:trigger Look(x)} :: Look(x) ==> ListedNow(area, head, c, tail, sol, phase, i)
  }

  ghost predicate ListedNow(area: set<Solution>, head: Solution, c: seq<Solution>, tail: Solution, sol: Solution, phase: Phase, i: nat)
    reads area`next, area`prev
  {
    i <= |c| &&
    match phase
    case Seeking => Fits(c, sol, i, i, i) && InArea(area, head, c, tail) && Chained(Full(head, c, tail))
    case Placed(p, r) => p < i && Fits(c, sol, p, r, i) && Around(area, head, c, tail, sol, p, r)
    case Last => i == |c| > 0 && Fits(c, sol, i, i, i) && Around(area, head, c, tail, sol, i, i) && sol in area && sol.next == tail
  }

  ghost predicate Mapped(l: map<int, int>, b: map<int, int>, c: seq<Solution>, sol: Solution, phase: Phase) {
    forall x {:trigger Look(x)} :: Look(x) ==> MappedNow(l, b, c, sol, phase)
  }

  ghost predicate MappedNow(l: map<int, int>, b: map<int, int>, c: seq<Solution>, sol: Solution, phase: Phase) {
    match phase
    case Seeking => Whole(l, b, c)
    case Placed(p, r) => p <= r <= |c| && Nearly(l, b, c, p, sol, r)
    case Last => Nearly(l, b, c, |c|, sol, |c|)
  }

  // ... and where the walk stands.
  ghost predicate Standing(head: Solution, c: seq<Solution>, tail: Solution, sol: Solution, phase: Phase, i: nat, current: Solution)
    requires i <= |c|
    reads current
  {
    match phase
    case Seeking => current == Full(head, c, tail)[i] && current.next == Full(head, c, tail)[i + 1] && (i > 0 ==> i < |c|)
    case Placed(_, _) => i > 0 && current == c[i - 1] && current.next == Full(head, c, tail)[i + 1]
    case Last => i > 0 && (current == sol || (current == c[i - 1] && current.next == sol))
  }

  // One entry.  The place is taken exactly when prev is set.
  method Visit(current: Solution, sol: Solution, head: Solution, tail: Solution, load2bdwt0: map<int, int>,
               bdwt2load0: map<int, int>, unplaced0: bool, ghost c: seq<Solution>, ghost i: nat, ghost phase: Phase, ghost area: set<Solution>)
    returns (load2bdwt: map<int, int>, bdwt2load: map<int, int>, unplaced: bool, ghost next: Phase)
    requires Sane(area, head, c, tail, sol) && i < |c| && current == c[i] && !Stops(current, sol)
    requires Listed(area, head, c, tail, sol, phase, i) && Mapped(load2bdwt0, bdwt2load0, c, sol, phase)
    requires current.next == Full(head, c, tail)[i + 2]
    requires unplaced0 == phase.Seeking?
    modifies area`next, area`prev
    ensures Listed(area, head, c, tail, sol, next, i + 1) && Mapped(load2bdwt, bdwt2load, c, sol, next)
    ensures Standing(head, c, tail, sol, next, i + 1, current)
    ensures unplaced == !next.Placed?
  {
    load2bdwt, bdwt2load, unplaced, next := load2bdwt0, bdwt2load0, unplaced0, phase;
    AtEntry(area, head, c, tail, sol, phase, i);
    var better := Dominate(sol, current);
    if better {
      if unplaced {
        load2bdwt, bdwt2load := TakePlace(current, sol, load2bdwt, bdwt2load, head, c, tail, i, area);
        unplaced, next := false, Placed(i, i + 1);
      } else {
        load2bdwt, bdwt2load := Close(current, sol, load2bdwt, bdwt2load, head, c, tail, phase.p, i, area);
        next := Placed(phase.p, i + 1);
      }
    } else if sol.load < current.load {
      if unplaced {
        load2bdwt, bdwt2load := PlaceBefore(current, sol, load2bdwt, bdwt2load, head, c, tail, i, area);
        unplaced, next := false, Placed(i, i);
      } else {
        Passed(area, head, c, tail, sol, phase, i);
      }
    } else if current.next == tail {
      load2bdwt, bdwt2load := PlaceLast(current, sol, load2bdwt, bdwt2load, head, c, tail, area);
      next := Last;
    } else {
      Passed(area, head, c, tail, sol, phase, i);
    }
  }

  // What is known about the entry the walk has come to.
  lemma AtEntry(area: set<Solution>, head: Solution, c: seq<Solution>, tail: Solution, sol: Solution, phase: Phase, i: nat)
    requires Sane(area, head, c, tail, sol) && Listed(area, head, c, tail, sol, phase, i) && i < |c| && !Stops(c[i], sol)
    ensures !phase.Last?
    ensures phase.Placed? ==> sol.load < c[i].load && phase.p < i && (Dominates(sol, c[i]) ==> phase.r == i)
    ensures c[i].next == Full(head, c, tail)[i + 2] && (c[i].next == tail <==> i + 1 == |c|)
  {
    assert Look(0);
    NextLink(area, head, c, tail, sol, phase, i);
    if phase.Placed? { Beyond(c, sol, phase.p, phase.r, i); }
    if c[i].next == tail { LastOne(head, c, tail, i); }
  }

  // The entry stays, and sol gets no place because of it.
  lemma Passed(area: set<Solution>, head: Solution, c: seq<Solution>, tail: Solution, sol: Solution, phase: Phase, i: nat)
    requires Sane(area, head, c, tail, sol) && Listed(area, head, c, tail, sol, phase, i) && i < |c| && Apiece(c[i], sol) && !phase.Last?
    requires if phase.Seeking? then c[i].load <= sol.load && i + 1 < |c| else sol.load < c[i].load
    ensures Listed(area, head, c, tail, sol, phase, i + 1) && Standing(head, c, tail, sol, phase, i + 1, c[i])
  {
    assert Look(0);
    NextLink(area, head, c, tail, sol, phase, i);
  }

  lemma LastOne(head: Solution, c: seq<Solution>, tail: Solution, i: nat)
    requires NoDup(Full(head, c, tail)) && i < |c| && Full(head, c, tail)[i + 2] == tail
    ensures i + 1 == |c|
  {
    var f := Full(head, c, tail);
    assert f[|c| + 1] == tail;
  }

  // sol in the place of the first entry it dominates ...
  method TakePlace(current: Solution, sol: Solution, l: map<int, int>, b: map<int, int>,
                   ghost head: Solution, ghost c: seq<Solution>, ghost tail: Solution, ghost i: nat, ghost area: set<Solution>)
    returns (load2bdwt: map<int, int>, bdwt2load: map<int, int>)
    requires Sane(area, head, c, tail, sol) && i < |c| && current == c[i] && Listed(area, head, c, tail, sol, Seeking, i)
    requires !Stops(c[i], sol) && Dominates(sol, c[i]) && Mapped(l, b, c, sol, Seeking)
    modifies area`next, area`prev
    ensures Listed(area, head, c, tail, sol, Placed(i, i + 1), i + 1) && Standing(head, c, tail, sol, Placed(i, i + 1), i + 1, current)
    ensures Mapped(load2bdwt, bdwt2load, c, sol, Placed(i, i + 1))
  {
    assert Look(0);
    TakenMaps(l, b, c, sol, i);
    load2bdwt := Insert(Erase(l, current.load), sol.load, sol.bdwt);
    bdwt2load := Insert(Erase(b, current.bdwt), sol.bdwt, sol.load);
    OpenSeeking(area, head, c, tail, sol, i);
    LinkInstead(current, sol, head, c, tail, i, area);
    ListDropped(area, head, c, tail, sol, i, i);
  }

  // ... and over a further one;
  method Close(current: Solution, sol: Solution, l: map<int, int>, b: map<int, int>,
               ghost head: Solution, ghost c: seq<Solution>, ghost tail: Solution, ghost p: nat, ghost i: nat, ghost area: set<Solution>)
    returns (load2bdwt: map<int, int>, bdwt2load: map<int, int>)
    requires Sane(area, head, c, tail, sol) && p < i < |c| && current == c[i] && Listed(area, head, c, tail, sol, Placed(p, i), i)
    requires !Stops(c[i], sol) && Dominates(sol, c[i]) && Mapped(l, b, c, sol, Placed(p, i))
    modifies area`next, area`prev
    ensures Listed(area, head, c, tail, sol, Placed(p, i + 1), i + 1) && Standing(head, c, tail, sol, Placed(p, i + 1), i + 1, current)
    ensures Mapped(load2bdwt, bdwt2load, c, sol, Placed(p, i + 1))
  {
    EntryFacts(area, head, c, tail, sol, p, i);
    load2bdwt, bdwt2load := CloseMaps(current, sol, l, b, c, p, i);
    OpenPlaced(area, head, c, tail, sol, p, i);
    LinkOver(current, sol, head, c, tail, p, i, area);
    ListDropped(area, head, c, tail, sol, p, i);
  }

  lemma EntryFacts(area: set<Solution>, head: Solution, c: seq<Solution>, tail: Solution, sol: Solution, p: nat, i: nat)
    requires Sane(area, head, c, tail, sol) && p < i < |c| && Listed(area, head, c, tail, sol, Placed(p, i), i)
    requires Dominates(sol, c[i])
    ensures Next(c, sol, p, i)
  {
    assert Look(0);
    forall k | 0 <= k < |c| ensures c[k] != sol {
      assert Full(head, c, tail)[k + 1] == c[k];
    }
  }

  method CloseMaps(current: Solution, sol: Solution, l: map<int, int>, b: map<int, int>, ghost c: seq<Solution>,
                   ghost p: nat, ghost i: nat)
    returns (load2bdwt: map<int, int>, bdwt2load: map<int, int>)
    requires p < i < |c| && current == c[i] && Mapped(l, b, c, sol, Placed(p, i)) && Next(c, sol, p, i)
    ensures Mapped(load2bdwt, bdwt2load, c, sol, Placed(p, i + 1))
  {
    ClosedMaps(l, b, c, sol, p, i);
    load2bdwt := Insert(Erase(l, current.load), sol.load, sol.bdwt);
    bdwt2load := Insert(Erase(b, current.bdwt), sol.bdwt, sol.load);
  }

  // sol in front of the entry it was compared with;
  method PlaceBefore(current: Solution, sol: Solution, l: map<int, int>, b: map<int, int>,
                     ghost head: Solution, ghost c: seq<Solution>, ghost tail: Solution, ghost i: nat, ghost area: set<Solution>)
    returns (load2bdwt: map<int, int>, bdwt2load: map<int, int>)
    requires Sane(area, head, c, tail, sol) && i < |c| && current == c[i] && Listed(area, head, c, tail, sol, Seeking, i)
    requires Apiece(c[i], sol) && sol.load < c[i].load && Mapped(l, b, c, sol, Seeking)
    modifies area`next, area`prev
    ensures Listed(area, head, c, tail, sol, Placed(i, i), i + 1) && Standing(head, c, tail, sol, Placed(i, i), i + 1, current)
    ensures Mapped(load2bdwt, bdwt2load, c, sol, Placed(i, i))
  {
    assert Look(0);
    AddedMaps(l, b, c, sol, i);
    load2bdwt, bdwt2load := Insert(l, sol.load, sol.bdwt), Insert(b, sol.bdwt, sol.load);
    OpenSeeking(area, head, c, tail, sol, i);
    LinkBefore(current, sol, head, c, tail, i, area);
    ListPlaced(area, head, c, tail, sol, i, i);
  }

  // or behind the last one.
  method PlaceLast(current: Solution, sol: Solution, l: map<int, int>, b: map<int, int>,
                   ghost head: Solution, ghost c: seq<Solution>, tail: Solution, ghost area: set<Solution>)
    returns (load2bdwt: map<int, int>, bdwt2load: map<int, int>)
    requires Sane(area, head, c, tail, sol) && c != [] && current == c[|c| - 1] && Listed(area, head, c, tail, sol, Seeking, |c| - 1)
    requires Apiece(current, sol) && current.load <= sol.load && Mapped(l, b, c, sol, Seeking)
    modifies area`next, area`prev
    ensures Listed(area, head, c, tail, sol, Last, |c|) && Standing(head, c, tail, sol, Last, |c|, current)
    ensures Mapped(load2bdwt, bdwt2load, c, sol, Last)
  {
    assert Look(0);
    AddedMaps(l, b, c, sol, |c|);
    load2bdwt, bdwt2load := Insert(l, sol.load, sol.bdwt), Insert(b, sol.bdwt, sol.load);
    OpenSeeking(area, head, c, tail, sol, |c| - 1);
    LinkLast(current, sol, head, c, tail, area);
    ListLast(area, head, c, tail, sol);
  }

  lemma TakenMaps(l: map<int, int>, b: map<int, int>, c: seq<Solution>, sol: Solution, i: nat)
    requires Whole(l, b, c) && Strict(c) && sol !in c && NoDup(c) && i < |c| && Fits(c, sol, i, i, i) && Dominates(sol, c[i])
    ensures Nearly(Insert(Erase(l, c[i].load), sol.load, sol.bdwt), Insert(Erase(b, c[i].bdwt), sol.bdwt, sol.load), c, i, sol, i + 1)
  {
    WithCells(c, i, sol, i + 1);
    CellsApart(c);
    OnlyTaken(c, sol, i);
    ReplaceLoad(l, Cells(c), sol, c[i]);
    ReplaceBdwt(b, Cells(c), sol, c[i]);
  }

  lemma CellsApart(c: seq<Solution>)
    requires Strict(c)
    ensures Apart(Cells(c))
  {
  }

  lemma OnlyTaken(c: seq<Solution>, sol: Solution, i: nat)
    requires Strict(c) && i < |c| && Fits(c, sol, i, i, i) && Dominates(sol, c[i])
    ensures c[i] in Cells(c) && forall x :: x in Cells(c) && x.load == sol.load ==> x == c[i]
  {
    assert c[i] in c;
    forall x | x in Cells(c) && x.load == sol.load ensures x == c[i] {
      var k :| 0 <= k < |c| && c[k] == x;
    }
  }

  // sol has its place and the next entry is dominated as well.
  ghost predicate Next(c: seq<Solution>, sol: Solution, p: nat, i: nat) {
    forall x {:trigger Look(x)} :: Look(x) ==>
      p < i < |c| && Strict(c) && NoDup(c) && sol !in c && Fits(c, sol, p, i, i) && Dominates(sol, c[i])
  }

  lemma ClosedMaps(l: map<int, int>, b: map<int, int>, c: seq<Solution>, sol: Solution, p: nat, i: nat)
    requires p < i < |c| && Mapped(l, b, c, sol, Placed(p, i)) && Next(c, sol, p, i)
    ensures Mapped(Insert(Erase(l, c[i].load), sol.load, sol.bdwt), Insert(Erase(b, c[i].bdwt), sol.bdwt, sol.load), c, sol,
                   Placed(p, i + 1))
  {
    assert Look(0);
    WithCells(c, p, sol, i);
    WithMembers(c, p, sol, i);
    var s, e := Cells(With(c, p, sol, i)), c[i];
    assert Kept(c, p, i, e);
    assert c[p].load < c[i].load;
    forall x | x in s && x.load == e.load ensures x == e {
      if x != sol { var k :| 0 <= k < |c| && c[k] == x; }
    }
    forall x | x in s && x.bdwt == e.bdwt ensures x == e || x == sol {
      if x != sol { var k :| 0 <= k < |c| && c[k] == x; }
    }
    DropLoad(l, s, sol, e);
    DropBdwt(b, s, sol, e);
  }

  lemma AddedMaps(l: map<int, int>, b: map<int, int>, c: seq<Solution>, sol: Solution, i: nat)
    requires Whole(l, b, c) && Strict(c) && sol !in c && NoDup(c) && i <= |c|
    requires forall k :: 0 <= k < |c| && (k < i || k == i) ==> Apiece(c[k], sol)
    requires i < |c| ==> sol.load < c[i].load
    ensures Nearly(Insert(l, sol.load, sol.bdwt), Insert(b, sol.bdwt, sol.load), c, i, sol, i)
  {
    WithCells(c, i, sol, i);
    forall e | e in Cells(c) ensures !Dominates(e, sol) && !Dominates(sol, e) {
      var k :| 0 <= k < |c| && c[k] == e;
      if k > i { assert c[i].load < c[k].load && c[i].bdwt > c[k].bdwt; }
    }
    AddEntry(l, b, Cells(c), sol);
  }

  // The walk: prev is still null exactly while sol has no place.
  method UpdateTradeoffCurve(head: Solution, tail: Solution, sol: Solution, load2bdwt0: map<int, int>,
                             bdwt2load0: map<int, int>, ghost c: seq<Solution>, ghost area: set<Solution>)
    returns (status: bool, load2bdwt: map<int, int>, bdwt2load: map<int, int>, ghost after: seq<Solution>,
             ghost p: nat, ghost r: nat)
    requires SaneNow(area, head, c, tail, sol) && Chained(Full(head, c, tail)) && Whole(load2bdwt0, bdwt2load0, c)
    modifies area`next, area`prev
    ensures c == [] || Blocked(c, sol) ==> after == c
    ensures c != [] && !Blocked(c, sol) ==> Fits(c, sol, p, r, |c|) && after == With(c, p, sol, r)
    ensures Chained(Full(head, after, tail)) && Whole(load2bdwt, bdwt2load, after)
    ensures status <==> c != [] && !Stops(c[0], sol)
  {
    load2bdwt, bdwt2load := load2bdwt0, bdwt2load0;
    status := false;
    var current: Solution, unplaced := head, true;
    ghost var i: nat, phase: Phase, halted := 0, Seeking, false;
    Begin(area, head, c, tail, sol, load2bdwt, bdwt2load);
    while current.next != tail
      invariant i <= |c| && (status <==> i > 0) && (i > 0 ==> !Stops(c[0], sol)) && !halted
      invariant Listed(area, head, c, tail, sol, phase, i) && Mapped(load2bdwt, bdwt2load, c, sol, phase)
      invariant Standing(head, c, tail, sol, phase, i, current)
      invariant unplaced == !phase.Placed?
      decreases |c| - i, if current == sol then 0 else 1
    {
      Onward(area, head, c, tail, sol, phase, i, current);
      current := current.next;
      if current == sol { continue; }
      if current.solution == sol.solution { halted := true; break; }
      var worse := Dominate(current, sol);
      if worse { halted := true; break; }
      status := true;
      load2bdwt, bdwt2load, unplaced, phase := Visit(current, sol, head, tail, load2bdwt, bdwt2load, unplaced, c, i, phase, area);
      i := i + 1;
    }
    after, p, r := Outcome(area, head, c, tail, sol, phase, i, current, halted, load2bdwt, bdwt2load);
  }

  lemma Begin(area: set<Solution>, head: Solution, c: seq<Solution>, tail: Solution, sol: Solution, l: map<int, int>, b: map<int, int>)
    requires SaneNow(area, head, c, tail, sol) && Chained(Full(head, c, tail)) && Whole(l, b, c)
    ensures Sane(area, head, c, tail, sol) && Listed(area, head, c, tail, sol, Seeking, 0) && Mapped(l, b, c, sol, Seeking)
    ensures Standing(head, c, tail, sol, Seeking, 0, head)
  {
    var f := Full(head, c, tail);
    assert f[0].next == f[1];
  }

  // The next entry of the walk.
  lemma Onward(area: set<Solution>, head: Solution, c: seq<Solution>, tail: Solution, sol: Solution, phase: Phase, i: nat, current: Solution)
    requires i <= |c| && Sane(area, head, c, tail, sol) && Listed(area, head, c, tail, sol, phase, i) && Standing(head, c, tail, sol, phase, i, current)
    requires current.next != tail
    ensures phase.Last? ==> current != sol && current.next == sol
    ensures !phase.Last? ==> i < |c| && current.next == c[i] && c[i] != sol && c[i].next == Full(head, c, tail)[i + 2]
    ensures phase.Placed? ==> !Stops(c[i], sol)
  {
    assert Look(0);
    var f := Full(head, c, tail);
    assert f[|c| + 1] == tail;
    if !phase.Last? {
      assert f[i + 1] == c[i];
      NextLink(area, head, c, tail, sol, phase, i);
      if phase.Placed? { Beyond(c, sol, phase.p, phase.r, i); }
    }
  }

  // What the walk has done when it ends.
  lemma Outcome(area: set<Solution>, head: Solution, c: seq<Solution>, tail: Solution, sol: Solution, phase: Phase, i: nat, current: Solution,
                halted: bool, l: map<int, int>, b: map<int, int>) returns (after: seq<Solution>, p: nat, r: nat)
    requires i <= |c| && Sane(area, head, c, tail, sol) && Listed(area, head, c, tail, sol, phase, i) && Mapped(l, b, c, sol, phase)
    requires if halted then phase.Seeking? && i < |c| && Stops(c[i], sol)
             else Standing(head, c, tail, sol, phase, i, current) && current.next == tail
    ensures c == [] || Blocked(c, sol) ==> after == c
    ensures c != [] && !Blocked(c, sol) ==> Fits(c, sol, p, r, |c|) && after == With(c, p, sol, r)
    ensures Chained(Full(head, after, tail)) && Whole(l, b, after)
    ensures !halted ==> i == |c|
  {
    assert Look(0);
    p, r, after := 0, 0, c;
    if !halted {
      var f := Full(head, c, tail);
      assert f[|c| + 1] == tail;
      assert i == |c|;
      match phase
      case Seeking =>
      case Placed(x, y) => p, r, after := x, y, With(c, x, sol, y); Finished(b, c, sol, x, y);
      case Last => p, r, after := i, i, With(c, i, sol, i); Finished(b, c, sol, i, i);
    }
  }

  lemma Finished(b: map<int, int>, c: seq<Solution>, sol: Solution, p: nat, r: nat)
    requires Strict(c) && Fits(c, sol, p, r, |c|) && NearlyByBdwt(b, Cells(With(c, p, sol, r)), sol)
    ensures ByBdwt(b, Cells(With(c, p, sol, r)))
  {
    AllGone(c, sol, p, r);
    NothingStale(b, Cells(With(c, p, sol, r)), sol);
  }

  // The entry the walk comes to is linked to the one behind it.
  lemma NextLink(area: set<Solution>, head: Solution, c: seq<Solution>, tail: Solution, sol: Solution, phase: Phase, i: nat)
    requires ListedNow(area, head, c, tail, sol, phase, i) && i < |c|
    ensures c[i].next == Full(head, c, tail)[i + 2]
  {
    match phase
    case Seeking => assert Full(head, c, tail)[i + 1].next == Full(head, c, tail)[i + 2];
    case Placed(p, r) =>
      var g := Full(head, With(c, p, sol, r), tail);
      assert g[p + 2 + (i - r)] == c[i] && g[p + 2 + (i - r) + 1] == Full(head, c, tail)[i + 2];
    case Last =>
  }

  // The four ways in which links change.
  ghost predicate Linked(area: set<Solution>, head: Solution, c: seq<Solution>, tail: Solution, sol: Solution)
    reads area`next, area`prev
  {
    InArea(area, head, c, tail) && Chained(Full(head, c, tail)) && sol !in Full(head, c, tail) && sol in area
  }

  method LinkBefore(current: Solution, sol: Solution, ghost head: Solution, ghost c: seq<Solution>, ghost tail: Solution,
                    ghost i: nat, ghost area: set<Solution>)
    requires Linked(area, head, c, tail, sol) && i < |c| && current == c[i]
    modifies area`next, area`prev
    ensures Around(area, head, c, tail, sol, i, i) && current.next == Full(head, c, tail)[i + 2]
  {
    ghost var f := Full(head, c, tail);
    assert f[i + 1] == current && f[i].next == f[i + 1] && f[i + 1].prev == f[i] && f[i + 1].next == f[i + 2];
    FullSplice(head, c, tail, sol, i, i);
    Splice(sol, current.prev, current, f, i, i + 1);
    WithInArea(area, head, c, tail, sol, i, i);
  }

  method LinkLast(current: Solution, sol: Solution, ghost head: Solution, ghost c: seq<Solution>, tail: Solution,
                  ghost area: set<Solution>)
    requires Linked(area, head, c, tail, sol) && c != [] && current == c[|c| - 1]
    modifies area`next, area`prev
    ensures Around(area, head, c, tail, sol, |c|, |c|) && current.next == sol && sol.next == tail
  {
    LastOfFull(head, c, tail);
    FullSplice(head, c, tail, sol, |c|, |c|);
    Splice(sol, current, tail, Full(head, c, tail), |c|, |c| + 1);
    WithInArea(area, head, c, tail, sol, |c|, |c|);
    LastLinks(head, c, tail, sol);
  }

  lemma LastOfFull(head: Solution, c: seq<Solution>, tail: Solution)
    requires c != []
    ensures var f := Full(head, c, tail); |f| == |c| + 2 && f[|c|] == c[|c| - 1] && f[|c| + 1] == tail
  {
  }

  lemma LastLinks(head: Solution, c: seq<Solution>, tail: Solution, sol: Solution)
    requires c != [] && Chained(Full(head, With(c, |c|, sol, |c|), tail))
    ensures c[|c| - 1].next == sol && sol.next == tail
  {
    var g := Full(head, With(c, |c|, sol, |c|), tail);
    assert g[|c|] == c[|c| - 1] && g[|c| + 1] == sol && g[|c| + 2] == tail;
  }

  method LinkInstead(current: Solution, sol: Solution, ghost head: Solution, ghost c: seq<Solution>, ghost tail: Solution,
                     ghost i: nat, ghost area: set<Solution>)
    requires Linked(area, head, c, tail, sol) && i < |c| && current == c[i]
    modifies area`next, area`prev
    ensures Around(area, head, c, tail, sol, i, i + 1) && current.next == Full(head, c, tail)[i + 2]
  {
    ghost var f := Full(head, c, tail);
    assert f[i + 1] == current && f[i].next == f[i + 1] && f[i + 1].prev == f[i];
    assert f[i + 1].next == f[i + 2] && f[i + 2].prev == f[i + 1];
    assert f[i + 2] == Full(head, c, tail)[i + 2];
    FullSplice(head, c, tail, sol, i, i + 1);
    var prev, next := current.prev, current.next;
    Splice(sol, prev, next, f, i, i + 2);
    WithInArea(area, head, c, tail, sol, i, i + 1);
    assert current !in Full(head, With(c, i, sol, i + 1), tail);
    current.prev := null;
  }

  method LinkOver(current: Solution, sol: Solution, ghost head: Solution, ghost c: seq<Solution>, ghost tail: Solution,
                  ghost p: nat, ghost i: nat, ghost area: set<Solution>)
    requires p < i < |c| && current == c[i] && sol in area && InArea(area, head, c, tail)
    requires NoDup(Full(head, c, tail)) && sol !in Full(head, c, tail) && Around(area, head, c, tail, sol, p, i)
    modifies area`next, area`prev
    ensures Around(area, head, c, tail, sol, p, i + 1) && current.next == Full(head, c, tail)[i + 2]
  {
    ghost var f := Full(head, With(c, p, sol, i), tail);
    FullSkip(head, c, tail, sol, p, i);
    assert f[p + 2].next == f[p + 3] && f[p + 2] == current;
    Skip(sol, current.next, f, p + 1);
    WithInArea(area, head, c, tail, sol, p, i + 1);
  }

  lemma WithInArea(area: set<Solution>, head: Solution, c: seq<Solution>, tail: Solution, sol: Solution, p: nat, r: nat)
    requires InArea(area, head, c, tail) && sol in area && p <= r <= |c|
    ensures InArea(area, head, With(c, p, sol, r), tail)
  {
    WithMembers(c, p, sol, r);
    var f := Full(head, c, tail);
    forall x | x in Full(head, With(c, p, sol, r), tail) ensures x in area {
      if Kept(c, p, r, x) { assert x in f; }
      assert f[0] in f && f[|f| - 1] in f;
    }
  }

  // What a step needs of the list, and what it has to leave.
  lemma OpenSeeking(area: set<Solution>, head: Solution, c: seq<Solution>, tail: Solution, sol: Solution, i: nat)
    requires i <= |c| && Sane(area, head, c, tail, sol) && Listed(area, head, c, tail, sol, Seeking, i)
    ensures Linked(area, head, c, tail, sol) && Fits(c, sol, i, i, i)
  {
    assert Look(0);
  }

  lemma OpenPlaced(area: set<Solution>, head: Solution, c: seq<Solution>, tail: Solution, sol: Solution, p: nat, i: nat)
    requires p <= i <= |c| && Sane(area, head, c, tail, sol) && Listed(area, head, c, tail, sol, Placed(p, i), i)
    ensures Around(area, head, c, tail, sol, p, i) && Fits(c, sol, p, i, i)
    ensures sol in area && InArea(area, head, c, tail) && NoDup(Full(head, c, tail)) && sol !in Full(head, c, tail)
  {
    assert Look(0);
  }

  lemma ListPlaced(area: set<Solution>, head: Solution, c: seq<Solution>, tail: Solution, sol: Solution, p: nat, i: nat)
    requires p <= i < |c| && Around(area, head, c, tail, sol, p, i)
    requires Fits(c, sol, p, i, i) && Apiece(c[i], sol) && sol.load < c[i].load
    ensures Listed(area, head, c, tail, sol, Placed(p, i), i + 1)
  {
  }

  lemma ListDropped(area: set<Solution>, head: Solution, c: seq<Solution>, tail: Solution, sol: Solution, p: nat, i: nat)
    requires p <= i < |c| && Around(area, head, c, tail, sol, p, i + 1)
    requires Fits(c, sol, p, i, i) && !Stops(c[i], sol) && Dominates(sol, c[i])
    ensures Listed(area, head, c, tail, sol, Placed(p, i + 1), i + 1)
  {
  }

  lemma ListLast(area: set<Solution>, head: Solution, c: seq<Solution>, tail: Solution, sol: Solution)
    requires c != [] && Around(area, head, c, tail, sol, |c|, |c|) && sol in area && sol.next == tail
    requires Fits(c, sol, |c| - 1, |c| - 1, |c| - 1) && Apiece(c[|c| - 1], sol) && c[|c| - 1].load <= sol.load
    ensures Listed(area, head, c, tail, sol, Last, |c|)
  {
  }

  // ------------------------------------------------------- what an update means

  ghost predicate Tie(c: seq<Solution>, sol: Solution) {
    exists k :: 0 <= k < |c| && c[k].load == sol.load && c[k].bdwt == sol.bdwt
  }

  // What is on the list afterwards: sol, and what it does not dominate.  The
  // list stays strict exactly when no entry had the same load and bandwidth.
  lemma UpdateIsFront(c: seq<Solution>, sol: Solution, p: nat, r: nat)
    requires Strict(c) && sol !in c && Fits(c, sol, p, r, |c|)
    ensures forall e :: e in With(c, p, sol, r) <==> e == sol || (e in c && !Dominates(sol, e))
    ensures Strict(With(c, p, sol, r)) <==> !Tie(c, sol)
  {
    KeptIsLeft(c, sol, p, r);
    WithMembers(c, p, sol, r);
    if Tie(c, sol) { TieStays(c, sol, p, r); } else { StaysStrict(c, sol, p, r); }
  }

  lemma KeptIsLeft(c: seq<Solution>, sol: Solution, p: nat, r: nat)
    requires Fits(c, sol, p, r, |c|) && NoDup(c)
    ensures forall e :: Kept(c, p, r, e) <==> e in c && !Dominates(sol, e)
  {
  }

  lemma TieStays(c: seq<Solution>, sol: Solution, p: nat, r: nat)
    requires Fits(c, sol, p, r, |c|) && Tie(c, sol)
    ensures !Strict(With(c, p, sol, r))
  {
    var w := With(c, p, sol, r);
    var k :| 0 <= k < |c| && c[k].load == sol.load && c[k].bdwt == sol.bdwt;
    assert k < p && w[k] == c[k] && w[p] == sol;
  }

  // sol against each entry that stays.
  lemma InPlace(c: seq<Solution>, sol: Solution, p: nat, r: nat, k: nat)
    requires Fits(c, sol, p, r, |c|) && !Tie(c, sol) && k < |c|
    ensures k < p ==> c[k].load < sol.load && c[k].bdwt > sol.bdwt
    ensures k >= r ==> sol.load < c[k].load && sol.bdwt > c[k].bdwt
  {
  }

  lemma StaysStrict(c: seq<Solution>, sol: Solution, p: nat, r: nat)
    requires Strict(c) && Fits(c, sol, p, r, |c|) && !Tie(c, sol)
    ensures Strict(With(c, p, sol, r))
  {
    var w := With(c, p, sol, r);
    forall i, j | 0 <= i < j < |w| ensures w[i].load < w[j].load && w[i].bdwt > w[j].bdwt {
      var a, b := if i < p then i else i - p - 1 + r, if j < p then j else j - p - 1 + r;
      if i == p { InPlace(c, sol, p, r, b); }
      else if j == p { InPlace(c, sol, p, r, a); }
      else { assert w[i] == c[a] && w[j] == c[b] && a < b; }
    }
  }

  // ---------------------------------------------------------------- the search

  // A vector of v colours below m.
  ghost predicate InSpace(s: seq<int>, v: nat, m: nat) { |s| == v && forall i :: 0 <= i < v ==> 0 <= s[i] < m }

  // All of them.
  ghost function All(v: nat, m: nat): (r: set<seq<int>>)
    ensures forall s {:trigger s in r} {:trigger InSpace(s, v, m)} :: s in r <==> InSpace(s, v, m)
  {
    if v == 0 then {[]}
    else
      var r := set s, x | s in All(v - 1, m) && 0 <= x < m :: s + [x];
      assert forall s: seq<int> :: |s| == v ==> s == s[..v - 1] + [s[v - 1]];
      r
  }

  // The load and the bandwidth that evaluateColoring finds for a colouring.
  type Cost = seq<int> -> (int, int)

  ghost predicate Reaches(c: seq<Solution>, load: int, bdwt: int) {
    exists k :: 0 <= k < |c| && c[k].load <= load && c[k].bdwt <= bdwt
  }

  ghost predicate Covered(cost: Cost, c: seq<Solution>, s: seq<int>) {
    Reaches(c, cost(s).0, cost(s).1)
  }

  ghost predicate Costed(cost: Cost, e: Solution) { e.load == cost(e.solution).0 && e.bdwt == cost(e.solution).1 }

  // The list holds visited colourings with their costs ...
  ghost predicate Drawn(cost: Cost, visited: set<seq<int>>, c: seq<Solution>) {
    forall k :: 0 <= k < |c| ==> c[k].solution in visited && Costed(cost, c[k])
  }

  // ... and no visited colouring is better than all of them.
  ghost predicate Covers(cost: Cost, v: nat, m: nat, visited: set<seq<int>>, c: seq<Solution>) {
    forall s {:trigger Covered(cost, c, s)} {:trigger s in visited} :: s in visited ==> InSpace(s, v, m) && Covered(cost, c, s)
  }

  // The list is the Pareto front of the colourings visited so far.
  ghost predicate Front(cost: Cost, v: nat, m: nat, visited: set<seq<int>>, c: seq<Solution>) {
    forall x {:trigger Look(x)} :: Look(x) ==> FrontNow(cost, v, m, visited, c)
  }

  ghost predicate FrontNow(cost: Cost, v: nat, m: nat, visited: set<seq<int>>, c: seq<Solution>) {
    Strict(c) && c != [] && Drawn(cost, visited, c) && Covers(cost, v, m, visited, c)
  }

  lemma StillReaches(c: seq<Solution>, sol: Solution, p: nat, r: nat, load: int, bdwt: int)
    requires Fits(c, sol, p, r, |c|)
    ensures Reaches(c, load, bdwt) ==> Reaches(With(c, p, sol, r), load, bdwt)
  {
    if k :| 0 <= k < |c| && c[k].load <= load && c[k].bdwt <= bdwt {
      var w := With(c, p, sol, r);
      if k < p { assert w[k] == c[k]; } else if k < r { assert w[p] == sol; } else { assert w[k - r + p + 1] == c[k]; }
    }
  }

  lemma DrawnMore(cost: Cost, visited: set<seq<int>>, c: seq<Solution>, sol: Solution, p: nat, r: nat)
    requires Drawn(cost, visited, c) && Costed(cost, sol) && p <= r <= |c|
    ensures Drawn(cost, visited + {sol.solution}, With(c, p, sol, r))
  {
    var w := With(c, p, sol, r);
    forall k | 0 <= k < |w| ensures w[k].solution in visited + {sol.solution} && Costed(cost, w[k]) {
      if k < p { assert w[k] == c[k]; }
      if k > p { assert w[k] == c[k - p - 1 + r]; }
    }
  }

  lemma CoversSkips(cost: Cost, v: nat, m: nat, visited: set<seq<int>>, c: seq<Solution>, s: seq<int>)
    requires Covers(cost, v, m, visited, c) && InSpace(s, v, m) && Covered(cost, c, s)
    ensures Covers(cost, v, m, visited + {s}, c)
  {
  }

  lemma CoversGrows(cost: Cost, v: nat, m: nat, visited: set<seq<int>>, c: seq<Solution>, sol: Solution, p: nat, r: nat)
    requires Covers(cost, v, m, visited, c) && InSpace(sol.solution, v, m) && Costed(cost, sol) && Fits(c, sol, p, r, |c|)
    ensures Covers(cost, v, m, visited + {sol.solution}, With(c, p, sol, r))
  {
    var w := With(c, p, sol, r);
    assert w[p] == sol;
    forall x | x in visited + {sol.solution} ensures InSpace(x, v, m) && Covered(cost, w, x) {
      if x != sol.solution {
        assert Covered(cost, c, x);
        StillReaches(c, sol, p, r, cost(x).0, cost(x).1);
      }
    }
  }

  lemma MakeFront(cost: Cost, v: nat, m: nat, visited: set<seq<int>>, c: seq<Solution>)
    requires Strict(c) && c != [] && Drawn(cost, visited, c) && Covers(cost, v, m, visited, c)
    ensures Front(cost, v, m, visited, c)
  {
  }

  lemma FrontSkips(cost: Cost, v: nat, m: nat, visited: set<seq<int>>, c: seq<Solution>, s: seq<int>)
    requires Front(cost, v, m, visited, c) && InSpace(s, v, m) && Covered(cost, c, s)
    ensures Front(cost, v, m, visited + {s}, c)
  {
    assert Strict(c) && c != [] by { assert Look(0); }
    assert Drawn(cost, visited + {s}, c) by { assert Look(0); }
    assert Covers(cost, v, m, visited + {s}, c) by { assert Look(0); CoversSkips(cost, v, m, visited, c, s); }
    MakeFront(cost, v, m, visited + {s}, c);
  }

  lemma FrontGrows(cost: Cost, v: nat, m: nat, visited: set<seq<int>>, c: seq<Solution>, sol: Solution, p: nat, r: nat)
    requires Front(cost, v, m, visited, c) && InSpace(sol.solution, v, m) && Costed(cost, sol)
    requires Fits(c, sol, p, r, |c|) && !Tie(c, sol)
    ensures Front(cost, v, m, visited + {sol.solution}, With(c, p, sol, r))
  {
    var w := With(c, p, sol, r);
    assert Strict(w) by { assert Look(0); StaysStrict(c, sol, p, r); }
    assert Drawn(cost, visited + {sol.solution}, w) by { assert Look(0); DrawnMore(cost, visited, c, sol, p, r); }
    assert Covers(cost, v, m, visited + {sol.solution}, w) by { assert Look(0); CoversGrows(cost, v, m, visited, c, sol, p, r); }
    MakeFront(cost, v, m, visited + {sol.solution}, w);
  }

  // What one update makes of the front.
  lemma Updated(cost: Cost, v: nat, m: nat, visited: set<seq<int>>, c: seq<Solution>, sol: Solution, after: seq<Solution>, p: nat, r: nat)
    requires Front(cost, v, m, visited, c) && InSpace(sol.solution, v, m) && Costed(cost, sol) && !Tie(c, sol)
    requires c == [] || Blocked(c, sol) ==> after == c
    requires c != [] && !Blocked(c, sol) ==> Fits(c, sol, p, r, |c|) && after == With(c, p, sol, r)
    ensures Front(cost, v, m, visited + {sol.solution}, after)
  {
    if Blocked(c, sol) {
      assert Look(0);
      BlockedReaches(cost, visited, c, sol);
      FrontSkips(cost, v, m, visited, c, sol.solution);
    } else {
      assert c != [] by { assert Look(0); }
      FrontGrows(cost, v, m, visited, c, sol, p, r);
    }
  }

  lemma BlockedReaches(cost: Cost, visited: set<seq<int>>, c: seq<Solution>, sol: Solution)
    requires Drawn(cost, visited, c) && Costed(cost, sol) && Blocked(c, sol)
    ensures Covered(cost, c, sol.solution)
  {
    var k :| 0 <= k < |c| && Stops(c[k], sol);
  }

  lemma NoTie(l: map<int, int>, b: map<int, int>, c: seq<Solution>, sol: Solution)
    requires Whole(l, b, c) && (sol.load in l ==> l[sol.load] > sol.bdwt)
    ensures !Tie(c, sol)
  {
    forall k | 0 <= k < |c| ensures !(c[k].load == sol.load && c[k].bdwt == sol.bdwt) { assert c[k] in Cells(c); }
  }

  lemma QuicklyReached(l: map<int, int>, b: map<int, int>, c: seq<Solution>, load: int, bdwt: int)
    requires Whole(l, b, c)
    requires (load in l && l[load] <= bdwt) || (bdwt in b && b[bdwt] <= load)
    ensures Reaches(c, load, bdwt)
  {
    if load in l && l[load] <= bdwt {
      var e :| e in Cells(c) && e.load == load;
      var k :| 0 <= k < |c| && c[k] == e;
    } else {
      var e :| e in Cells(c) && e.bdwt == bdwt;
      var k :| 0 <= k < |c| && c[k] == e;
    }
  }

  // The list, its maps and the search agree.
  ghost predicate Searching(area: set<Solution>, head: Solution, c: seq<Solution>, tail: Solution, l: map<int, int>,
                            b: map<int, int>, cost: Cost, v: nat, m: nat, visited: set<seq<int>>)
    reads area`next, area`prev
  {
    && Front(cost, v, m, visited, c)
    && forall x {:trigger Look(x)} :: Look(x) ==>
         InArea(area, head, c, tail) && Chained(Full(head, c, tail)) && Whole(l, b, c)
  }

  ghost predicate Flags(area: set<Solution>, done: set<Solution>)
    reads area`expanded
  {
    forall e :: e in area ==> (e.expanded <==> e in done)
  }

  lemma NeighborSane(area: set<Solution>, head: Solution, c: seq<Solution>, tail: Solution, sol: Solution, cost: Cost, visited: set<seq<int>>)
    requires Strict(c) && Drawn(cost, visited, c) && Costed(cost, sol) && NoDup(Full(head, c, tail))
    requires sol !in area && InArea(area, head, c, tail)
    ensures SaneNow(area + {sol}, head, c, tail, sol)
  {
  }

  lemma OpenSearch(area: set<Solution>, head: Solution, c: seq<Solution>, tail: Solution, l: map<int, int>,
                   b: map<int, int>, cost: Cost, v: nat, m: nat, visited: set<seq<int>>)
    requires Searching(area, head, c, tail, l, b, cost, v, m, visited)
    ensures InArea(area, head, c, tail) && Chained(Full(head, c, tail)) && Whole(l, b, c)
    ensures Strict(c) && Drawn(cost, visited, c)
  {
    assert Look(0);
  }

  lemma MakeSearch(area: set<Solution>, head: Solution, c: seq<Solution>, tail: Solution, l: map<int, int>,
                   b: map<int, int>, cost: Cost, v: nat, m: nat, visited: set<seq<int>>)
    requires InArea(area, head, c, tail) && Chained(Full(head, c, tail)) && Whole(l, b, c) && Front(cost, v, m, visited, c)
    ensures Searching(area, head, c, tail, l, b, cost, v, m, visited)
  {
  }

  // One neighbour: evaluated if it is new, looked up in the two maps, and put
  // on the list if neither of them rules it out.
  method TryNeighbor(s: seq<int>, visited0: set<seq<int>>, cost: Cost, load2bdwt0: map<int, int>, bdwt2load0: map<int, int>,
                     head: Solution, tail: Solution, ghost c: seq<Solution>, ghost area0: set<Solution>,
                     ghost done: set<Solution>, ghost v: nat, ghost m: nat)
    returns (visited: set<seq<int>>, load2bdwt: map<int, int>, bdwt2load: map<int, int>, ghost after: seq<Solution>,
             ghost area: set<Solution>)
    requires Searching(area0, head, c, tail, load2bdwt0, bdwt2load0, cost, v, m, visited0) && InSpace(s, v, m)
    requires Flags(area0, done) && done <= area0
    modifies area0`next, area0`prev
    ensures visited == visited0 + {s} && (s in visited0 ==> after == c)
    ensures s !in visited0 ==> Entry(cost, c, after, s)
    ensures area0 <= area && fresh(area - area0) && Flags(area, done)
    ensures Searching(area, head, after, tail, load2bdwt, bdwt2load, cost, v, m, visited)
  {
    visited, load2bdwt, bdwt2load, after, area := visited0, load2bdwt0, bdwt2load0, c, area0;
    if s in visited0 {
      assert visited0 + {s} == visited0;
      return;
    }
    visited := visited + {s};
    var load, bdwt := cost(s).0, cost(s).1;
    var keep := true;
    if load in load2bdwt {
      if load2bdwt[load] <= bdwt { keep := false; }
    } else if bdwt in bdwt2load {
      if bdwt2load[bdwt] <= load { keep := false; }
    }
    if keep {
      load2bdwt, bdwt2load, after, area := AddNeighbor(s, load, bdwt, visited0, cost, load2bdwt, bdwt2load, head, tail, c, area0, done, v, m);
    } else {
      Skipped(area0, head, c, tail, load2bdwt, bdwt2load, cost, v, m, visited0, s);
    }
  }

  lemma Skipped(area: set<Solution>, head: Solution, c: seq<Solution>, tail: Solution, l: map<int, int>,
                b: map<int, int>, cost: Cost, v: nat, m: nat, visited: set<seq<int>>, s: seq<int>)
    requires Searching(area, head, c, tail, l, b, cost, v, m, visited) && InSpace(s, v, m)
    requires var load, bdwt := cost(s).0, cost(s).1; (load in l && l[load] <= bdwt) || (bdwt in b && b[bdwt] <= load)
    ensures Searching(area, head, c, tail, l, b, cost, v, m, visited + {s}) && Covered(cost, c, s)
  {
    var load, bdwt := cost(s).0, cost(s).1;
    OpenSearch(area, head, c, tail, l, b, cost, v, m, visited);
    QuicklyReached(l, b, c, load, bdwt);
    FrontSkips(cost, v, m, visited, c, s);
  }

  // A colouring that an entry matches or beats leaves the list alone; any other
  // gets the place that its costs give it.  Closed until it is used.
  ghost predicate Entry(cost: Cost, c: seq<Solution>, after: seq<Solution>, s: seq<int>) {
    forall x: int {:trigger Look(x)} :: Look(x) ==>
      if Covered(cost, c, s) then after == c else exists p: nat, r: nat :: Entered(c, after, s, p, r)
  }

  ghost predicate Entered(c: seq<Solution>, after: seq<Solution>, s: seq<int>, p: nat, r: nat) {
    && p <= r <= |c| && p < |after| && after[p].solution == s
    && Fits(c, after[p], p, r, |c|) && after == With(c, p, after[p], r)
  }

  lemma EntryIs(cost: Cost, v: nat, m: nat, visited: set<seq<int>>, c: seq<Solution>, sol: Solution, after: seq<Solution>, p: nat, r: nat)
    requires Front(cost, v, m, visited, c) && Costed(cost, sol) && !Tie(c, sol)
    requires c == [] || Blocked(c, sol) ==> after == c
    requires c != [] && !Blocked(c, sol) ==> Fits(c, sol, p, r, |c|) && after == With(c, p, sol, r)
    ensures Entry(cost, c, after, sol.solution)
  {
    assert c != [] && Drawn(cost, visited, c) by { assert Look(0); }
    if Blocked(c, sol) {
      BlockedReaches(cost, visited, c, sol);
    } else {
      assert forall k :: 0 <= k < |c| ==> !Stops(c[k], sol) && !(c[k].load == sol.load && c[k].bdwt == sol.bdwt);
      assert !Covered(cost, c, sol.solution);
      assert Entered(c, after, sol.solution, p, r);
    }
  }

  method AddNeighbor(s: seq<int>, load: int, bdwt: int, ghost visited: set<seq<int>>, ghost cost: Cost,
                     load2bdwt0: map<int, int>, bdwt2load0: map<int, int>,
                     head: Solution, tail: Solution, ghost c: seq<Solution>, ghost area0: set<Solution>,
                     ghost done: set<Solution>, ghost v: nat, ghost m: nat)
    returns (load2bdwt: map<int, int>, bdwt2load: map<int, int>, ghost after: seq<Solution>, ghost area: set<Solution>)
    requires Searching(area0, head, c, tail, load2bdwt0, bdwt2load0, cost, v, m, visited) && InSpace(s, v, m)
    requires load == cost(s).0 && bdwt == cost(s).1 && (load in load2bdwt0 ==> load2bdwt0[load] > bdwt)
    requires Flags(area0, done) && done <= area0
    modifies area0`next, area0`prev
    ensures area0 <= area && fresh(area - area0) && Flags(area, done) && Entry(cost, c, after, s)
    ensures Searching(area, head, after, tail, load2bdwt, bdwt2load, cost, v, m, visited + {s})
  {
    var neighbor := new Solution(s, load, bdwt);
    area := area0 + {neighbor};
    OpenSearch(area0, head, c, tail, load2bdwt0, bdwt2load0, cost, v, m, visited);
    NeighborSane(area0, head, c, tail, neighbor, cost, visited);
    NoTie(load2bdwt0, bdwt2load0, c, neighbor);
    var status;
    ghost var p, r;
    status, load2bdwt, bdwt2load, after, p, r := UpdateTradeoffCurve(head, tail, neighbor, load2bdwt0, bdwt2load0, c, area);
    Updated(cost, v, m, visited, c, neighbor, after, p, r);
    EntryIs(cost, v, m, visited, c, neighbor, after, p, r);
    InAreaAfter(area, head, c, tail, neighbor, after, p, r);
    MakeSearch(area, head, after, tail, load2bdwt, bdwt2load, cost, v, m, visited + {s});
  }

  lemma InAreaAfter(area: set<Solution>, head: Solution, c: seq<Solution>, tail: Solution, sol: Solution, after: seq<Solution>, p: nat, r: nat)
    requires InArea(area, head, c, tail) && sol in area
    requires after == c || (p <= r <= |c| && after == With(c, p, sol, r))
    ensures InArea(area, head, after, tail)
  {
    if after != c { WithInArea(area, head, c, tail, sol, p, r); }
  }

  function Recolored(s: seq<int>, i: int, x: int): seq<int>
    requires 0 <= i < |s|
  {
    s[i := x]
  }

  // The neighbours of s that differ at a position below i, or at i with a
  // colour below j, were visited.
  ghost predicate Tried(s: seq<int>, m: nat, i: int, j: int, visited: set<seq<int>>) {
    forall a, x {:trigger Recolored(s, a, x)} :: 0 <= a < |s| && 0 <= x < m && (a < i || (a == i && x < j)) ==> Recolored(s, a, x) in visited
  }

  // Every neighbour of s was visited.
  ghost predicate Explored(s: seq<int>, m: nat, visited: set<seq<int>>) { Tried(s, m, |s|, 0, visited) }

  // s with the colour of one vertex set.
  ghost predicate Neighbor(s: seq<int>, m: nat, t: seq<int>) {
    exists a, x :: 0 <= a < |s| && 0 <= x < m && Recolored(s, a, x) == t
  }

  // Only neighbours of s were visited.
  ghost predicate Only(s: seq<int>, m: nat, before: set<seq<int>>, after: set<seq<int>>) {
    forall t {:trigger t in after} :: t in after ==> t in before || Neighbor(s, m, t)
  }

  lemma OnlyMore(s: seq<int>, m: nat, before: set<seq<int>>, now: set<seq<int>>, a: nat, x: nat)
    requires Only(s, m, before, now) && a < |s| && x < m
    ensures Only(s, m, before, now + {Recolored(s, a, x)})
  {
    assert Neighbor(s, m, Recolored(s, a, x));
  }

  // Nothing came on the list that had been visited before.
  ghost predicate NewOnes(c: seq<Solution>, after: seq<Solution>, before: set<seq<int>>) {
    forall e {:trigger e in after} :: e in after ==> e in c || e.solution !in before
  }

  lemma NewOnesMore(c: seq<Solution>, now: seq<Solution>, after: seq<Solution>, before: set<seq<int>>, seen: set<seq<int>>,
                    cost: Cost, s: seq<int>)
    requires NewOnes(c, now, before) && before <= seen && (s in seen ==> after == now)
    requires s !in seen ==> Entry(cost, now, after, s)
    ensures NewOnes(c, after, before)
  {
    assert Look(0);
    if s !in seen && !Covered(cost, now, s) {
      var p: nat, r: nat :| Entered(now, after, s, p, r);
      WithMembers(now, p, after[p], r);
      forall e | e in after ensures e in c || e.solution !in before {
        assert e == after[p] || Kept(now, p, r, e);
        assert e == after[p] || e in now;
      }
    }
  }

  // All colourings that differ from this one in the colour of one vertex, and
  // no others.
  method Expand(current: Solution, v: nat, m: nat, visited0: set<seq<int>>, cost: Cost, load2bdwt0: map<int, int>,
                bdwt2load0: map<int, int>, head: Solution, tail: Solution, ghost c: seq<Solution>, ghost area0: set<Solution>,
                ghost done: set<Solution>)
    returns (visited: set<seq<int>>, load2bdwt: map<int, int>, bdwt2load: map<int, int>, ghost after: seq<Solution>,
             ghost area: set<Solution>)
    requires Searching(area0, head, c, tail, load2bdwt0, bdwt2load0, cost, v, m, visited0)
    requires Flags(area0, done) && done <= area0 && current in area0
    requires current.solution in visited0 && InSpace(current.solution, v, m)
    modifies area0`next, area0`prev, current`expanded
    ensures visited0 <= visited && (visited == visited0 ==> after == c) && Explored(current.solution, m, visited)
    ensures Only(current.solution, m, visited0, visited) && NewOnes(c, after, visited0)
    ensures area0 <= area && fresh(area - area0) && Flags(area, done + {current})
    ensures Searching(area, head, after, tail, load2bdwt, bdwt2load, cost, v, m, visited)
  {
    var solution := current.solution;
    SetExpanded(current, area0, done, head, c, tail, load2bdwt0, bdwt2load0, cost, v, m, visited0);
    visited, load2bdwt, bdwt2load, after, area :=
      RecolorAll(solution, v, m, visited0, cost, load2bdwt0, bdwt2load0, head, tail, c, area0, done + {current});
  }

  method SetExpanded(current: Solution, ghost area: set<Solution>, ghost done: set<Solution>, ghost head: Solution,
                     ghost c: seq<Solution>, ghost tail: Solution, ghost l: map<int, int>, ghost b: map<int, int>,
                     ghost cost: Cost, ghost v: nat, ghost m: nat, ghost visited: set<seq<int>>)
    requires Flags(area, done) && Searching(area, head, c, tail, l, b, cost, v, m, visited)
    modifies current`expanded
    ensures Flags(area, done + {current}) && Searching(area, head, c, tail, l, b, cost, v, m, visited)
  {
    current.expanded := true;
  }

  method RecolorAll(s: seq<int>, v: nat, m: nat, visited0: set<seq<int>>, cost: Cost, load2bdwt0: map<int, int>,
                    bdwt2load0: map<int, int>, head: Solution, tail: Solution, ghost c: seq<Solution>,
                    ghost area0: set<Solution>, ghost done: set<Solution>)
    returns (visited: set<seq<int>>, load2bdwt: map<int, int>, bdwt2load: map<int, int>, ghost after: seq<Solution>,
             ghost area: set<Solution>)
    requires Searching(area0, head, c, tail, load2bdwt0, bdwt2load0, cost, v, m, visited0)
    requires Flags(area0, done) && done <= area0 && s in visited0 && InSpace(s, v, m)
    modifies area0`next, area0`prev
    ensures visited0 <= visited && (visited == visited0 ==> after == c) && Explored(s, m, visited)
    ensures Only(s, m, visited0, visited) && NewOnes(c, after, visited0)
    ensures area0 <= area && fresh(area - area0) && Flags(area, done)
    ensures Searching(area, head, after, tail, load2bdwt, bdwt2load, cost, v, m, visited)
  {
    visited, load2bdwt, bdwt2load, after, area := visited0, load2bdwt0, bdwt2load0, c, area0;
    var i := 0;
    while i < v
      invariant 0 <= i <= v && Tried(s, m, i, 0, visited) && Only(s, m, visited0, visited) && NewOnes(c, after, visited0)
      invariant visited0 <= visited && (visited == visited0 ==> after == c)
      invariant area0 <= area && fresh(area - area0) && Flags(area, done)
      invariant Searching(area, head, after, tail, load2bdwt, bdwt2load, cost, v, m, visited)
    {
      ghost var now, seen := after, visited;
      visited, load2bdwt, bdwt2load, after, area :=
        RecolorAt(s, i, v, m, visited, cost, load2bdwt, bdwt2load, head, tail, after, area, done);
      Chain(s, m, c, now, after, visited0, seen, visited);
      i := i + 1;
    }
  }

  lemma Chain(s: seq<int>, m: nat, c: seq<Solution>, now: seq<Solution>, after: seq<Solution>, before: set<seq<int>>,
              seen: set<seq<int>>, visited: set<seq<int>>)
    requires Only(s, m, before, seen) && Only(s, m, seen, visited) && before <= seen
    requires NewOnes(c, now, before) && NewOnes(now, after, seen)
    ensures Only(s, m, before, visited) && NewOnes(c, after, before)
  {
  }

  // The neighbours that differ at position i.
  method RecolorAt(s: seq<int>, i: nat, v: nat, m: nat, visited0: set<seq<int>>, cost: Cost, load2bdwt0: map<int, int>,
                   bdwt2load0: map<int, int>, head: Solution, tail: Solution, ghost c: seq<Solution>,
                   ghost area0: set<Solution>, ghost done: set<Solution>)
    returns (visited: set<seq<int>>, load2bdwt: map<int, int>, bdwt2load: map<int, int>, ghost after: seq<Solution>,
             ghost area: set<Solution>)
    requires Searching(area0, head, c, tail, load2bdwt0, bdwt2load0, cost, v, m, visited0)
    requires Flags(area0, done) && done <= area0
    requires s in visited0 && InSpace(s, v, m) && i < v && Tried(s, m, i, 0, visited0)
    modifies area0`next, area0`prev
    ensures visited0 <= visited && (visited == visited0 ==> after == c) && Tried(s, m, i + 1, 0, visited)
    ensures Only(s, m, visited0, visited) && NewOnes(c, after, visited0)
    ensures area0 <= area && fresh(area - area0) && Flags(area, done)
    ensures Searching(area, head, after, tail, load2bdwt, bdwt2load, cost, v, m, visited)
  {
    visited, load2bdwt, bdwt2load, after, area := visited0, load2bdwt0, bdwt2load0, c, area0;
    var solution, oldv := s, s[i];
    var j := 0;
    while j < m
      invariant 0 <= j <= m && |solution| == v && solution[i := oldv] == s && Tried(s, m, i, j, visited)
      invariant Only(s, m, visited0, visited) && NewOnes(c, after, visited0)
      invariant visited0 <= visited && (visited == visited0 ==> after == c)
      invariant area0 <= area && fresh(area - area0) && Flags(area, done)
      invariant Searching(area, head, after, tail, load2bdwt, bdwt2load, cost, v, m, visited)
    {
      ghost var before, now := visited, after;
      if j != oldv {
        solution := solution[i := j];
        IsNeighbor(s, v, m, i, j, solution);
        visited, load2bdwt, bdwt2load, after, area :=
          TryNeighbor(solution, visited, cost, load2bdwt, bdwt2load, head, tail, after, area, done, v, m);
        OnlyMore(s, m, visited0, before, i, j);
        NewOnesMore(c, now, after, visited0, before, cost, solution);
      } else {
        assert Recolored(s, i, j) == s;
      }
      TriedStep(s, m, i, j, before, visited);
      j := j + 1;
    }
    solution := solution[i := oldv];
  }

  lemma IsNeighbor(s: seq<int>, v: nat, m: nat, i: nat, j: nat, solution: seq<int>)
    requires InSpace(s, v, m) && i < v && j < m && |solution| == v && solution == s[i := j]
    ensures InSpace(solution, v, m) && solution == Recolored(s, i, j)
  {
  }

  lemma TriedStep(s: seq<int>, m: nat, i: nat, j: nat, before: set<seq<int>>, after: set<seq<int>>)
    requires i < |s| && Tried(s, m, i, j, before) && before <= after && Recolored(s, i, j) in after
    ensures Tried(s, m, i, j + 1, after)
    ensures j + 1 == m ==> Tried(s, m, i + 1, 0, after)
  {
  }

  // What the search promises: the list is the Pareto front of everything it
  // visited, and it has visited every neighbour of every colouring on it.
  ghost predicate Settled(cost: Cost, v: nat, m: nat, visited: set<seq<int>>, c: seq<Solution>) {
    FrontNow(cost, v, m, visited, c) && forall k :: 0 <= k < |c| ==> Explored(c[k].solution, m, visited)
  }

  ghost predicate OnList(c: seq<Solution>, load: int, bdwt: int) {
    exists k :: 0 <= k < |c| && c[k].load == load && c[k].bdwt == bdwt
  }

  ghost predicate Beats(cost: Cost, t: seq<int>, s: seq<int>) {
    cost(t).0 <= cost(s).0 && cost(t).1 <= cost(s).1 && (cost(t).0 < cost(s).0 || cost(t).1 < cost(s).1)
  }

  ghost predicate Beaten(cost: Cost, visited: set<seq<int>>, s: seq<int>) {
    exists t :: t in visited && Beats(cost, t, s)
  }

  // The costs on the list are exactly those that no visited colouring beats.
  lemma FrontIsPareto(cost: Cost, v: nat, m: nat, visited: set<seq<int>>, c: seq<Solution>, s: seq<int>)
    requires FrontNow(cost, v, m, visited, c) && s in visited
    ensures OnList(c, cost(s).0, cost(s).1) <==> !Beaten(cost, visited, s)
  {
    assert Covered(cost, c, s);
    if Beaten(cost, visited, s) {
      var t :| t in visited && Beats(cost, t, s);
      assert Covered(cost, c, t);
      NothingBelow(c, cost(t).0, cost(t).1, cost(s).0, cost(s).1);
    } else {
      ReachedIsListed(cost, visited, c, s);
    }
  }

  lemma NothingBelow(c: seq<Solution>, l: int, b: int, load: int, bdwt: int)
    requires Strict(c) && Reaches(c, l, b) && l <= load && b <= bdwt && (l < load || b < bdwt)
    ensures !OnList(c, load, bdwt)
  {
    var q :| 0 <= q < |c| && c[q].load <= l && c[q].bdwt <= b;
    forall k | 0 <= k < |c| ensures !(c[k].load == load && c[k].bdwt == bdwt) {
      assert k < q ==> c[k].load < c[q].load;
      assert q < k ==> c[q].bdwt > c[k].bdwt;
    }
  }

  lemma ReachedIsListed(cost: Cost, visited: set<seq<int>>, c: seq<Solution>, s: seq<int>)
    requires Drawn(cost, visited, c) && Covered(cost, c, s) && !Beaten(cost, visited, s)
    ensures OnList(c, cost(s).0, cost(s).1)
  {
    var k :| 0 <= k < |c| && c[k].load <= cost(s).0 && c[k].bdwt <= cost(s).1;
    assert !Beats(cost, c[k].solution, s);
  }

  // done: the colourings whose neighbours were visited.
  ghost predicate DoneRight(done: set<Solution>, m: nat, visited: set<seq<int>>) {
    forall x {:trigger Look(x)} :: Look(x) ==> forall e {:trigger e in done} :: e in done ==> Explored(e.solution, m, visited)
  }

  // Two sentinels and one colouring between them.
  method StartCurve(init: seq<int>, ghost v: nat, ghost m: nat, cost: Cost)
    returns (head: Solution, tail: Solution, load2bdwt: map<int, int>, bdwt2load: map<int, int>, ghost c: seq<Solution>,
             ghost area: set<Solution>)
    requires InSpace(init, v, m)
    ensures Searching(area, head, c, tail, load2bdwt, bdwt2load, cost, v, m, {init})
    ensures fresh(area) && Flags(area, {})
  {
    head := new Solution([], 0, 0);
    tail := new Solution([], 0, 0);
    var first := new Solution(init, cost(init).0, cost(init).1);
    head.next := first;
    first.prev := head;
    first.next := tail;
    tail.prev := first;
    load2bdwt, bdwt2load := map[first.load := first.bdwt], map[first.bdwt := first.load];
    c, area := [first], {head, tail, first};
    FirstCurve(area, head, tail, first, load2bdwt, bdwt2load, cost, v, m, init);
  }

  // One expansion: the colourings on the list at that time, the one of them
  // that was expanded, and what had been visited before and after it.
  datatype Expansion = Expansion(list: seq<seq<int>>, current: seq<int>, before: set<seq<int>>, after: set<seq<int>>)

  ghost function Vectors(c: seq<Solution>): (r: seq<seq<int>>)
    ensures |r| == |c| && forall k :: 0 <= k < |c| ==> r[k] == c[k].solution
  {
    seq(|c|, k requires 0 <= k < |c| => c[k].solution)
  }

  ghost function Worked(log: seq<Expansion>): set<seq<int>> { set i | 0 <= i < |log| :: log[i].current }

  ghost function VisitedBy(init: seq<int>, log: seq<Expansion>): set<seq<int>> {
    if log == [] then {init} else log[|log| - 1].after
  }

  // Of the colourings on the list, the first that was not expanded yet.
  ghost predicate FirstOpen(list: seq<seq<int>>, current: seq<int>, worked: set<seq<int>>) {
    exists k :: 0 <= k < |list| && list[k] == current && current !in worked && forall a :: 0 <= a < k ==> list[a] in worked
  }

  // By falling bandwidth and rising load, the visited colourings that no
  // visited one beats.
  ghost predicate FrontOf(cost: Cost, visited: set<seq<int>>, list: seq<seq<int>>) {
    && (forall k :: 0 <= k < |list| ==> list[k] in visited)
    && (forall i, j :: 0 <= i < j < |list| ==> cost(list[i]).0 < cost(list[j]).0 && cost(list[i]).1 > cost(list[j]).1)
    && (forall s {:trigger s in visited} :: s in visited ==> Matched(cost, list, s))
  }

  // Some colouring of the list costs no more than s.
  ghost predicate Matched(cost: Cost, list: seq<seq<int>>, s: seq<int>) {
    exists k :: 0 <= k < |list| && cost(list[k]).0 <= cost(s).0 && cost(list[k]).1 <= cost(s).1
  }

  // Of the front of what was visited, the first colouring that was not expanded
  // yet, and of that one all neighbours and nothing else; closed until it is
  // used.
  ghost predicate Right(cost: Cost, m: nat, e: Expansion, worked: set<seq<int>>) {
    forall x: int {:trigger Look(x)} :: Look(x) ==>
      && FrontOf(cost, e.before, e.list) && FirstOpen(e.list, e.current, worked)
      && e.before <= e.after && Explored(e.current, m, e.after) && Only(e.current, m, e.before, e.after)
  }

  ghost predicate ExpansionOk(cost: Cost, init: seq<int>, m: nat, log: seq<Expansion>, i: nat)
    requires i < |log|
  {
    log[i].before == VisitedBy(init, log[..i]) && Right(cost, m, log[i], Worked(log[..i]))
  }

  // The whole search, one expansion after the other.
  ghost predicate Searched(cost: Cost, init: seq<int>, m: nat, log: seq<Expansion>) {
    forall i: nat {:trigger ExpansionOk(cost, init, m, log, i)} :: i < |log| ==> ExpansionOk(cost, init, m, log, i)
  }

  lemma SearchedMore(cost: Cost, init: seq<int>, m: nat, log: seq<Expansion>, e: Expansion)
    requires Searched(cost, init, m, log) && e.before == VisitedBy(init, log) && Right(cost, m, e, Worked(log))
    ensures Searched(cost, init, m, log + [e]) && Worked(log + [e]) == Worked(log) + {e.current}
  {
    var more := log + [e];
    forall i: nat | i < |more| ensures ExpansionOk(cost, init, m, more, i) {
      if i < |log| {
        assert ExpansionOk(cost, init, m, log, i);
        SameExpansion(cost, init, m, log, more, i);
      } else {
        assert more[..i] == log;
      }
    }
    WorkedMore(log, e);
  }

  lemma SameExpansion(cost: Cost, init: seq<int>, m: nat, log: seq<Expansion>, more: seq<Expansion>, i: nat)
    requires log <= more && i < |log| && ExpansionOk(cost, init, m, log, i)
    ensures ExpansionOk(cost, init, m, more, i)
  {
    assert more[..i] == log[..i];
  }

  lemma WorkedMore(log: seq<Expansion>, e: Expansion)
    ensures Worked(log + [e]) == Worked(log) + {e.current}
  {
    var more := log + [e];
    forall w ensures w in Worked(more) <==> w in Worked(log) || w == e.current {
      if w in Worked(log) { var i :| 0 <= i < |log| && log[i].current == w; assert more[i].current == w; }
      assert more[|log|].current == e.current;
    }
  }

  // The expanded entries, by themselves and by their vectors.
  ghost predicate Matches(done: set<Solution>, c: seq<Solution>, worked: set<seq<int>>, seen: set<seq<int>>) {
    && (forall e {:trigger e in done} :: e in done ==> e.solution in worked && e.solution in seen)
    && (forall w {:trigger w in worked} :: w in worked ==> exists e :: e in done && e.solution == w)
    && (forall e, f {:trigger e in done, f in c} :: e in done && f in c && e.solution == f.solution ==> e == f)
  }

  lemma FrontIsFrontOf(cost: Cost, v: nat, m: nat, visited: set<seq<int>>, c: seq<Solution>)
    requires Front(cost, v, m, visited, c)
    ensures FrontOf(cost, visited, Vectors(c))
  {
    assert Strict(c) && Drawn(cost, visited, c) && Covers(cost, v, m, visited, c) by { assert Look(0); }
    var list := Vectors(c);
    OrderOfVectors(cost, visited, c);
    forall s | s in visited ensures Matched(cost, list, s) {
      assert Covered(cost, c, s);
      CoveredIsMatched(cost, visited, c, s);
    }
  }

  lemma CostsOfVectors(cost: Cost, visited: set<seq<int>>, c: seq<Solution>)
    requires Drawn(cost, visited, c)
    ensures forall k :: 0 <= k < |c| ==>
      Vectors(c)[k] in visited && cost(Vectors(c)[k]).0 == c[k].load && cost(Vectors(c)[k]).1 == c[k].bdwt
  {
    forall k | 0 <= k < |c| ensures cost(Vectors(c)[k]).0 == c[k].load && cost(Vectors(c)[k]).1 == c[k].bdwt {
      assert Costed(cost, c[k]);
    }
  }

  lemma OrderOfVectors(cost: Cost, visited: set<seq<int>>, c: seq<Solution>)
    requires Drawn(cost, visited, c) && Strict(c)
    ensures var list := Vectors(c);
      && (forall k :: 0 <= k < |list| ==> list[k] in visited)
      && (forall i, j :: 0 <= i < j < |list| ==> cost(list[i]).0 < cost(list[j]).0 && cost(list[i]).1 > cost(list[j]).1)
  {
    var list := Vectors(c);
    CostsOfVectors(cost, visited, c);
    forall i, j | 0 <= i < j < |list| ensures cost(list[i]).0 < cost(list[j]).0 && cost(list[i]).1 > cost(list[j]).1 {
      assert c[i].load < c[j].load && c[i].bdwt > c[j].bdwt;
    }
  }

  lemma CoveredIsMatched(cost: Cost, visited: set<seq<int>>, c: seq<Solution>, s: seq<int>)
    requires Drawn(cost, visited, c) && Covered(cost, c, s)
    ensures Matched(cost, Vectors(c), s)
  {
    CostsOfVectors(cost, visited, c);
    var list := Vectors(c);
    var k :| 0 <= k < |c| && c[k].load <= cost(s).0 && c[k].bdwt <= cost(s).1;
    assert list[k] == c[k].solution;
  }

  lemma OpenInVectors(done: set<Solution>, c: seq<Solution>, worked: set<seq<int>>, seen: set<seq<int>>, k: nat)
    requires Matches(done, c, worked, seen) && k < |c| && c[k] !in done && forall a :: 0 <= a < k ==> c[a] in done
    ensures FirstOpen(Vectors(c), c[k].solution, worked)
  {
    var current := c[k];
    assert current in c;
    assert current.solution !in worked;
    var list := Vectors(c);
    assert list[k] == current.solution;
    forall a | 0 <= a < k ensures list[a] in worked { assert c[a] in done; }
  }

  lemma MatchesMore(done: set<Solution>, c: seq<Solution>, after: seq<Solution>, worked: set<seq<int>>, seen: set<seq<int>>,
                    now: set<seq<int>>, k: nat, cost: Cost, v: nat, m: nat)
    requires Matches(done, c, worked, seen) && k < |c| && NewOnes(c, after, seen) && seen <= now && Front(cost, v, m, seen, c)
    ensures Matches(done + {c[k]}, after, worked + {c[k].solution}, now)
  {
    assert Strict(c) && Drawn(cost, seen, c) by { assert Look(0); }
    var current := c[k];
    assert current in c && Costed(cost, current) && current.solution in seen;
    forall f | f in after && f.solution == current.solution ensures f == current {
      assert f in c;
      var a :| 0 <= a < |c| && c[a] == f;
      assert Costed(cost, c[a]);
      assert c[a].load == c[k].load;
    }
    forall w | w in worked + {current.solution} ensures exists e :: e in done + {current} && e.solution == w {
      if w in worked { var e :| e in done && e.solution == w; assert e in done + {current}; }
      else { assert current in done + {current}; }
    }
    forall e, f | e in done && f in after && e.solution == f.solution ensures e == f { assert f in c; }
  }

  // Expand the first colouring on the list that was not expanded, until there
  // is none: every round visits a new colouring or leaves one less to expand.
  method GenTradeoffCurve(init: seq<int>, v: nat, m: nat, cost: Cost)
    returns (head: Solution, ghost tail: Solution, ghost c: seq<Solution>, ghost visited: set<seq<int>>, ghost log: seq<Expansion>)
    requires InSpace(init, v, m)
    ensures Chained(Full(head, c, tail)) && Settled(cost, v, m, visited, c) && init in visited
    ensures Searched(cost, init, m, log) && visited == VisitedBy(init, log)
    ensures forall k :: 0 <= k < |c| ==> c[k].solution in Worked(log)
  {
    var end: Solution, seen, load2bdwt, bdwt2load;
    seen, log := {init}, [];
    ghost var area;
    head, end, load2bdwt, bdwt2load, c, area := StartCurve(init, v, m, cost);
    ghost var done: set<Solution> := {};
    while true
      invariant fresh(area) && Flags(area, done) && done <= area && DoneRight(done, m, seen) && init in seen
      invariant Searched(cost, init, m, log) && seen == VisitedBy(init, log) && Matches(done, c, Worked(log), seen)
      invariant Searching(area, head, c, end, load2bdwt, bdwt2load, cost, v, m, seen)
      decreases Unseen(v, m, seen), Waiting(c, done)
    {
      var finished;
      ghost var e;
      ghost var seen0, c0, done0 := seen, c, done;
      finished, seen, load2bdwt, bdwt2load, c, area, done, e :=
        Round(v, m, seen, cost, load2bdwt, bdwt2load, head, end, c, area, done, Worked(log));
      if finished { break; }
      LessMeans(v, m, seen, seen0, c, done, c0, done0);
      SearchedMore(cost, init, m, log, e);
      log := log + [e];
    }
    visited, tail := seen, end;
  }

  method Round(v: nat, m: nat, seen0: set<seq<int>>, cost: Cost, l: map<int, int>, b: map<int, int>, head: Solution,
               tail: Solution, ghost c0: seq<Solution>, ghost area0: set<Solution>, ghost done0: set<Solution>,
               ghost worked: set<seq<int>>)
    returns (finished: bool, seen: set<seq<int>>, load2bdwt: map<int, int>, bdwt2load: map<int, int>, ghost c: seq<Solution>,
             ghost area: set<Solution>, ghost done: set<Solution>, ghost e: Expansion)
    requires Searching(area0, head, c0, tail, l, b, cost, v, m, seen0)
    requires Flags(area0, done0) && done0 <= area0 && DoneRight(done0, m, seen0) && Matches(done0, c0, worked, seen0)
    modifies area0`next, area0`prev, area0`expanded
    ensures area0 <= area && fresh(area - area0) && Flags(area, done) && done <= area && DoneRight(done, m, seen) && seen0 <= seen
    ensures finished ==> Chained(Full(head, c, tail)) && Settled(cost, v, m, seen, c)
    ensures finished ==> seen == seen0 && forall k :: 0 <= k < |c| ==> c[k].solution in worked
    ensures !finished ==> Less(v, m, seen, seen0, c, done, c0, done0)
    ensures !finished ==> e.before == seen0 && e.after == seen && Right(cost, m, e, worked) && Matches(done, c, worked + {e.current}, seen)
    ensures Searching(area, head, c, tail, load2bdwt, bdwt2load, cost, v, m, seen)
  {
    finished, seen, load2bdwt, bdwt2load, c, area, done := false, seen0, l, b, c0, area0, done0;
    e := Expansion([], [], {}, {});
    var current: Solution;
    ghost var k;
    current, k := NextToExpand(head, tail, c, area, done, load2bdwt, bdwt2load, cost, v, m, seen);
    if current == tail {
      finished := true;
    } else {
      seen, load2bdwt, bdwt2load, c, area := Expand(current, v, m, seen, cost, load2bdwt, bdwt2load, head, tail, c, area, done);
      done := done + {current};
      DoneMore(done0, current, m, seen0, seen);
      e := Expansion(Vectors(c0), current.solution, seen0, seen);
      OpenInVectors(done0, c0, worked, seen0, k);
      FrontIsFrontOf(cost, v, m, seen0, c0);
      MatchesMore(done0, c0, c, worked, seen0, seen, k, cost, v, m);
      Progress(area, head, c, tail, load2bdwt, bdwt2load, cost, v, m, seen0, seen, c0, done0, current);
    }
  }

  method NextToExpand(head: Solution, tail: Solution, ghost c: seq<Solution>, ghost area: set<Solution>, ghost done: set<Solution>,
                      ghost l: map<int, int>, ghost b: map<int, int>, ghost cost: Cost, ghost v: nat, ghost m: nat,
                      ghost seen: set<seq<int>>)
    returns (current: Solution, ghost k: nat)
    requires Searching(area, head, c, tail, l, b, cost, v, m, seen) && Flags(area, done) && DoneRight(done, m, seen)
    ensures k <= |c| && (current == tail <==> k == |c|) && (k < |c| ==> current == c[k]) && forall a :: 0 <= a < k ==> c[a] in done
    ensures current == tail ==> Chained(Full(head, c, tail)) && Settled(cost, v, m, seen, c)
    ensures current != tail ==> current in area && current !in done && current in Cells(c)
    ensures current != tail ==> current.solution in seen && InSpace(current.solution, v, m)
  {
    OpenSearch(area, head, c, tail, l, b, cost, v, m, seen);
    current, k := FirstUnexpanded(head, tail, c, area, done);
    if current == tail { AllDone(cost, v, m, seen, c, done); } else { Visited(cost, v, m, seen, c, k); }
  }

  lemma Visited(cost: Cost, v: nat, m: nat, visited: set<seq<int>>, c: seq<Solution>, k: nat)
    requires Front(cost, v, m, visited, c) && k < |c|
    ensures c[k].solution in visited && InSpace(c[k].solution, v, m)
  {
    assert Look(0);
  }

  lemma DoneMore(done: set<Solution>, current: Solution, m: nat, before: set<seq<int>>, after: set<seq<int>>)
    requires DoneRight(done, m, before) && before <= after && Explored(current.solution, m, after)
    ensures DoneRight(done + {current}, m, after)
  {
  }

  lemma AllDone(cost: Cost, v: nat, m: nat, visited: set<seq<int>>, c: seq<Solution>, done: set<Solution>)
    requires Front(cost, v, m, visited, c) && DoneRight(done, m, visited) && forall k :: 0 <= k < |c| ==> c[k] in done
    ensures Settled(cost, v, m, visited, c)
  {
    assert Look(0);
  }

  ghost function Unseen(v: nat, m: nat, visited: set<seq<int>>): nat { |All(v, m) - visited| }

  ghost function Waiting(c: seq<Solution>, done: set<Solution>): nat { |Cells(c) - done| }

  // Something new was visited, or one colouring less waits to be expanded.
  ghost predicate Less(v: nat, m: nat, after: set<seq<int>>, before: set<seq<int>>, c: seq<Solution>, done: set<Solution>,
                       c0: seq<Solution>, done0: set<Solution>)
  {
    forall x {:trigger Look(x)} :: Look(x) ==>
      Unseen(v, m, after) < Unseen(v, m, before) || (Unseen(v, m, after) == Unseen(v, m, before) && Waiting(c, done) < Waiting(c0, done0))
  }

  lemma LessMeans(v: nat, m: nat, after: set<seq<int>>, before: set<seq<int>>, c: seq<Solution>, done: set<Solution>,
                  c0: seq<Solution>, done0: set<Solution>)
    requires Less(v, m, after, before, c, done, c0, done0)
    ensures Unseen(v, m, after) < Unseen(v, m, before) || (Unseen(v, m, after) == Unseen(v, m, before) && Waiting(c, done) < Waiting(c0, done0))
  {
    assert Look(0);
  }

  lemma Progress(area: set<Solution>, head: Solution, c: seq<Solution>, tail: Solution, l: map<int, int>, b: map<int, int>,
                 cost: Cost, v: nat, m: nat, before: set<seq<int>>, after: set<seq<int>>, c0: seq<Solution>,
                 done: set<Solution>, current: Solution)
    requires Searching(area, head, c, tail, l, b, cost, v, m, after) && before <= after && (after == before ==> c == c0)
    requires current in Cells(c0) && current !in done
    ensures Less(v, m, after, before, c, done + {current}, c0, done)
  {
    if after != before {
      InAll(cost, v, m, after, c);
      FewerUnseen(All(v, m), before, after);
    } else {
      FewerWaiting(Cells(c), done, current);
    }
  }

  lemma InAll(cost: Cost, v: nat, m: nat, visited: set<seq<int>>, c: seq<Solution>)
    requires Front(cost, v, m, visited, c)
    ensures visited <= All(v, m)
  {
    assert Look(0);
  }

  lemma FewerUnseen(all: set<seq<int>>, before: set<seq<int>>, after: set<seq<int>>)
    requires before <= after <= all && before != after
    ensures |all - after| < |all - before|
  {
    var d := after - before;
    assert after == before + d;
    assert (forall x :: x !in d) ==> d == {};
    var x :| x in d;
    assert all - after <= all - before - {x};
    Subset(all - after, all - before - {x});
  }

  lemma FewerWaiting(s: set<Solution>, done: set<Solution>, x: Solution)
    requires x in s && x !in done
    ensures |s - (done + {x})| < |s - done|
  {
    assert s - (done + {x}) == s - done - {x};
  }

  lemma {:induction false} Subset(a: set<seq<int>>, b: set<seq<int>>)
    requires a <= b
    ensures |a| <= |b|
    decreases |a|
  {
    if a != {} {
      var x :| x in a;
      Subset(a - {x}, b - {x});
    }
  }

  lemma FirstCurve(area: set<Solution>, head: Solution, tail: Solution, first: Solution, l: map<int, int>, b: map<int, int>,
                   cost: Cost, v: nat, m: nat, init: seq<int>)
    requires area == {head, tail, first} && head != tail && tail != first && head != first
    requires head.next == first && first.prev == head && first.next == tail && tail.prev == first
    requires first.solution == init && Costed(cost, first) && InSpace(init, v, m)
    requires l == map[first.load := first.bdwt] && b == map[first.bdwt := first.load]
    ensures Searching(area, head, [first], tail, l, b, cost, v, m, {init})
  {
    var f := Full(head, [first], tail);
    assert f == [head, first, tail];
    assert Cells([first]) == {first};
    assert Covered(cost, [first], init) by { assert [first][0] == first; }
    MakeFront(cost, v, m, {init}, [first]);
  }

  // Along the list to the first entry that was not expanded, or to its end.
  method FirstUnexpanded(head: Solution, tail: Solution, ghost c: seq<Solution>, ghost area: set<Solution>, ghost done: set<Solution>)
    returns (current: Solution, ghost k: nat)
    requires Chained(Full(head, c, tail)) && InArea(area, head, c, tail) && Flags(area, done)
    ensures k <= |c| && current == Full(head, c, tail)[k + 1] && (current == tail <==> k == |c|)
    ensures forall i :: 0 <= i < k ==> c[i] in done
    ensures k < |c| ==> current in area && current !in done
  {
    ghost var f := Full(head, c, tail);
    assert f[0].next == f[1];
    current, k := head.next, 0;
    while current != tail && current.expanded
      invariant k <= |c| && current == f[k + 1] && forall i :: 0 <= i < k ==> c[i] in done
      decreases |c| - k
    {
      assert f[k + 1] != f[|c| + 1];
      assert f[k + 1].next == f[k + 2] && f[k + 1] in f;
      current := current.next;
      k := k + 1;
    }
    assert f[k + 1] in f && f[|c| + 1] == tail;
  }
}
