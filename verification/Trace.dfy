// src/RepairScheduler_new.hh and src/RepairSimulator_new.cc: repair driven by
// a failure trace, and what looking one event ahead is worth.
module Trace {
  import opened Util
  import T = Tasks

  datatype Stripe = Stripe(id: int, placement: seq<int>)

  datatype Decision = Lazy | Partial | Immediate

  // ------------------------------------------------------------------ counting

  // The failed nodes that hold a block of the stripe.
  function Hit(failed: seq<int>, pl: seq<int>): set<int> { set x | x in failed && x in pl }

  // The blocks of the stripe that sit on nodes of a set.
  function Entries(pl: seq<int>, on: set<int>): nat {
    if pl == [] then 0 else Entries(pl[..|pl| - 1], on) + if pl[|pl| - 1] in on then 1 else 0
  }

  // Failures are remembered once each, in the order of their first report.
  function Added(failed: seq<int>, fails: seq<int>): (r: seq<int>)
    ensures forall x :: x in r <==> x in failed || x in fails
    ensures NoDup(failed) ==> NoDup(r)
  {
    if fails == [] then failed
    else
      var n := |fails| - 1;
      assert fails == fails[..n] + [fails[n]];
      var r := Added(failed, fails[..n]);
      if fails[n] in r then r else r + [fails[n]]
  }

  // What was remembered stays in place, and what is new follows in the order of
  // its first report.
  lemma {:induction false} AddedInOrder(failed: seq<int>, fails: seq<int>, i: nat)
    requires i <= |fails|
    ensures Added(failed, fails[..i]) <= Added(failed, fails)
    decreases |fails|
  {
    if i == |fails| {
      assert fails[..i] == fails;
    } else {
      var n := |fails| - 1;
      assert fails[..n][..i] == fails[..i];
      AddedInOrder(failed, fails[..n], i);
      PrefixTwice(Added(failed, fails[..i]), Added(failed, fails[..n]), Added(failed, fails));
    }
  }

  lemma PrefixTwice(a: seq<int>, b: seq<int>, c: seq<int>)
    requires a <= b <= c
    ensures a <= c
  {
  }

  lemma AddedNext(failed: seq<int>, fails: seq<int>, i: nat)
    requires i < |fails|
    ensures Added(failed, fails[..0]) == failed
    ensures var r := Added(failed, fails[..i]); Added(failed, fails[..i + 1]) == if fails[i] in r then r else r + [fails[i]]
  {
    assert fails[..i + 1][..i] == fails[..i];
  }

  // A stripe is lost when more nodes of it are down than it can bear.
  predicate Lost(s: Stripe, failed: seq<int>, tolerance: int) {
    |Hit(failed, s.placement)| > tolerance
  }

  // Which stripes are lost, by their place in the list.
  function LostSet(stripes: seq<Stripe>, failed: seq<int>, tolerance: int): set<int> {
    set i | 0 <= i < |stripes| && Lost(stripes[i], failed, tolerance)
  }

  // What an event would cost if it hit a healthy system.
  function LostAlone(stripes: seq<Stripe>, event: seq<int>, tolerance: int): set<int> {
    LostSet(stripes, Added([], event), tolerance)
  }

  // The two totals the simulator reports, of the stripes lost at each event.
  function LossEvents(losses: seq<set<int>>): nat {
    if losses == [] then 0 else LossEvents(losses[..|losses| - 1]) + if |losses[|losses| - 1]| > 0 then 1 else 0
  }

  function LossCount(losses: seq<set<int>>): nat {
    if losses == [] then 0 else LossCount(losses[..|losses| - 1]) + |losses[|losses| - 1]|
  }

  lemma LossStep(losses: seq<set<int>>, now: set<int>)
    ensures LossEvents(losses + [now]) == LossEvents(losses) + if |now| > 0 then 1 else 0
    ensures LossCount(losses + [now]) == LossCount(losses) + |now|
  {
    assert (losses + [now])[..|losses|] == losses;
  }

  lemma LostStep(stripes: seq<Stripe>, i: nat, failed: seq<int>, tolerance: int)
    requires i < |stripes|
    ensures LostSet(stripes[..0], failed, tolerance) == {}
    ensures |LostSet(stripes[..i + 1], failed, tolerance)|
         == |LostSet(stripes[..i], failed, tolerance)| + if Lost(stripes[i], failed, tolerance) then 1 else 0
  {
    var a, b := LostSet(stripes[..i], failed, tolerance), LostSet(stripes[..i + 1], failed, tolerance);
    assert b == if Lost(stripes[i], failed, tolerance) then a + {i} else a;
  }

  lemma {:induction false} EntriesBound(pl: seq<int>, on: set<int>)
    ensures |set x | x in pl && x in on| <= Entries(pl, on)
  {
    if pl == [] {
      assert (set x | x in pl && x in on) == {};
    } else {
      var n := |pl| - 1;
      EntriesBound(pl[..n], on);
      assert pl == pl[..n] + [pl[n]];
      var a, b := set x | x in pl[..n] && x in on, set x | x in pl && x in on;
      assert b == if pl[n] in on then a + {pl[n]} else a;
    }
  }

  lemma {:induction false} NoEntries(pl: seq<int>, on: set<int>)
    ensures Entries(pl, on) == 0 <==> forall x :: x in pl ==> x !in on
  {
    if pl != [] {
      var n := |pl| - 1;
      NoEntries(pl[..n], on);
      assert forall x :: x in pl <==> x in pl[..n] || x == pl[n] by { assert pl == pl[..n] + [pl[n]]; }
    }
  }

  lemma {:induction false} FewerEntries(pl: seq<int>, a: set<int>, b: set<int>)
    requires forall i :: 0 <= i < |pl| && pl[i] in a ==> pl[i] in b
    ensures Entries(pl, a) <= Entries(pl, b)
  {
    if pl != [] { FewerEntries(pl[..|pl| - 1], a, b); }
  }

  // -------------------------------------------------- safe to wait one event

  // Either nothing of the stripe is down, or what is down and what is
  // expected to go down next together stay within the tolerance.
  predicate SafeWith(s: Stripe, failed: seq<int>, next: seq<int>, tolerance: int) {
    Entries(s.placement, AsSet(failed)) == 0
    || Entries(s.placement, AsSet(failed)) + Entries(s.placement, AsSet(next)) <= tolerance
  }

  predicate AllSafe(stripes: seq<Stripe>, failed: seq<int>, next: seq<int>, tolerance: int) {
    forall i :: 0 <= i < |stripes| ==> SafeWith(stripes[i], failed, next, tolerance)
  }

  // The prediction names every node of the stripe that the event newly fails.
  predicate Foreseen(s: Stripe, failed: seq<int>, event: seq<int>, predicted: seq<int>) {
    forall x :: x in event && x in s.placement && x !in failed ==> x in predicted
  }

  lemma HitBySets(failed: seq<int>, event: seq<int>, pl: seq<int>)
    ensures |Hit(Added(failed, event), pl)| <= |Hit(failed, pl)| + |set x | x in event && x in pl && x !in failed|
    ensures Hit(Added([], event), pl) <= Hit(Added(failed, event), pl)
  {
    var a, b := Hit(failed, pl), set x | x in event && x in pl && x !in failed;
    assert Hit(Added(failed, event), pl) == a + b;
  }

  lemma NothingDown(s: Stripe, failed: seq<int>, event: seq<int>)
    requires forall x :: x in s.placement ==> x !in failed
    ensures Hit(Added(failed, event), s.placement) == Hit(Added([], event), s.placement)
  {
    var a, b := Added(failed, event), Added([], event);
    forall x | x in s.placement ensures x in a <==> x in b { }
  }

  // What is down plus what goes down next is no more than the entries that
  // were counted.
  lemma WithinEntries(s: Stripe, failed: seq<int>, event: seq<int>, predicted: seq<int>)
    requires Foreseen(s, failed, event, predicted)
    ensures |Hit(Added(failed, event), s.placement)|
         <= Entries(s.placement, AsSet(failed)) + Entries(s.placement, AsSet(predicted))
  {
    var pl := s.placement;
    var new_ := set x | x in event && x in pl && x !in failed;
    HitBySets(failed, event, pl);
    EntriesBound(pl, AsSet(failed));
    EntriesBound(pl, AsSet(predicted));
    assert Hit(failed, pl) == set x | x in pl && x in AsSet(failed);
    var soon := set x | x in pl && x in AsSet(predicted);
    assert forall x :: x in new_ ==> x in soon;
    assert new_ * soon == new_;
    Smaller(new_, soon);
  }

  // If the prediction misses nothing in a stripe that was safe to leave, the
  // event loses the stripe exactly when it would lose it all by itself.
  lemma EventAlone(s: Stripe, failed: seq<int>, event: seq<int>, predicted: seq<int>, tolerance: int)
    requires SafeWith(s, failed, predicted, tolerance) && Foreseen(s, failed, event, predicted)
    ensures Lost(s, Added(failed, event), tolerance) <==> Lost(s, Added([], event), tolerance)
  {
    var pl := s.placement;
    HitBySets(failed, event, pl);
    Smaller(Hit(Added([], event), pl), Hit(Added(failed, event), pl));
    if Entries(pl, AsSet(failed)) == 0 {
      NoEntries(pl, AsSet(failed));
      forall x | x in pl ensures x !in failed { assert x !in AsSet(failed); }
      NothingDown(s, failed, event);
    } else {
      WithinEntries(s, failed, event, predicted);
    }
  }

  // Put the other way round: a loss that the event alone would not have
  // caused is always owed to a node of that stripe that was not predicted.
  lemma ExtraLossWasMissed(s: Stripe, failed: seq<int>, event: seq<int>, predicted: seq<int>, tolerance: int)
    requires SafeWith(s, failed, predicted, tolerance)
    requires Lost(s, Added(failed, event), tolerance) && !Lost(s, Added([], event), tolerance)
    ensures exists x :: x in event && x in s.placement && x !in failed && x !in predicted
  {
    if Foreseen(s, failed, event, predicted) { EventAlone(s, failed, event, predicted, tolerance); }
  }

  predicate AllForeseen(stripes: seq<Stripe>, failed: seq<int>, event: seq<int>, predicted: seq<int>) {
    forall i :: 0 <= i < |stripes| ==> Foreseen(stripes[i], failed, event, predicted)
  }

  lemma EventAloneAll(stripes: seq<Stripe>, failed: seq<int>, event: seq<int>, predicted: seq<int>, tolerance: int)
    requires AllSafe(stripes, failed, predicted, tolerance) && AllForeseen(stripes, failed, event, predicted)
    ensures LostSet(stripes, Added(failed, event), tolerance) == LostAlone(stripes, event, tolerance)
  {
    forall i | 0 <= i < |stripes|
      ensures Lost(stripes[i], Added(failed, event), tolerance) <==> Lost(stripes[i], Added([], event), tolerance)
    {
      EventAlone(stripes[i], failed, event, predicted, tolerance);
    }
  }

  // Nodes that are down already can only add to what an event takes out.
  lemma NeverFewer(stripes: seq<Stripe>, failed: seq<int>, event: seq<int>, tolerance: int)
    ensures LostAlone(stripes, event, tolerance) <= LostSet(stripes, Added(failed, event), tolerance)
  {
    forall i | i in LostAlone(stripes, event, tolerance) ensures Lost(stripes[i], Added(failed, event), tolerance) {
      HitBySets(failed, event, stripes[i].placement);
      Smaller(Hit(Added([], event), stripes[i].placement), Hit(Added(failed, event), stripes[i].placement));
    }
  }

  // ---------------------------------------------------------------- decisions

  predicate Dangerous(s: Stripe, failed: seq<int>, next: seq<int>, tolerance: int) {
    !SafeWith(s, failed, next, tolerance)
  }

  // The failed nodes of all dangerous stripes.
  predicate InDanger(stripes: seq<Stripe>, failed: seq<int>, next: seq<int>, tolerance: int, x: int) {
    x in failed && exists i :: 0 <= i < |stripes| && x in stripes[i].placement && Dangerous(stripes[i], failed, next, tolerance)
  }

  // Repairing them leaves every stripe safe.
  lemma RepairMakesSafe(stripes: seq<Stripe>, failed: seq<int>, next: seq<int>, tolerance: int, left: seq<int>)
    requires forall x :: x in left <==> x in failed && !InDanger(stripes, failed, next, tolerance, x)
    ensures AllSafe(stripes, left, next, tolerance)
  {
    forall i | 0 <= i < |stripes| ensures SafeWith(stripes[i], left, next, tolerance) {
      var pl := stripes[i].placement;
      if Dangerous(stripes[i], failed, next, tolerance) {
        forall x | x in pl ensures x !in AsSet(left) {
          if x in failed { assert InDanger(stripes, failed, next, tolerance, x); }
        }
        NoEntries(pl, AsSet(left));
      } else {
        forall k | 0 <= k < |pl| && pl[k] in AsSet(left) ensures pl[k] in AsSet(failed) {
          var x := pl[k];
          assert x in left;
        }
        FewerEntries(pl, AsSet(left), AsSet(failed));
      }
    }
  }

  predicate UniqueIds(stripes: seq<Stripe>) {
    forall i, j :: 0 <= i < j < |stripes| ==> stripes[i].id != stripes[j].id
  }

  // checkStripeDataLoss
  method CheckStripeDataLoss(failed: seq<int>, stripes: seq<Stripe>, n: int, k: int) returns (count: nat)
    requires NoDup(failed)
    ensures count == |LostSet(stripes, failed, n - k)|
    ensures count == |set i | 0 <= i < |stripes| && |set x | x in failed && x in stripes[i].placement| > n - k|
  {
    var tolerance := n - k;
    count := 0;
    var i := 0;
    while i < |stripes|
      invariant 0 <= i <= |stripes| && count == |LostSet(stripes[..i], failed, tolerance)|
    {
      LostStep(stripes, i, failed, tolerance);
      var fails := CountFails(failed, stripes[i].placement);
      if fails > tolerance { count := count + 1; }
      i := i + 1;
    }
    assert stripes[..|stripes|] == stripes;
    assert LostSet(stripes, failed, n - k) == set i | 0 <= i < |stripes| && |set x | x in failed && x in stripes[i].placement| > n - k;
  }

  method CountFails(failed: seq<int>, pl: seq<int>) returns (fails: nat)
    requires NoDup(failed)
    ensures fails == |Hit(failed, pl)|
  {
    fails := 0;
    var i := 0;
    assert Hit(failed[..0], pl) == {};
    while i < |failed|
      invariant 0 <= i <= |failed| && fails == |Hit(failed[..i], pl)|
    {
      var x := failed[i];
      assert failed[..i + 1] == failed[..i] + [x] && x !in failed[..i];
      assert Hit(failed[..i + 1], pl) == if x in pl then Hit(failed[..i], pl) + {x} else Hit(failed[..i], pl);
      if x in pl { fails := fails + 1; }
      i := i + 1;
    }
    assert failed[..|failed|] == failed;
  }

  class Scheduler {
    const tolerance: int
    var failed: seq<int>
    var daily: seq<int>
    var maxConcurrent: int
    var lossEvents: int
    var lostStripes: int
    // which stripes were lost, event by event
    ghost var losses: seq<set<int>>
    var rounds: int
    var partials: int

    ghost predicate Valid()
      reads this
    {
      NoDup(failed) && lossEvents == LossEvents(losses) && lostStripes == LossCount(losses)
    }

    constructor (n: int, k: int)
      ensures Valid() && tolerance == n - k && failed == [] && daily == [] && losses == []
      ensures lossEvents == 0 && lostStripes == 0 && rounds == 0 && partials == 0 && maxConcurrent == 0
    {
      tolerance := n - k;
      failed, daily, losses := [], [], [];
      maxConcurrent, lossEvents, lostStripes, rounds, partials := 0, 0, 0, 0, 0;
    }

    method AddFailures(fails: seq<int>) returns (over: bool)
      requires Valid()
      modifies `failed, `daily, `maxConcurrent
      ensures Valid() && failed == Added(old(failed), fails) && daily == old(daily) + [|fails|]
      ensures maxConcurrent == if |failed| > old(maxConcurrent) then |failed| else old(maxConcurrent)
      ensures over <==> |failed| > tolerance
    {
      var i := 0;
      while i < |fails|
        invariant 0 <= i <= |fails| && failed == Added(old(failed), fails[..i])
        invariant daily == old(daily) && maxConcurrent == old(maxConcurrent)
      {
        assert fails[..i + 1][..i] == fails[..i];
        if fails[i] !in failed { failed := failed + [fails[i]]; }
        i := i + 1;
      }
      assert fails[..|fails|] == fails;
      daily := daily + [|fails|];
      if |failed| > maxConcurrent { maxConcurrent := |failed|; }
      over := |failed| > tolerance;
    }

    method RecordDataLoss(stripes: int)
      modifies `lossEvents, `lostStripes
      ensures lossEvents == old(lossEvents) + 1 && lostStripes == old(lostStripes) + stripes
    {
      lossEvents, lostStripes := lossEvents + 1, lostStripes + stripes;
    }

    // What the check after an event reports.
    method NoteLosses(lost: nat, ghost now: set<int>)
      requires Valid() && lost == |now|
      modifies `lossEvents, `lostStripes, `losses
      ensures Valid() && losses == old(losses) + [now]
    {
      ghost var before := losses;
      losses := losses + [now];
      if lost > 0 { RecordDataLoss(lost); }
      LossStep(before, now);
    }

    method ExecuteFullRepair() returns (repaired: seq<int>)
      requires Valid()
      modifies `failed, `rounds
      ensures Valid() && repaired == old(failed) && failed == [] && rounds == old(rounds) + 1
    {
      repaired := failed;
      failed := [];
      rounds := rounds + 1;
    }

    // Nodes that are not down are skipped; a repair of nothing is no round.
    method ExecutePartialRepair(nodes: seq<int>) returns (repaired: seq<int>)
      requires Valid()
      modifies `failed, `rounds, `partials
      ensures Valid()
      ensures forall x :: x in failed <==> x in old(failed) && x !in nodes
      ensures NoDup(repaired) && forall x :: x in repaired <==> x in old(failed) && x in nodes
      ensures var d := if repaired != [] then 1 else 0; rounds == old(rounds) + d && partials == old(partials) + d
    {
      repaired := [];
      var i := 0;
      while i < |nodes|
        invariant 0 <= i <= |nodes| && NoDup(failed) && NoDup(repaired)
        invariant rounds == old(rounds) && partials == old(partials)
        invariant forall x :: x in failed <==> x in old(failed) && x !in nodes[..i]
        invariant forall x :: x in repaired <==> x in old(failed) && x in nodes[..i]
      {
        var x := nodes[i];
        assert nodes[..i + 1] == nodes[..i] + [x];
        if x in failed {
          repaired := repaired + [x];
          failed := EraseFirst(failed, x);
        }
        i := i + 1;
      }
      assert nodes[..|nodes|] == nodes;
      if repaired != [] { rounds, partials := rounds + 1, partials + 1; }
    }

    method DecideImmediate() returns (d: Decision)
      ensures d != Partial && (d == Lazy <==> failed == [])
    {
      d := if failed == [] then Lazy else Immediate;
    }

    // The failed nodes of all stripes that the next failures would endanger.
    method DecideTraceDrivenStripe(stripes: seq<Stripe>, next: seq<int>) returns (d: Decision, nodes: seq<int>)
      requires Valid() && UniqueIds(stripes)
      ensures T.Increasing(nodes) && NoDup(nodes)
      ensures forall x :: x in nodes <==> InDanger(stripes, failed, next, tolerance, x)
      ensures d == if nodes == [] then Lazy else if |nodes| == |failed| then Immediate else Partial
    {
      if failed == [] { return Lazy, []; }
      var byId := ById(stripes);
      var chosen: seq<int> := [];
      var todo := byId.Keys;
      ghost var seen: set<int> := {};
      while todo != {}
        invariant todo <= byId.Keys && seen == byId.Keys - todo && NoDup(chosen)
        invariant forall x :: x in chosen <==> x in failed && exists id :: id in seen && x in byId[id].placement && Dangerous(byId[id], failed, next, tolerance)
        decreases |todo|
      {
        NonEmpty(todo);
        var id :| id in todo;
        todo := todo - {id};
        seen := seen + {id};
        chosen := TakeDangerous(byId[id], next, chosen);
      }
      nodes := T.Sorted(chosen);
      T.SortedMembers(chosen);
      forall x ensures x in nodes <==> InDanger(stripes, failed, next, tolerance, x) {
        if x in chosen {
          var id :| id in seen && x in byId[id].placement && Dangerous(byId[id], failed, next, tolerance);
          var i :| 0 <= i < |stripes| && stripes[i].id == id && stripes[i] == byId[id];
        }
        if InDanger(stripes, failed, next, tolerance, x) {
          var i :| 0 <= i < |stripes| && x in stripes[i].placement && Dangerous(stripes[i], failed, next, tolerance);
          assert stripes[i].id in seen;
        }
      }
      if nodes == [] { return Lazy, []; }
      d := if |nodes| == |failed| then Immediate else Partial;
    }

    method TakeDangerous(s: Stripe, next: seq<int>, chosen: seq<int>) returns (r: seq<int>)
      requires NoDup(chosen)
      ensures NoDup(r)
      ensures forall x :: x in r <==> x in chosen || (x in failed && x in s.placement && Dangerous(s, failed, next, tolerance))
    {
      r := chosen;
      var here, soon := 0, 0;
      var mine: seq<int> := [];
      var i := 0;
      while i < |s.placement|
        invariant 0 <= i <= |s.placement|
        invariant here == Entries(s.placement[..i], AsSet(failed)) && soon == Entries(s.placement[..i], AsSet(next))
        invariant forall x :: x in mine <==> x in failed && x in s.placement[..i]
        invariant |mine| == here
      {
        var x := s.placement[i];
        assert s.placement[..i + 1] == s.placement[..i] + [x] && s.placement[..i + 1][..i] == s.placement[..i];
        if x in failed { mine := mine + [x]; here := here + 1; }
        if x in next { soon := soon + 1; }
        i := i + 1;
      }
      assert s.placement[..|s.placement|] == s.placement;
      if |mine| == 0 { return; }
      if |mine| + soon > tolerance {
        r := Union(chosen, mine);
      }
    }
  }

  method Union(a: seq<int>, b: seq<int>) returns (r: seq<int>)
    requires NoDup(a)
    ensures NoDup(r) && forall x :: x in r <==> x in a || x in b
  {
    r := a;
    var i := 0;
    while i < |b|
      invariant 0 <= i <= |b| && NoDup(r) && forall x :: x in r <==> x in a || x in b[..i]
    {
      assert b[..i + 1] == b[..i] + [b[i]];
      if b[i] !in r { r := r + [b[i]]; }
      i := i + 1;
    }
    assert b[..|b|] == b;
  }

  // Later stripes replace earlier ones with the same id.
  method ById(stripes: seq<Stripe>) returns (m: map<int, Stripe>)
    requires UniqueIds(stripes)
    ensures forall i :: 0 <= i < |stripes| ==> stripes[i].id in m && m[stripes[i].id] == stripes[i]
    ensures forall id :: id in m ==> exists i :: 0 <= i < |stripes| && stripes[i].id == id && stripes[i] == m[id]
  {
    m := map[];
    var i := 0;
    while i < |stripes|
      invariant 0 <= i <= |stripes|
      invariant forall l :: 0 <= l < i ==> stripes[l].id in m && m[stripes[l].id] == stripes[l]
      invariant forall id :: id in m ==> exists l :: 0 <= l < i && stripes[l].id == id && stripes[l] == m[id]
    {
      m := m[stripes[i].id := stripes[i]];
      i := i + 1;
    }
  }
}
