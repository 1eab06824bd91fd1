// src/RepairSimulator_new.cc: whole runs over a failure trace.
module TraceRun {
  import opened Util
  import T = Tasks
  import opened Trace

  class TraceReader {
    const events: seq<seq<int>>
    var at: nat

    constructor (trace: seq<seq<int>>)
      ensures events == trace && at == 0
    {
      events, at := trace, 0;
    }

    method Reset()
      modifies this
      ensures at == 0
    {
      at := 0;
    }

    predicate HasCurrentEvent()
      reads this
    {
      at < |events|
    }

    function CurrentEvent(): seq<int>
      requires HasCurrentEvent()
      reads this
    {
      events[at]
    }

    // The event after the current one; nothing fails after the last.
    function PeekNextEvent(): seq<int>
      reads this
    {
      if at + 1 < |events| then events[at + 1] else []
    }

    method Advance()
      modifies this
      ensures at == if old(at) < |events| then old(at) + 1 else old(at)
    {
      if at < |events| { at := at + 1; }
    }
  }

  datatype Strategy = RunImmediate | RunLazy | RunTraceDriven

  // At every event so far exactly the stripes were lost that the event alone
  // takes out ...
  ghost predicate AsAlone(losses: seq<set<int>>, trace: seq<seq<int>>, stripes: seq<Stripe>, tolerance: int) {
    && |losses| == |trace|
    && forall i :: 0 <= i < |trace| ==> losses[i] == LostAlone(stripes, trace[i], tolerance)
  }

  // ... or those and others.
  ghost predicate AtLeastAlone(losses: seq<set<int>>, trace: seq<seq<int>>, stripes: seq<Stripe>, tolerance: int) {
    && |losses| == |trace|
    && forall i :: 0 <= i < |trace| ==> LostAlone(stripes, trace[i], tolerance) <= losses[i]
  }

  // The first half of every event: register the failures, count the losses.
  method Register(s: Scheduler, event: seq<int>, stripes: seq<Stripe>, n: int, k: int)
    requires s.Valid() && s.tolerance == n - k
    modifies s
    ensures s.Valid() && s.failed == Added(old(s.failed), event)
    ensures s.losses == old(s.losses) + [LostSet(stripes, s.failed, s.tolerance)]
    ensures s.rounds == old(s.rounds) && s.partials == old(s.partials) && s.daily == old(s.daily) + [|event|]
    ensures s.maxConcurrent == if |s.failed| > old(s.maxConcurrent) then |s.failed| else old(s.maxConcurrent)
  {
    var _ := s.AddFailures(event);
    var lost := CheckStripeDataLoss(s.failed, stripes, n, k);
    s.NoteLosses(lost, LostSet(stripes, s.failed, s.tolerance));
  }

  // The nodes of the stripes in which at least as many blocks are down as the
  // code tolerates.
  method DecideLazy(s: Scheduler, stripes: seq<Stripe>) returns (d: Decision, nodes: seq<int>)
    requires s.Valid() && UniqueIds(stripes)
    ensures d != Partial && (d == Lazy <==> nodes == [])
    ensures T.Increasing(nodes) && NoDup(nodes)
    ensures forall x :: x in nodes <==> InFull(stripes, s.failed, s.tolerance, x)
  {
    if s.failed == [] { return Lazy, []; }
    var byId := ById(stripes);
    var chosen: seq<int> := [];
    var todo := byId.Keys;
    ghost var seen: set<int> := {};
    while todo != {}
      invariant todo <= byId.Keys && seen == byId.Keys - todo && NoDup(chosen)
      invariant forall x :: x in chosen <==> x in s.failed && exists id :: id in seen && x in byId[id].placement && Full(byId[id], s.failed, s.tolerance)
      decreases |todo|
    {
      NonEmpty(todo);
      var id :| id in todo;
      todo := todo - {id};
      seen := seen + {id};
      var mine := DownIn(byId[id], s.failed);
      if |mine| >= s.tolerance { chosen := Union(chosen, mine); }
    }
    nodes := T.Sorted(chosen);
    T.SortedMembers(chosen);
    forall x ensures x in nodes <==> InFull(stripes, s.failed, s.tolerance, x) {
      if x in chosen {
        var id :| id in seen && x in byId[id].placement && Full(byId[id], s.failed, s.tolerance);
        var i :| 0 <= i < |stripes| && stripes[i].id == id && stripes[i] == byId[id];
      }
      if InFull(stripes, s.failed, s.tolerance, x) {
        var i :| 0 <= i < |stripes| && x in stripes[i].placement && Full(stripes[i], s.failed, s.tolerance);
        assert stripes[i].id in seen;
      }
    }
    d := if nodes == [] then Lazy else Immediate;
  }

  predicate Full(s: Stripe, failed: seq<int>, tolerance: int) {
    Entries(s.placement, AsSet(failed)) >= tolerance
  }

  predicate InFull(stripes: seq<Stripe>, failed: seq<int>, tolerance: int, x: int) {
    x in failed && exists i :: 0 <= i < |stripes| && x in stripes[i].placement && Full(stripes[i], failed, tolerance)
  }

  method DownIn(s: Stripe, failed: seq<int>) returns (mine: seq<int>)
    ensures |mine| == Entries(s.placement, AsSet(failed))
    ensures forall x :: x in mine <==> x in failed && x in s.placement
  {
    mine := [];
    var i := 0;
    while i < |s.placement|
      invariant 0 <= i <= |s.placement|
      invariant |mine| == Entries(s.placement[..i], AsSet(failed))
      invariant forall x :: x in mine <==> x in failed && x in s.placement[..i]
    {
      var x := s.placement[i];
      assert s.placement[..i + 1] == s.placement[..i] + [x] && s.placement[..i + 1][..i] == s.placement[..i];
      if x in failed { mine := mine + [x]; }
      i := i + 1;
    }
    assert s.placement[..|s.placement|] == s.placement;
  }

  // Which of the nodes that are down a strategy repairs: all of them, those of
  // stripes that have reached the tolerance, or those of endangered stripes.
  predicate Chosen(strategy: Strategy, stripes: seq<Stripe>, down: seq<int>, next: seq<int>, tolerance: int, x: int) {
    match strategy
    case RunImmediate => x in down
    case RunLazy => InFull(stripes, down, tolerance, x)
    case RunTraceDriven => InDanger(stripes, down, next, tolerance, x)
  }

  // Lazy repairs a stripe just when one more failure would lose it ...
  lemma FullIs(s: Stripe, failed: seq<int>, tolerance: int, x: int)
    requires NoDup(s.placement) && x in s.placement && x !in failed
    ensures Full(s, failed, tolerance) <==> Lost(s, Added(failed, [x]), tolerance)
  {
    EntriesIsHit(s.placement, failed);
    assert [x][..0] == [] && Added(failed, [x]) == failed + [x];
    assert Hit(failed + [x], s.placement) == Hit(failed, s.placement) + {x};
  }

  // ... and TraceDriven just when something of it is down and the next event
  // would lose it if nothing were repaired.
  lemma DangerIs(s: Stripe, failed: seq<int>, next: seq<int>, tolerance: int)
    requires NoDup(s.placement) && forall x :: x in next && x in s.placement ==> x !in failed
    ensures Dangerous(s, failed, next, tolerance) <==>
              (exists x :: x in s.placement && x in failed) && Lost(s, Added(failed, next), tolerance)
  {
    var pl := s.placement;
    EntriesIsHit(pl, failed);
    EntriesIsHit(pl, next);
    NoEntries(pl, AsSet(failed));
    var a, b := Hit(failed, pl), Hit(next, pl);
    assert Hit(Added(failed, next), pl) == a + b && a !! b;
  }

  lemma OneMoreHit(a: set<int>, b: set<int>, x: int, more: bool)
    requires x !in a && forall y :: y in b <==> y in a || (more && y == x)
    ensures |b| == |a| + if more then 1 else 0
  {
    if more {
      forall y ensures y in b <==> y in a + {x} { }
      assert b == a + {x};
    } else {
      forall y ensures y in b <==> y in a { }
      assert b == a;
    }
  }

  lemma {:induction false} EntriesIsHit(pl: seq<int>, failed: seq<int>)
    requires NoDup(pl)
    ensures Entries(pl, AsSet(failed)) == |Hit(failed, pl)|
  {
    if pl == [] {
      assert Hit(failed, pl) == {};
    } else {
      var n := |pl| - 1;
      EntriesIsHit(pl[..n], failed);
      assert pl[n] !in pl[..n];
      assert forall x :: x in pl <==> x in pl[..n] || x == pl[n] by { assert pl == pl[..n] + [pl[n]]; }
      OneMoreHit(Hit(failed, pl[..n]), Hit(failed, pl), pl[n], pl[n] in failed);
    }
  }

  // After an event under Lazy, no stripe has as many blocks down as the code
  // tolerates, unless none is down.
  lemma LazyLeavesRoom(stripes: seq<Stripe>, down: seq<int>, next: seq<int>, left: seq<int>, tolerance: int, k: nat)
    requires forall x :: x in left <==> x in down && !Chosen(RunLazy, stripes, down, next, tolerance, x)
    requires k < |stripes| && Entries(stripes[k].placement, AsSet(left)) > 0
    ensures Entries(stripes[k].placement, AsSet(left)) < tolerance
  {
    var pl := stripes[k].placement;
    NoEntries(pl, AsSet(left));
    var x :| x in pl && x in AsSet(left);
    assert !InFull(stripes, down, tolerance, x);
    forall i | 0 <= i < |pl| && pl[i] in AsSet(left) ensures pl[i] in AsSet(down) {
      var y := pl[i];
      assert y in left;
    }
    FewerEntries(pl, AsSet(left), AsSet(down));
  }

  // And a node is repaired only when one of its stripes had that many down.
  lemma RepairedForAFullStripe(stripes: seq<Stripe>, down: seq<int>, next: seq<int>, left: seq<int>, tolerance: int, x: int)
    requires forall y :: y in left <==> y in down && !Chosen(RunLazy, stripes, down, next, tolerance, y)
    requires x in down && x !in left
    ensures exists k :: 0 <= k < |stripes| && x in stripes[k].placement && Entries(stripes[k].placement, AsSet(down)) >= tolerance
  {
    assert InFull(stripes, down, tolerance, x);
  }

  // Under TraceDriven, a node is repaired before the end only when one of its
  // stripes has something down and would be lost at the next event.
  lemma RepairedForAStripe(stripes: seq<Stripe>, down: seq<int>, next: seq<int>, left: seq<int>, tolerance: int, x: int)
    requires forall y :: y in left <==> y in down && !Chosen(RunTraceDriven, stripes, down, next, tolerance, y)
    requires x in down && x !in left
    requires forall k :: 0 <= k < |stripes| ==> NoDup(stripes[k].placement)
    requires forall y :: y in next ==> y !in down
    ensures exists k :: 0 <= k < |stripes| && x in stripes[k].placement && Lost(stripes[k], Added(down, next), tolerance)
  {
    var k :| 0 <= k < |stripes| && x in stripes[k].placement && Dangerous(stripes[k], down, next, tolerance);
    DangerIs(stripes[k], down, next, tolerance);
  }

  // Something that was down is no longer.
  predicate Acted(down: seq<int>, left: seq<int>) { exists x :: x in down && x !in left }

  lemma ActedIs(down: seq<int>, left: seq<int>, nodes: seq<int>, repaired: seq<int>)
    requires forall x :: x in left <==> x in down && x !in nodes
    requires forall x :: x in repaired <==> x in down && x in nodes
    ensures Acted(down, left) <==> repaired != []
  {
    if repaired != [] {
      var x := repaired[0];
      assert x in repaired;
    }
  }

  // The second half of an event: decide and repair. Exactly the chosen nodes
  // are repaired, and a round is counted when there are any.
  method Repair(s: Scheduler, strategy: Strategy, stripes: seq<Stripe>, next: seq<int>)
    requires s.Valid() && UniqueIds(stripes)
    modifies s
    ensures s.Valid() && s.losses == old(s.losses) && s.daily == old(s.daily) && s.maxConcurrent == old(s.maxConcurrent)
    ensures forall x :: x in s.failed <==> x in old(s.failed) && !Chosen(strategy, stripes, old(s.failed), next, s.tolerance, x)
    ensures var d := if Acted(old(s.failed), s.failed) then 1 else 0;
      s.rounds == old(s.rounds) + d && s.partials == old(s.partials) + if strategy == RunImmediate then 0 else d
    ensures strategy == RunImmediate ==> s.failed == []
    ensures strategy != RunLazy ==> AllSafe(stripes, s.failed, next, s.tolerance)
  {
    match strategy
    case RunImmediate =>
      var d := s.DecideImmediate();
      ghost var down := s.failed;
      if d == Immediate {
        var _ := s.ExecuteFullRepair();
        ActedIs(down, s.failed, down, down);
      }
      HealthyIsSafe(stripes, next, s.tolerance);
    case RunLazy =>
      var d, nodes := DecideLazy(s, stripes);
      if d == Immediate {
        ghost var down := s.failed;
        var repaired := s.ExecutePartialRepair(nodes);
        ActedIs(down, s.failed, nodes, repaired);
      }
    case RunTraceDriven =>
      Predicted(s, stripes, next);
  }

  // The decision both TraceDriven and MLDriven take.
  method Predicted(s: Scheduler, stripes: seq<Stripe>, next: seq<int>)
    requires s.Valid() && UniqueIds(stripes)
    modifies s
    ensures s.Valid() && s.losses == old(s.losses) && s.daily == old(s.daily) && s.maxConcurrent == old(s.maxConcurrent)
    ensures AllSafe(stripes, s.failed, next, s.tolerance)
    ensures var d := if Acted(old(s.failed), s.failed) then 1 else 0; s.rounds == old(s.rounds) + d && s.partials == old(s.partials) + d
    ensures forall x :: x in s.failed <==> x in old(s.failed) && !InDanger(stripes, old(s.failed), next, s.tolerance, x)
  {
    ghost var failed := s.failed;
    var d, nodes := s.DecideTraceDrivenStripe(stripes, next);
    if d != Lazy {
      var repaired := s.ExecutePartialRepair(nodes);
      ActedIs(failed, s.failed, nodes, repaired);
    }
    RepairMakesSafe(stripes, failed, next, s.tolerance, s.failed);
  }

  lemma HealthyIsSafe(stripes: seq<Stripe>, next: seq<int>, tolerance: int)
    ensures AllSafe(stripes, [], next, tolerance)
  {
    forall i | 0 <= i < |stripes| ensures SafeWith(stripes[i], [], next, tolerance) {
      NoEntries(stripes[i].placement, AsSet([]));
    }
  }

  // The event takes out exactly the stripes it would take out alone.
  ghost predicate Harmless(stripes: seq<Stripe>, failed: seq<int>, event: seq<int>, tolerance: int) {
    LostSet(stripes, Added(failed, event), tolerance) == LostAlone(stripes, event, tolerance)
  }

  // The account before event at. While good holds, only the stripes were lost
  // that the events take out alone, and the next event will do no more.
  ghost predicate Account(losses: seq<set<int>>, failed: seq<int>, events: seq<seq<int>>, at: nat, stripes: seq<Stripe>,
                          tolerance: int, good: bool) {
    forall x: int {:trigger Look(x)} :: Look(x) ==>
      && at <= |events| && AtLeastAlone(losses, events[..at], stripes, tolerance)
      && (good ==> AsAlone(losses, events[..at], stripes, tolerance))
      && (good && at < |events| ==> Harmless(stripes, failed, events[at], tolerance))
  }

  lemma AccountStarts(failed: seq<int>, events: seq<seq<int>>, stripes: seq<Stripe>, tolerance: int, good: bool)
    requires failed == []
    ensures Account([], failed, events, 0, stripes, tolerance, good)
  {
    assert events[..0] == [];
  }

  lemma AccountTells(losses: seq<set<int>>, failed: seq<int>, events: seq<seq<int>>, at: nat, stripes: seq<Stripe>,
                     tolerance: int, good: bool)
    requires Account(losses, failed, events, at, stripes, tolerance, good) && at < |events|
    ensures AtLeastAlone(losses, events[..at], stripes, tolerance)
  {
    assert Look(0);
  }

  lemma AccountEnds(losses: seq<set<int>>, failed: seq<int>, events: seq<seq<int>>, at: nat, stripes: seq<Stripe>,
                    tolerance: int, good: bool)
    requires Account(losses, failed, events, at, stripes, tolerance, good) && at >= |events|
    ensures AtLeastAlone(losses, events, stripes, tolerance) && (good ==> AsAlone(losses, events, stripes, tolerance))
  {
    assert Look(0);
    assert events[..|events|] == events;
  }

  lemma AccountGoesOn(before: seq<set<int>>, down: seq<int>, losses: seq<set<int>>, failed: seq<int>, events: seq<seq<int>>, at: nat,
                      stripes: seq<Stripe>, tolerance: int, good: bool, still: bool)
    requires Account(before, down, events, at, stripes, tolerance, good) && at < |events| && (still ==> good)
    requires AtLeastAlone(before, events[..at], stripes, tolerance) ==> AtLeastAlone(losses, events[..at + 1], stripes, tolerance)
    requires AsAlone(before, events[..at], stripes, tolerance) && Harmless(stripes, down, events[at], tolerance) ==>
               AsAlone(losses, events[..at + 1], stripes, tolerance)
    requires still && at + 1 < |events| ==> Harmless(stripes, failed, events[at + 1], tolerance)
    ensures Account(losses, failed, events, at + 1, stripes, tolerance, still)
  {
    assert Look(0);
  }

  // ---------------------------------------------------- the books of a run

  // One event: what is down after it, what the decision looked ahead to, and
  // what is still down after the repair.
  datatype Moment = Moment(down: seq<int>, next: seq<int>, left: seq<int>)

  function LeftBy(log: seq<Moment>): seq<int> { if log == [] then [] else log[|log| - 1].left }

  function Rounds(log: seq<Moment>): nat {
    if log == [] then 0 else Rounds(log[..|log| - 1]) + if Acted(log[|log| - 1].down, log[|log| - 1].left) then 1 else 0
  }

  // Event i adds its failures to what the event before left down, and exactly
  // the nodes that the strategy chooses are repaired.
  ghost predicate MomentOk(log: seq<Moment>, events: seq<seq<int>>, i: nat, strategy: Strategy, stripes: seq<Stripe>, tolerance: int)
    requires i < |log| <= |events|
  {
    && log[i].down == Added(if i == 0 then [] else log[i - 1].left, events[i])
    && forall x :: x in log[i].left <==> x in log[i].down && !Chosen(strategy, stripes, log[i].down, log[i].next, tolerance, x)
  }

  ghost predicate Logged(log: seq<Moment>, events: seq<seq<int>>, strategy: Strategy, stripes: seq<Stripe>, tolerance: int) {
    |log| <= |events| && forall i: nat {:trigger MomentOk(log, events, i, strategy, stripes, tolerance)} ::
      i < |log| ==> MomentOk(log, events, i, strategy, stripes, tolerance)
  }

  // The scheduler's own counts are those of the log.
  ghost predicate Counted(log: seq<Moment>, events: seq<seq<int>>, stripes: seq<Stripe>, tolerance: int, partial: bool,
                          losses: seq<set<int>>, daily: seq<int>, most: int, rounds: int, partials: int) {
    && |losses| == |daily| == |log| <= |events|
    && (forall i :: 0 <= i < |log| ==> losses[i] == LostSet(stripes, log[i].down, tolerance) && daily[i] == |events[i]|)
    && (forall i :: 0 <= i < |log| ==> |log[i].down| <= most) && (most == 0 || exists i :: 0 <= i < |log| && |log[i].down| == most)
    && rounds == Rounds(log) && partials == if partial then Rounds(log) else 0
  }

  ghost predicate Books(s: Scheduler, log: seq<Moment>, events: seq<seq<int>>, at: nat, strategy: Strategy, stripes: seq<Stripe>)
    reads s
  {
    forall x: int {:trigger Look(x)} :: Look(x) ==>
      && |log| == at && s.failed == LeftBy(log) && Logged(log, events, strategy, stripes, s.tolerance)
      && Counted(log, events, stripes, s.tolerance, strategy != RunImmediate, s.losses, s.daily, s.maxConcurrent, s.rounds, s.partials)
  }

  lemma LoggedMore(log: seq<Moment>, m: Moment, events: seq<seq<int>>, strategy: Strategy, stripes: seq<Stripe>, tolerance: int)
    requires Logged(log, events, strategy, stripes, tolerance) && |log| < |events|
    requires m.down == Added(LeftBy(log), events[|log|])
    requires forall x :: x in m.left <==> x in m.down && !Chosen(strategy, stripes, m.down, m.next, tolerance, x)
    ensures Logged(log + [m], events, strategy, stripes, tolerance)
  {
    forall i: nat | i < |log + [m]| ensures MomentOk(log + [m], events, i, strategy, stripes, tolerance) {
      if i < |log| { MomentStays(log, m, events, i, strategy, stripes, tolerance); }
    }
  }

  lemma MomentStays(log: seq<Moment>, m: Moment, events: seq<seq<int>>, i: nat, strategy: Strategy, stripes: seq<Stripe>, tolerance: int)
    requires Logged(log, events, strategy, stripes, tolerance) && i < |log| < |events|
    ensures MomentOk(log + [m], events, i, strategy, stripes, tolerance)
  {
    assert MomentOk(log, events, i, strategy, stripes, tolerance);
    var l := log + [m];
    assert l[i] == log[i] && (i > 0 ==> l[i - 1] == log[i - 1]);
  }

  lemma CountedMore(log: seq<Moment>, m: Moment, events: seq<seq<int>>, stripes: seq<Stripe>, tolerance: int, partial: bool,
                    losses: seq<set<int>>, daily: seq<int>, most: int, rounds: int, partials: int)
    requires Counted(log, events, stripes, tolerance, partial, losses, daily, most, rounds, partials) && |log| < |events|
    ensures var d := if Acted(m.down, m.left) then 1 else 0;
      Counted(log + [m], events, stripes, tolerance, partial, losses + [LostSet(stripes, m.down, tolerance)], daily + [|events[|log|]|],
              if |m.down| > most then |m.down| else most, rounds + d, partials + if partial then d else 0)
  {
    var l := log + [m];
    assert l[..|log|] == log && l[|log|] == m;
    if |m.down| <= most && most != 0 {
      var i :| 0 <= i < |log| && |log[i].down| == most;
      assert |l[i].down| == most;
    }
  }

  // One event registered, in terms of the account of the whole trace.
  method TakeEvent(s: Scheduler, ghost events: seq<seq<int>>, ghost i: nat, event: seq<int>, stripes: seq<Stripe>, n: int, k: int)
    requires s.Valid() && s.tolerance == n - k && i < |events| && event == events[i]
    requires AtLeastAlone(s.losses, events[..i], stripes, s.tolerance)
    modifies s
    ensures s.Valid() && s.failed == Added(old(s.failed), event)
    ensures s.losses == old(s.losses) + [LostSet(stripes, s.failed, s.tolerance)]
    ensures s.rounds == old(s.rounds) && s.partials == old(s.partials) && s.daily == old(s.daily) + [|event|]
    ensures s.maxConcurrent == if |s.failed| > old(s.maxConcurrent) then |s.failed| else old(s.maxConcurrent)
    ensures AtLeastAlone(s.losses, events[..i + 1], stripes, s.tolerance)
    ensures AsAlone(old(s.losses), events[..i], stripes, s.tolerance) && Harmless(stripes, old(s.failed), event, s.tolerance) ==>
              AsAlone(s.losses, events[..i + 1], stripes, s.tolerance)
  {
    NeverFewer(stripes, s.failed, event, s.tolerance);
    Register(s, event, stripes, n, k);
  }

  // What one event does: the failures are registered, the decision is made
  // and carried out.
  ghost predicate Stepped(was: seq<int>, event: seq<int>, m: Moment, strategy: Strategy, stripes: seq<Stripe>, tolerance: int) {
    && m.down == Added(was, event)
    && forall x :: x in m.left <==> x in m.down && !Chosen(strategy, stripes, m.down, m.next, tolerance, x)
  }

  ghost predicate Booked(losses: seq<set<int>>, daily: seq<int>, most: int, rounds: int, partials: int, s: Scheduler, event: seq<int>,
                         m: Moment, stripes: seq<Stripe>, partial: bool)
    reads s
  {
    var d := if Acted(m.down, m.left) then 1 else 0;
    && s.losses == losses + [LostSet(stripes, m.down, s.tolerance)] && s.daily == daily + [|event|]
    && s.maxConcurrent == (if |m.down| > most then |m.down| else most)
    && s.rounds == rounds + d && s.partials == partials + if partial then d else 0
  }

  lemma BooksMore(s: Scheduler, log: seq<Moment>, m: Moment, events: seq<seq<int>>, strategy: Strategy, stripes: seq<Stripe>,
                  losses: seq<set<int>>, daily: seq<int>, most: int, rounds: int, partials: int)
    requires |log| < |events| && Logged(log, events, strategy, stripes, s.tolerance)
    requires Counted(log, events, stripes, s.tolerance, strategy != RunImmediate, losses, daily, most, rounds, partials)
    requires Stepped(LeftBy(log), events[|log|], m, strategy, stripes, s.tolerance) && s.failed == m.left
    requires Booked(losses, daily, most, rounds, partials, s, events[|log|], m, stripes, strategy != RunImmediate)
    ensures Books(s, log + [m], events, |log| + 1, strategy, stripes)
  {
    LoggedMore(log, m, events, strategy, stripes, s.tolerance);
    CountedMore(log, m, events, stripes, s.tolerance, strategy != RunImmediate, losses, daily, most, rounds, partials);
  }

  // One whole event of a strategy.
  method Turn(s: Scheduler, strategy: Strategy, ghost events: seq<seq<int>>, ghost i: nat, event: seq<int>, next: seq<int>,
              stripes: seq<Stripe>, n: int, k: int, ghost log: seq<Moment>)
    returns (ghost m: Moment)
    requires s.Valid() && s.tolerance == n - k && i < |events| && event == events[i] && UniqueIds(stripes)
    requires next == if i + 1 < |events| then events[i + 1] else []
    requires Account(s.losses, s.failed, events, i, stripes, s.tolerance, strategy != RunLazy)
    requires Books(s, log, events, i, strategy, stripes)
    modifies s
    ensures s.Valid() && Account(s.losses, s.failed, events, i + 1, stripes, s.tolerance, strategy != RunLazy)
    ensures m.next == next && Books(s, log + [m], events, i + 1, strategy, stripes)
  {
    ghost var losses, down := s.losses, s.failed;
    ghost var daily, most, rounds, partials := s.daily, s.maxConcurrent, s.rounds, s.partials;
    OpenBooks(s, log, events, i, strategy, stripes, s.tolerance);
    m := Act(s, strategy, events, i, event, next, stripes, n, k);
    BooksMore(s, log, m, events, strategy, stripes, losses, daily, most, rounds, partials);
  }

  method Act(s: Scheduler, strategy: Strategy, ghost events: seq<seq<int>>, ghost i: nat, event: seq<int>, next: seq<int>,
             stripes: seq<Stripe>, n: int, k: int)
    returns (ghost m: Moment)
    requires s.Valid() && s.tolerance == n - k && i < |events| && event == events[i] && UniqueIds(stripes)
    requires next == if i + 1 < |events| then events[i + 1] else []
    requires Account(s.losses, s.failed, events, i, stripes, s.tolerance, strategy != RunLazy)
    modifies s
    ensures s.Valid() && Account(s.losses, s.failed, events, i + 1, stripes, s.tolerance, strategy != RunLazy)
    ensures m.next == next && m.left == s.failed && Stepped(old(s.failed), event, m, strategy, stripes, s.tolerance)
    ensures Booked(old(s.losses), old(s.daily), old(s.maxConcurrent), old(s.rounds), old(s.partials), s, event, m, stripes,
                   strategy != RunImmediate)
  {
    ghost var losses, down := s.losses, s.failed;
    AccountTells(losses, down, events, i, stripes, s.tolerance, strategy != RunLazy);
    TakeEvent(s, events, i, event, stripes, n, k);
    ghost var now := s.failed;
    Repair(s, strategy, stripes, next);
    m := Moment(now, next, s.failed);
    if strategy != RunLazy { EventAloneAll(stripes, s.failed, next, next, s.tolerance); }
    AccountGoesOn(losses, down, s.losses, s.failed, events, i, stripes, s.tolerance, strategy != RunLazy, strategy != RunLazy);
  }

  lemma OpenBooks(s: Scheduler, log: seq<Moment>, events: seq<seq<int>>, at: nat, strategy: Strategy, stripes: seq<Stripe>, tolerance: int)
    requires Books(s, log, events, at, strategy, stripes) && tolerance == s.tolerance
    ensures |log| == at && s.failed == LeftBy(log) && Logged(log, events, strategy, stripes, tolerance)
    ensures Counted(log, events, stripes, tolerance, strategy != RunImmediate, s.losses, s.daily, s.maxConcurrent, s.rounds, s.partials)
  {
    assert Look(0);
  }

  // Whatever the decisions looked ahead to is the next event.
  ghost predicate Foresaw(log: seq<Moment>, events: seq<seq<int>>) {
    forall i :: 0 <= i < |log| ==> log[i].next == if i + 1 < |events| then events[i + 1] else []
  }

  // The closing repair after the last event.
  method Finish(s: Scheduler)
    requires s.Valid()
    modifies s
    ensures s.Valid() && s.failed == [] && s.rounds == old(s.rounds) + if old(s.failed) == [] then 0 else 1
    ensures s.losses == old(s.losses) && s.daily == old(s.daily) && s.maxConcurrent == old(s.maxConcurrent) && s.partials == old(s.partials)
  {
    if s.failed != [] { var _ := s.ExecuteFullRepair(); }
  }

  lemma BooksStart(s: Scheduler, events: seq<seq<int>>, strategy: Strategy, stripes: seq<Stripe>)
    requires s.failed == [] && s.losses == [] && s.daily == [] && s.maxConcurrent == 0 && s.rounds == 0 && s.partials == 0
    ensures Books(s, [], events, 0, strategy, stripes)
  {
  }

  // Looking one event ahead costs nothing in safety: over the whole trace,
  // TraceDriven loses exactly the stripes at exactly the events that
  // repairing at once does - those that a single event takes out.
  method RunOriginalStrategy(strategy: Strategy, reader: TraceReader, n: int, k: int, stripes: seq<Stripe>)
    returns (s: Scheduler, ghost log: seq<Moment>)
    requires UniqueIds(stripes)
    modifies reader
    ensures strategy != RunLazy ==> AsAlone(s.losses, reader.events, stripes, n - k)
    ensures AtLeastAlone(s.losses, reader.events, stripes, n - k)
    ensures s.lossEvents == LossEvents(s.losses) && s.lostStripes == LossCount(s.losses)
    ensures s.tolerance == n - k && s.failed == []
    ensures |log| == |reader.events| && Logged(log, reader.events, strategy, stripes, s.tolerance)
    ensures Foresaw(log, reader.events)
    ensures var last := if LeftBy(log) == [] then 0 else 1;
      Counted(log, reader.events, stripes, s.tolerance, strategy != RunImmediate, s.losses, s.daily, s.maxConcurrent, s.rounds - last, s.partials)
  {
    s := new Scheduler(n, k);
    reader.Reset();
    log := RunEvents(s, strategy, reader, n, k, stripes);
    AccountEnds(s.losses, s.failed, reader.events, reader.at, stripes, s.tolerance, strategy != RunLazy);
    OpenBooks(s, log, reader.events, |reader.events|, strategy, stripes, s.tolerance);
    Finish(s);
  }

  method RunEvents(s: Scheduler, strategy: Strategy, reader: TraceReader, n: int, k: int, stripes: seq<Stripe>)
    returns (ghost log: seq<Moment>)
    requires UniqueIds(stripes) && s.Valid() && s.tolerance == n - k && reader.at == 0
    requires s.failed == [] && s.losses == [] && s.daily == [] && s.maxConcurrent == 0 && s.rounds == 0 && s.partials == 0
    modifies s, reader
    ensures s.Valid() && reader.at >= |reader.events|
    ensures Account(s.losses, s.failed, reader.events, reader.at, stripes, s.tolerance, strategy != RunLazy)
    ensures Books(s, log, reader.events, |reader.events|, strategy, stripes) && Foresaw(log, reader.events)
  {
    log := [];
    BooksStart(s, reader.events, strategy, stripes);
    ghost var good := strategy != RunLazy;
    AccountStarts(s.failed, reader.events, stripes, s.tolerance, good);
    while reader.HasCurrentEvent()
      invariant s.Valid() && reader.at <= |reader.events|
      invariant Account(s.losses, s.failed, reader.events, reader.at, stripes, s.tolerance, good)
      invariant Books(s, log, reader.events, reader.at, strategy, stripes) && |log| == reader.at
      invariant Foresaw(log, reader.events)
      decreases |reader.events| - reader.at
    {
      var event, next := reader.CurrentEvent(), reader.PeekNextEvent();
      ghost var m := Turn(s, strategy, reader.events, reader.at, event, next, stripes, n, k, log);
      log := log + [m];
      reader.Advance();
    }
  }

  // src/MLPredictor.hh: a predictor that may miss and may raise false alarms.
  class Predictor {
    const pool: seq<int>
    const canMiss: bool
    const canAlarm: bool
    var hits: nat
    var misses: nat
    var alarms: nat
    var quiets: nat

    constructor (nodes: seq<int>, fnr: bool, fpr: bool)
      ensures pool == nodes && canMiss == fnr && canAlarm == fpr
      ensures hits == 0 && misses == 0 && alarms == 0 && quiets == 0
    {
      pool, canMiss, canAlarm := nodes, fnr, fpr;
      hits, misses, alarms, quiets := 0, 0, 0, 0;
    }

    // All judgements so far.
    function Total(): nat
      reads this
    {
      hits + misses + alarms + quiets
    }

    // Nodes that are down already are not predicted.  Whatever the dice say,
    // the counters tell how far the prediction is from the truth.
    method PredictNextFailures(truth: seq<int>, current: seq<int>) returns (predicted: seq<int>)
      modifies this
      ensures forall x :: x in predicted ==> x in pool && x !in current
      ensures misses >= old(misses) && alarms >= old(alarms)
      ensures misses == old(misses) ==> forall x :: x in pool && x in truth && x !in current ==> x in predicted
      ensures alarms == old(alarms) ==> forall x :: x in predicted ==> x in truth
      ensures !canMiss ==> misses == old(misses)
      ensures !canAlarm ==> alarms == old(alarms)
      ensures Total() == old(Total()) + Healthy(pool, current)
      ensures |predicted| == hits - old(hits) + alarms - old(alarms)
      ensures hits - old(hits) == Coming(predicted, [], truth)
      ensures hits + misses - old(hits + misses) == Coming(pool, current, truth)
    {
      predicted := [];
      var i := 0;
      while i < |pool|
        invariant 0 <= i <= |pool| && misses >= old(misses) && alarms >= old(alarms)
        invariant forall x :: x in predicted ==> x in pool[..i] && x !in current
        invariant misses == old(misses) ==> forall x :: x in pool[..i] && x in truth && x !in current ==> x in predicted
        invariant alarms == old(alarms) ==> forall x :: x in predicted ==> x in truth
        invariant !canMiss ==> misses == old(misses)
        invariant !canAlarm ==> alarms == old(alarms)
        invariant Total() == old(Total()) + Healthy(pool[..i], current)
        invariant |predicted| == hits - old(hits) + alarms - old(alarms)
        invariant hits - old(hits) == Coming(predicted, [], truth)
        invariant hits + misses - old(hits + misses) == Coming(pool[..i], current, truth)
      {
        var x := pool[i];
        assert pool[..i + 1] == pool[..i] + [x] && pool[..i + 1][..i] == pool[..i];
        i := i + 1;
        if x in current { continue; }
        assert (predicted + [x])[..|predicted|] == predicted;
        var says := Judge(x in truth);
        if says { predicted := predicted + [x]; }
      }
      assert pool[..|pool|] == pool;
    }

    // The dice, and the one counter that is raised.
    method Judge(fails: bool) returns (says: bool)
      modifies this
      ensures (fails && !canMiss ==> says) && (!fails && !canAlarm ==> !says)
      ensures hits == old(hits) + if fails && says then 1 else 0
      ensures misses == old(misses) + if fails && !says then 1 else 0
      ensures alarms == old(alarms) + if !fails && says then 1 else 0
      ensures quiets == old(quiets) + if !fails && !says then 1 else 0
    {
      var unlucky: bool := *;
      if fails {
        if canMiss && unlucky { says, misses := false, misses + 1; } else { says, hits := true, hits + 1; }
      } else {
        if canAlarm && unlucky { says, alarms := true, alarms + 1; } else { says, quiets := false, quiets + 1; }
      }
    }
  }

  // The entries of a list that are not down and fail next.
  function Coming(list: seq<int>, current: seq<int>, truth: seq<int>): nat {
    if list == [] then 0
    else
      var x := list[|list| - 1];
      Coming(list[..|list| - 1], current, truth) + if x !in current && x in truth then 1 else 0
  }

  // The entries of the pool that are not down.
  function Healthy(pool: seq<int>, current: seq<int>): nat {
    if pool == [] then 0 else Healthy(pool[..|pool| - 1], current) + if pool[|pool| - 1] in current then 0 else 1
  }

  predicate AllPooled(trace: seq<seq<int>>, pool: seq<int>) {
    forall i, x :: 0 <= i < |trace| && x in trace[i] ==> x in pool
  }

  // What was predicted at each event: healthy nodes of the pool; all of the
  // pool that fail next, if nothing was missed; nothing else, if there was no
  // false alarm.
  ghost predicate GuessOk(log: seq<Moment>, events: seq<seq<int>>, i: nat, pool: seq<int>, noMiss: bool, noAlarm: bool)
    requires i < |log|
  {
    var truth := if i + 1 < |events| then events[i + 1] else [];
    && (forall x :: x in log[i].next ==> x in pool && x !in log[i].down)
    && (noMiss ==> forall x :: x in pool && x in truth && x !in log[i].down ==> x in log[i].next)
    && (noAlarm ==> forall x :: x in log[i].next ==> x in truth)
  }

  ghost predicate Guessed(log: seq<Moment>, events: seq<seq<int>>, pool: seq<int>, noMiss: bool, noAlarm: bool) {
    forall i: nat {:trigger GuessOk(log, events, i, pool, noMiss, noAlarm)} :: i < |log| ==> GuessOk(log, events, i, pool, noMiss, noAlarm)
  }

  lemma GuessedMore(log: seq<Moment>, m: Moment, events: seq<seq<int>>, pool: seq<int>, noMiss: bool, noAlarm: bool,
                    stillNoMiss: bool, stillNoAlarm: bool)
    requires Guessed(log, events, pool, noMiss, noAlarm) && (stillNoMiss ==> noMiss) && (stillNoAlarm ==> noAlarm)
    requires GuessOk(log + [m], events, |log|, pool, stillNoMiss, stillNoAlarm)
    ensures Guessed(log + [m], events, pool, stillNoMiss, stillNoAlarm)
  {
    forall i: nat | i < |log + [m]| ensures GuessOk(log + [m], events, i, pool, stillNoMiss, stillNoAlarm) {
      if i < |log| { assert GuessOk(log, events, i, pool, noMiss, noAlarm); }
    }
  }

  // Every healthy node of the pool is judged at every event.
  function Judged(log: seq<Moment>, pool: seq<int>): nat {
    if log == [] then 0 else Judged(log[..|log| - 1], pool) + Healthy(pool, log[|log| - 1].down)
  }

  // One whole event with a predictor.
  method GuessTurn(s: Scheduler, ghost events: seq<seq<int>>, ghost i: nat, event: seq<int>, next: seq<int>,
                   stripes: seq<Stripe>, n: int, k: int, predictor: Predictor, ghost log: seq<Moment>)
    returns (ghost m: Moment)
    requires s.Valid() && s.tolerance == n - k && i < |events| && event == events[i] && UniqueIds(stripes)
    requires next == if i + 1 < |events| then events[i + 1] else []
    requires Account(s.losses, s.failed, events, i, stripes, s.tolerance, predictor.misses == 0 && AllPooled(events, predictor.pool))
    requires Books(s, log, events, i, RunTraceDriven, stripes)
    requires Guessed(log, events, predictor.pool, predictor.misses == 0, predictor.alarms == 0)
    requires predictor.Total() == Judged(log, predictor.pool)
    modifies s, predictor
    ensures s.Valid()
    ensures Account(s.losses, s.failed, events, i + 1, stripes, s.tolerance, predictor.misses == 0 && AllPooled(events, predictor.pool))
    ensures Books(s, log + [m], events, i + 1, RunTraceDriven, stripes)
    ensures Guessed(log + [m], events, predictor.pool, predictor.misses == 0, predictor.alarms == 0)
    ensures predictor.Total() == Judged(log + [m], predictor.pool)
    ensures !predictor.canMiss ==> predictor.misses == old(predictor.misses)
    ensures !predictor.canAlarm ==> predictor.alarms == old(predictor.alarms)
  {
    ghost var losses := s.losses;
    ghost var daily, most, rounds, partials := s.daily, s.maxConcurrent, s.rounds, s.partials;
    ghost var noMiss, noAlarm := predictor.misses == 0, predictor.alarms == 0;
    OpenBooks(s, log, events, i, RunTraceDriven, stripes, s.tolerance);
    m := GuessAct(s, events, i, event, next, stripes, n, k, predictor);
    BooksMore(s, log, m, events, RunTraceDriven, stripes, losses, daily, most, rounds, partials);
    assert (log + [m])[..|log|] == log;
    GuessedMore(log, m, events, predictor.pool, noMiss, noAlarm, predictor.misses == 0, predictor.alarms == 0);
  }

  method GuessAct(s: Scheduler, ghost events: seq<seq<int>>, ghost i: nat, event: seq<int>, next: seq<int>,
                  stripes: seq<Stripe>, n: int, k: int, predictor: Predictor)
    returns (ghost m: Moment)
    requires s.Valid() && s.tolerance == n - k && i < |events| && event == events[i] && UniqueIds(stripes)
    requires next == if i + 1 < |events| then events[i + 1] else []
    requires Account(s.losses, s.failed, events, i, stripes, s.tolerance, predictor.misses == 0 && AllPooled(events, predictor.pool))
    modifies s, predictor
    ensures s.Valid()
    ensures Account(s.losses, s.failed, events, i + 1, stripes, s.tolerance, predictor.misses == 0 && AllPooled(events, predictor.pool))
    ensures m.left == s.failed && Stepped(old(s.failed), event, m, RunTraceDriven, stripes, s.tolerance)
    ensures Booked(old(s.losses), old(s.daily), old(s.maxConcurrent), old(s.rounds), old(s.partials), s, event, m, stripes, true)
    ensures forall x :: x in m.next ==> x in predictor.pool && x !in m.down
    ensures predictor.misses == 0 ==> forall x :: x in predictor.pool && x in next && x !in m.down ==> x in m.next
    ensures predictor.alarms == 0 ==> forall x :: x in m.next ==> x in next
    ensures predictor.misses >= old(predictor.misses) && (!predictor.canMiss ==> predictor.misses == old(predictor.misses))
    ensures predictor.alarms >= old(predictor.alarms) && (!predictor.canAlarm ==> predictor.alarms == old(predictor.alarms))
    ensures predictor.Total() == old(predictor.Total()) + Healthy(predictor.pool, m.down)
  {
    ghost var losses, was := s.losses, s.failed;
    ghost var good := predictor.misses == 0 && AllPooled(events, predictor.pool);
    AccountTells(losses, was, events, i, stripes, s.tolerance, good);
    TakeEvent(s, events, i, event, stripes, n, k);
    ghost var down := s.failed;
    ghost var before := predictor.misses;
    var guess := predictor.PredictNextFailures(next, s.failed);
    Predicted(s, stripes, guess);
    m := Moment(down, guess, s.failed);
    if predictor.misses == before && AllPooled(events, predictor.pool) {
      GuessIsHarmless(stripes, down, s.failed, next, guess, predictor.pool, s.tolerance);
    }
    AccountGoesOn(losses, was, s.losses, s.failed, events, i, stripes, s.tolerance, good,
                  predictor.misses == 0 && AllPooled(events, predictor.pool));
  }

  // With a predictor in place of the trace: as long as it never missed a
  // node, the same stripes are lost at the same events, whatever false alarms
  // it raised; and with any predictor those are lost.
  method RunMLDriven(reader: TraceReader, n: int, k: int, stripes: seq<Stripe>, predictor: Predictor)
    returns (s: Scheduler, ghost log: seq<Moment>)
    requires UniqueIds(stripes) && predictor.Total() == 0
    modifies reader, predictor
    ensures predictor.misses == 0 && AllPooled(reader.events, predictor.pool) ==>
              AsAlone(s.losses, reader.events, stripes, n - k)
    ensures AtLeastAlone(s.losses, reader.events, stripes, n - k)
    ensures s.lossEvents == LossEvents(s.losses) && s.lostStripes == LossCount(s.losses)
    ensures s.tolerance == n - k && s.failed == []
    ensures |log| == |reader.events| && Logged(log, reader.events, RunTraceDriven, stripes, s.tolerance)
    ensures Guessed(log, reader.events, predictor.pool, predictor.misses == 0, predictor.alarms == 0)
    ensures var last := if LeftBy(log) == [] then 0 else 1;
      Counted(log, reader.events, stripes, s.tolerance, true, s.losses, s.daily, s.maxConcurrent, s.rounds - last, s.partials)
    ensures predictor.Total() == Judged(log, predictor.pool)
    ensures (!predictor.canMiss ==> predictor.misses == 0) && (!predictor.canAlarm ==> predictor.alarms == 0)
  {
    s := new Scheduler(n, k);
    reader.Reset();
    log := GuessEvents(s, reader, n, k, stripes, predictor);
    AccountEnds(s.losses, s.failed, reader.events, reader.at, stripes, s.tolerance,
                predictor.misses == 0 && AllPooled(reader.events, predictor.pool));
    OpenBooks(s, log, reader.events, |reader.events|, RunTraceDriven, stripes, s.tolerance);
    Finish(s);
  }

  method GuessEvents(s: Scheduler, reader: TraceReader, n: int, k: int, stripes: seq<Stripe>, predictor: Predictor)
    returns (ghost log: seq<Moment>)
    requires UniqueIds(stripes) && s.Valid() && s.tolerance == n - k && reader.at == 0 && predictor.Total() == 0
    requires s.failed == [] && s.losses == [] && s.daily == [] && s.maxConcurrent == 0 && s.rounds == 0 && s.partials == 0
    modifies s, reader, predictor
    ensures s.Valid() && reader.at >= |reader.events|
    ensures Account(s.losses, s.failed, reader.events, reader.at, stripes, s.tolerance,
                    predictor.misses == 0 && AllPooled(reader.events, predictor.pool))
    ensures Books(s, log, reader.events, |reader.events|, RunTraceDriven, stripes)
    ensures Guessed(log, reader.events, predictor.pool, predictor.misses == 0, predictor.alarms == 0)
    ensures predictor.Total() == Judged(log, predictor.pool)
    ensures (!predictor.canMiss ==> predictor.misses == 0) && (!predictor.canAlarm ==> predictor.alarms == 0)
  {
    log := [];
    BooksStart(s, reader.events, RunTraceDriven, stripes);
    AccountStarts(s.failed, reader.events, stripes, s.tolerance, AllPooled(reader.events, predictor.pool));
    while reader.HasCurrentEvent()
      invariant s.Valid() && reader.at <= |reader.events|
      invariant Account(s.losses, s.failed, reader.events, reader.at, stripes, s.tolerance,
                        predictor.misses == 0 && AllPooled(reader.events, predictor.pool))
      invariant Books(s, log, reader.events, reader.at, RunTraceDriven, stripes) && |log| == reader.at
      invariant Guessed(log, reader.events, predictor.pool, predictor.misses == 0, predictor.alarms == 0)
      invariant predictor.Total() == Judged(log, predictor.pool)
      invariant (!predictor.canMiss ==> predictor.misses == 0) && (!predictor.canAlarm ==> predictor.alarms == 0)
      decreases |reader.events| - reader.at
    {
      var event, next := reader.CurrentEvent(), reader.PeekNextEvent();
      ghost var m := GuessTurn(s, reader.events, reader.at, event, next, stripes, n, k, predictor, log);
      log := log + [m];
      reader.Advance();
    }
  }

  // A prediction is made while down is down, and some of those nodes are then
  // repaired and may fail again unpredicted; it still covers the event.
  lemma StripeHarmless(s: Stripe, down: seq<int>, left: seq<int>, event: seq<int>, guess: seq<int>, tolerance: int)
    requires forall x :: x in left ==> x in down
    requires Dangerous(s, down, guess, tolerance) ==> forall x :: x in s.placement ==> x !in left
    requires Foreseen(s, down, event, guess)
    ensures Lost(s, Added(left, event), tolerance) <==> Lost(s, Added([], event), tolerance)
  {
    var pl := s.placement;
    HitBySets(left, event, pl);
    Smaller(Hit(Added([], event), pl), Hit(Added(left, event), pl));
    if Dangerous(s, down, guess, tolerance) {
      NothingDown(s, left, event);
    } else if Entries(pl, AsSet(down)) == 0 {
      NoEntries(pl, AsSet(down));
      forall x | x in pl ensures x !in left { assert x !in AsSet(down); }
      NothingDown(s, left, event);
    } else {
      WithinEntries(s, down, event, guess);
      MoreDown(pl, left, down, event);
    }
  }

  lemma MoreDown(pl: seq<int>, left: seq<int>, down: seq<int>, event: seq<int>)
    requires forall x :: x in left ==> x in down
    ensures |Hit(Added(left, event), pl)| <= |Hit(Added(down, event), pl)|
  {
    Fewer(Hit(Added(left, event), pl), Hit(Added(down, event), pl));
  }

  lemma AllHarmless(stripes: seq<Stripe>, down: seq<int>, left: seq<int>, event: seq<int>, guess: seq<int>, tolerance: int)
    requires forall x :: x in left ==> x in down
    requires forall i :: 0 <= i < |stripes| && Dangerous(stripes[i], down, guess, tolerance) ==>
               forall x :: x in stripes[i].placement ==> x !in left
    requires forall i :: 0 <= i < |stripes| ==> Foreseen(stripes[i], down, event, guess)
    ensures Harmless(stripes, left, event, tolerance)
  {
    forall i | 0 <= i < |stripes|
      ensures Lost(stripes[i], Added(left, event), tolerance) <==> Lost(stripes[i], Added([], event), tolerance)
    {
      StripeHarmless(stripes[i], down, left, event, guess, tolerance);
    }
  }

  lemma GuessIsHarmless(stripes: seq<Stripe>, down: seq<int>, left: seq<int>, event: seq<int>, guess: seq<int>,
                        pool: seq<int>, tolerance: int)
    requires forall x :: x in left <==> x in down && !InDanger(stripes, down, guess, tolerance, x)
    requires forall x :: x in event ==> x in pool
    requires forall x :: x in pool && x in event && x !in down ==> x in guess
    ensures Harmless(stripes, left, event, tolerance)
  {
    forall i, x | 0 <= i < |stripes| && Dangerous(stripes[i], down, guess, tolerance) && x in stripes[i].placement
      ensures x !in left
    {
      if x in down { assert InDanger(stripes, down, guess, tolerance, x); }
    }
    AllHarmless(stripes, down, left, event, guess, tolerance);
  }
}
