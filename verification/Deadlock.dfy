// The other half of progress: a node that needs one sub-packet on two levels
// never finishes, whatever the scheduler does.
module Deadlock {
  import opened Util
  import opened GF
  import opened Dag
  import opened EcDag
  import opened Tasks
  import N = Network
  import opened Programs
  import opened Wiring
  import opened Sites
  import opened Execution

  // ------------------------------------------------ pushes minus pops is left

  function Net1(op: N.Op, q: N.Queue): int {
    match op
    case Push(p, _) => if p == q then 1 else 0
    case Pop(p, _) => if p == q then -1 else 0
    case _ => 0
  }

  // What a line adds to queue q per packet.
  function Gain(ops: seq<N.Op>, q: N.Queue): int {
    if ops == [] then 0 else Gain(ops[..|ops| - 1], q) + Net1(ops[|ops| - 1], q)
  }

  // What a thread has added so far.
  function Given(prog: seq<N.Op>, th: N.Thread, q: N.Queue): int
    requires th.pc <= |prog|
  {
    th.pkt * Gain(prog, q) + Gain(prog[..th.pc], q)
  }

  ghost predicate Ranged(net: N.Net, s: N.State) {
    |s.th| == |net.progs| && forall t :: 0 <= t < |s.th| ==> s.th[t].pc <= |net.progs[t]|
  }

  function Sum(net: N.Net, s: N.State, q: N.Queue, n: nat): int
    requires n <= |s.th| && |s.th| == |net.progs| && forall t :: 0 <= t < |s.th| ==> s.th[t].pc <= |net.progs[t]|
  {
    if n == 0 then 0 else Sum(net, s, q, n - 1) + Given(net.progs[n - 1], s.th[n - 1], q)
  }

  lemma GivenStep(net: N.Net, prog: seq<N.Op>, th: N.Thread, x: Byte, q: N.Queue)
    requires th.pc < |prog|
    ensures var a := N.Advance(net, prog, th, x);
      a.pc <= |prog| && Given(prog, a, q) == Given(prog, th, q) + Net1(prog[th.pc], q)
  {
    var a := N.Advance(net, prog, th, x);
    assert prog[..th.pc + 1][..th.pc] == prog[..th.pc];
    if th.pc + 1 == |prog| {
      assert prog[..th.pc + 1] == prog && prog[..0] == [];
      assert (th.pkt + 1) * Gain(prog, q) == th.pkt * Gain(prog, q) + Gain(prog, q);
    }
  }

  lemma {:induction false} SumStep(net: N.Net, s: N.State, t: nat, q: N.Queue, n: nat)
    requires Ranged(net, s) && N.Enabled(net, s, t) && n <= |s.th|
    ensures Ranged(net, N.Step(net, s, t))
    ensures Sum(net, N.Step(net, s, t), q, n) == Sum(net, s, q, n) + if t < n then Net1(N.Next(net, s, t), q) else 0
  {
    GivenStep(net, net.progs[t], s.th[t], N.Popped(net, s, t), q);
    if n > 0 { SumStep(net, s, t, q, n - 1); }
  }

  lemma {:induction false} FreshSum(net: N.Net, s: N.State, q: N.Queue, n: nat)
    requires Ranged(net, s) && n <= |s.th| && forall t :: 0 <= t < |s.th| ==> s.th[t].pkt == 0 && s.th[t].pc == 0
    ensures Sum(net, s, q, n) == 0
  {
    if n > 0 {
      FreshSum(net, s, q, n - 1);
      assert net.progs[n - 1][..0] == [];
    }
  }

  // In every state of every run, a queue holds what was pushed minus what was
  // popped.
  lemma {:induction false} RunBalance(net: N.Net, queues: set<N.Queue>, ss: seq<N.State>, who: seq<nat>, q: N.Queue, i: nat)
    requires N.Run(net, queues, ss, who) && i < |ss| && q in queues
    ensures Ranged(net, ss[i]) && q in ss[i].q && Sum(net, ss[i], q, |net.progs|) == |ss[i].q[q]|
  {
    if i == 0 {
      FreshSum(net, ss[0], q, |net.progs|);
    } else {
      RunBalance(net, queues, ss, who, q, i - 1);
      SumStep(net, ss[i - 1], who[i - 1], q, |net.progs|);
    }
  }

  // All threads finished: every line was executed once per packet.
  lemma {:induction false} FinishedSum(net: N.Net, s: N.State, q: N.Queue, n: nat)
    requires Ranged(net, s) && n <= |s.th|
    requires forall t :: 0 <= t < |s.th| && net.progs[t] != [] ==> s.th[t].pkt == net.pktnum && s.th[t].pc == 0
    ensures Sum(net, s, q, n) == net.pktnum * Gains(net.progs, q, n)
  {
    if n > 0 {
      FinishedSum(net, s, q, n - 1);
      var prog := net.progs[n - 1];
      assert prog[..0] == [];
      assert Given(prog, s.th[n - 1], q) == net.pktnum * Gain(prog, q) by {
        if prog == [] { assert prog[..s.th[n - 1].pc] == []; }
      }
      assert net.pktnum * (Gains(net.progs, q, n - 1) + Gain(prog, q))
          == net.pktnum * Gains(net.progs, q, n - 1) + net.pktnum * Gain(prog, q);
    }
  }

  function Gains(progs: seq<seq<N.Op>>, q: N.Queue, n: nat): int
    requires n <= |progs|
  {
    if n == 0 then 0 else Gains(progs, q, n - 1) + Gain(progs[n - 1], q)
  }

  ghost predicate Completed(net: N.Net, s: N.State) {
    |s.th| == |net.progs| && forall t :: 0 <= t < |s.th| && net.progs[t] != [] ==> s.th[t].pkt == net.pktnum && s.th[t].pc == 0
  }

  // A queue that is drained more often than it is filled keeps every run from
  // completing.
  lemma OverdrawnNeverCompletes(net: N.Net, queues: set<N.Queue>, ss: seq<N.State>, who: seq<nat>, q: N.Queue)
    requires N.Run(net, queues, ss, who) && q in queues && net.pktnum > 0 && Gains(net.progs, q, |net.progs|) < 0
    ensures !Completed(net, ss[|who|])
  {
    RunBalance(net, queues, ss, who, q, |who|);
    if Completed(net, ss[|who|]) {
      FinishedSum(net, ss[|who|], q, |net.progs|);
      Negative(net.pktnum, Gains(net.progs, q, |net.progs|));
    }
  }

  lemma Negative(a: int, b: int)
    requires a > 0 && b < 0
    ensures a * b < 0
  {
  }

  // ---------------------------------------------------------- fine lines, again

  lemma {:induction false} GainOfFine(ops: seq<N.Op>, q: N.Queue)
    requires Fine(ops)
    ensures Gain(ops, q) == (if q in Pushes(ops) then 1 else 0) - (if q in Pops(ops) then 1 else 0)
  {
    if ops != [] { GainOfFine(ops[..|ops| - 1], q); }
  }

  // One line pushes q at most, and two lines pop it.
  lemma {:induction false} GainsBound(progs: seq<seq<N.Op>>, q: N.Queue, src: int, a: int, b: int, n: nat)
    requires EachFine(progs) && n <= |progs| && a != b
    requires forall t :: 0 <= t < |progs| && q in Pushes(progs[t]) ==> t == src
    requires forall t :: 0 <= t < |progs| && (t == a || t == b) ==> q in Pops(progs[t])
    ensures Gains(progs, q, n) <= (if 0 <= src < n then 1 else 0) - (if 0 <= a < n then 1 else 0) - (if 0 <= b < n then 1 else 0)
  {
    if n > 0 {
      GainsBound(progs, q, src, a, b, n - 1);
      GainOfFine(progs[n - 1], q);
    }
  }

  // ------------------------------------------------------------- the compiler

  // The task that uses v for p takes it from the queue of its node.
  lemma UserPops(j: Job, level: map<int, nat>, v: int, p: int, key: Key)
    requires Sane(j, level) && Laid(j, level) && Present(j, key)
    requires p in j.g && v in j.g && v in j.g[p].children && j.col[p] != -1 && key == UseKey(j, level, p, j.col[p])
    ensures N.Local(j.col[p], v) in Pops(Line(j, key))
  {
    ChildBelow(j, level, p, v);
    if level[p] == Top(j) { RootPops(j, level, v, p, key); } else { CalcPops(j, level, v, p, key); }
  }

  lemma RootPops(j: Job, level: map<int, nat>, v: int, p: int, key: Key)
    requires Sane(j, level) && p in j.g && v in j.g[p].children && level[p] == Top(j)
    requires Present(j, key) && key == KRoot(p)
    ensures N.Local(j.col[p], v) in Pops(Line(j, key))
  {
    RootInputsOk(j, level, p);
    PersistOpsFacts(j.col[p], j.g[p].children);
  }

  lemma CalcPops(j: Job, level: map<int, nat>, v: int, p: int, key: Key)
    requires Sane(j, level) && Laid(j, level) && p in j.g && v in j.g[p].children && 0 < level[p] < Top(j) && j.col[p] != -1
    requires Present(j, key) && key == KWork(KCalc, level[p], j.col[p])
    ensures N.Local(j.col[p], v) in Pops(Line(j, key))
  {
    var c, l := j.col[p], level[p];
    assert WorkOk(j, level, KCalc, l, c);
    var s := Work(j, KCalc, l, c);
    assert p in s;
    ComputePops(j, level, l, c, s, v);
    LineIsOpsFor(j, key);
  }

  lemma UsePresent(j: Job, level: map<int, nat>, p: int)
    requires Sane(j, level) && Laid(j, level) && p in j.g && j.g[p].children != [] && j.col[p] != -1
    ensures Present(j, UseKey(j, level, p, j.col[p])) && level[p] > 0
  {
    ChildBelow(j, level, p, j.g[p].children[0]);
    if level[p] < Top(j) { InWork(j, level, KCalc, level[p], j.col[p], p); }
  }

  lemma ComputePops(j: Job, level: map<int, nat>, l: nat, c: int, s: seq<int>, v: int)
    requires Sane(j, level) && 0 < l < Top(j) && Works(j, level, KCalc, l, c, s) && InGraph(j, s) && NoDup(s) && IdsOk(s)
    requires exists p :: p in s && p in j.g && v in j.g[p].children
    ensures N.Local(c, v) in Pops(ComputeOps(c, Items(j, s)))
  {
    ItemLists(j, s);
    InputsOk(j, level, s);
    ComputeOpsFacts(c, Items(j, s));
    ItemSources(j, s, v);
  }

  lemma OnePusher(j: Job, level: map<int, nat>, keys: seq<Key>, q: N.Queue, t: nat)
    requires Sane(j, level) && Laid(j, level) && Complete(j, keys) && Carried(j, level, q) && t < |keys|
    requires q in Pushes(Line(j, keys[t]))
    ensures t == IndexOf(keys, SrcKey(j, level, q))
  {
    Site(j, level, keys[t]);
  }

  lemma PopperAt(j: Job, level: map<int, nat>, keys: seq<Key>, v: int, p: int) returns (t: nat)
    requires Sane(j, level) && Laid(j, level) && Complete(j, keys)
    requires p in j.g && v in j.g && v in j.g[p].children && j.col[p] != -1
    ensures t < |keys| && keys[t] == UseKey(j, level, p, j.col[p]) && N.Local(j.col[p], v) in Pops(Lines(j, keys)[t])
  {
    var key := UseKey(j, level, p, j.col[p]);
    UsePresent(j, level, p);
    assert key in keys;
    t := IndexOf(keys, key);
    UserPops(j, level, v, p, key);
  }

  lemma Overdrawn(j: Job, level: map<int, nat>, keys: seq<Key>, v: int, a: int, b: int)
    requires Sane(j, level) && Laid(j, level) && Complete(j, keys)
    requires v in j.g && UsersMeet(j, v, a, b) && TwoUses(j, level, a, b)
    ensures var q, progs := N.Local(j.col[a], v), Lines(j, keys);
      q in AllPushes(progs) && Gains(progs, q, |progs|) < 0
  {
    var q, progs := N.Local(j.col[a], v), Lines(j, keys);
    CarriedHere(j, level, v, a);
    QueuesAre(j, level, keys, q);
    RepairFine(j, level, keys);
    var ta := PopperAt(j, level, keys, v, a);
    var tb := PopperAt(j, level, keys, v, b);
    var src := IndexOf(keys, SrcKey(j, level, q));
    forall t | 0 <= t < |progs| && q in Pushes(progs[t]) ensures t == src { OnePusher(j, level, keys, q, t); }
    GainsBound(progs, q, src, ta, tb, |progs|);
  }

  // If two uses of v on one node fall on two levels (or on two roots), no run
  // completes: the value is pushed once per packet and popped twice.
  lemma TwoLevelsNeverComplete(j: Job, level: map<int, nat>, keys: seq<Key>, net: N.Net, ss: seq<N.State>, who: seq<nat>,
                               v: int, a: int, b: int)
    requires Compilable(j, level) && Compiled(j, keys, net) && net.pktnum > 0
    requires v in j.g && UsersMeet(j, v, a, b) && TwoUses(j, level, a, b)
    requires N.Run(net, AllPushes(net.progs), ss, who)
    ensures !Completed(net, ss[|who|])
  {
    CompilableIsSane(j, level);
    CompilableIsLaid(j, level);
    Overdrawn(j, level, keys, v, a, b);
    OverdrawnNeverCompletes(net, AllPushes(net.progs), ss, who, N.Local(j.col[a], v));
  }

  // The one-level condition is exact: a run of a compiled repair that cannot go
  // on has completed if and only if the condition holds.
  lemma CompletesIffShared(j: Job, level: map<int, nat>, keys: seq<Key>, net: N.Net, val: nat -> int -> Byte,
                           ss: seq<N.State>, who: seq<nat>)
    requires Compilable(j, level) && Compiled(j, keys, net) && Central(j, net, val) && net.pktnum > 0
    requires N.Run(net, AllPushes(net.progs), ss, who)
    requires forall t: nat :: !N.Enabled(net, ss[|who|], t)
    ensures Completed(net, ss[|who|]) <==> SharedOk(j, level)
  {
    if SharedOk(j, level) {
      SharedCompletes(j, level, keys, net, val, ss, who);
    } else {
      var v, a, b :| v in j.g && UsersMeet(j, v, a, b) && TwoUses(j, level, a, b);
      TwoLevelsNeverComplete(j, level, keys, net, ss, who, v, a, b);
    }
  }

  lemma SharedCompletes(j: Job, level: map<int, nat>, keys: seq<Key>, net: N.Net, val: nat -> int -> Byte,
                        ss: seq<N.State>, who: seq<nat>)
    requires Planned(j, level) && Compiled(j, keys, net) && Central(j, net, val)
    requires N.Run(net, AllPushes(net.progs), ss, who)
    requires forall t: nat :: !N.Enabled(net, ss[|who|], t)
    ensures Completed(net, ss[|who|])
  {
    RepairIsConnected(j, level, keys, net, val);
    var ports, s := RepairPorts(j, level, keys), ss[|who|];
    N.RunInv(net, ports, Phases(j, keys), val, ss, who, |who|);
    N.StuckMeansDone(net, ports, Phases(j, keys), val, ss, who);
    forall t | 0 <= t < |s.th| && net.progs[t] != [] ensures s.th[t].pkt == net.pktnum && s.th[t].pc == 0 {
      assert N.ThreadOk(net, val, net.progs[t], s.th[t]);
      assert !N.Running(net, s, t);
      N.FinishedOutput(net, val, net.progs[t], s.th[t]);
    }
  }

  lemma CarriedHere(j: Job, level: map<int, nat>, v: int, a: int)
    requires Sane(j, level) && v in j.g && a in j.g && v in j.g[a].children && j.col[a] != -1
    ensures Carried(j, level, N.Local(j.col[a], v))
  {
    ChildBelow(j, level, a, v);
    assert VertexOk(j, level, v);
    UsedBy(j, v, j.col[a]);
    KeysApart(j.col[a], v, v);
  }
}
