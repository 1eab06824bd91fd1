// Compiling a coloured DAG into tasks and running them on all nodes at once
// computes what evaluating the DAG in one place computes.
module Execution {
  import opened Util
  import opened GF
  import opened Dag
  import opened EcDag
  import opened Tasks
  import N = Network
  import opened Programs
  import opened Wiring
  import opened Sites

  // A missing block counts as zeros.
  function LeafOf(j: Job, disk: int -> Byte): int -> Byte
    requires j.w > 0
  {
    v => if v / j.w < j.n then disk(v) else 0
  }

  // val(p) is the central evaluation of packet p.
  ghost predicate Central(j: Job, net: N.Net, val: nat -> int -> Byte)
    requires j.w > 0
  {
    IsField(net.f) && forall p: nat :: Evaluates(net.f, j.g, LeafOf(j, net.disk(p)), val(p))
  }

  // ------------------------------------------------- operations mean values

  ghost predicate LineMeans(net: N.Net, val: nat -> int -> Byte, ops: seq<N.Op>) {
    forall i :: 0 <= i < |ops| ==> N.OpMeans(net, val, ops[i])
  }

  ghost predicate ReadsMean(net: N.Net, val: nat -> int -> Byte, list: seq<int>) {
    forall i :: 0 <= i < |list| ==> N.OpMeans(net, val, N.Read(list[i]))
  }

  lemma {:induction false} ReadMeans(net: N.Net, val: nat -> int -> Byte, c: int, list: seq<int>, usage: seq<(bool, bool)>)
    requires |list| == |usage| && ReadsMean(net, val, list)
    ensures LineMeans(net, val, ReadOps(c, list, usage))
  {
    if list != [] { ReadMeans(net, val, c, list[..|list| - 1], usage[..|list| - 1]); }
  }

  lemma {:induction false} ZeroMeans(net: N.Net, val: nat -> int -> Byte, c: int, list: seq<int>)
    requires forall i :: 0 <= i < |list| ==> N.OpMeans(net, val, N.Zero(list[i]))
    ensures LineMeans(net, val, ZeroOps(c, list))
  {
    if list != [] { ZeroMeans(net, val, c, list[..|list| - 1]); }
  }

  lemma {:induction false} FanOutMeans(net: N.Net, val: nat -> int -> Byte, ops: seq<N.Op>, v: int, dests: seq<int>)
    requires LineMeans(net, val, ops)
    ensures LineMeans(net, val, FanOut(ops, v, dests))
  {
    if dests != [] { FanOutMeans(net, val, ops, v, dests[..|dests| - 1]); }
  }

  lemma {:induction false} SendMeans(net: N.Net, val: nat -> int -> Byte, c: int, list: seq<int>, dests: seq<seq<int>>)
    requires |list| == |dests|
    ensures LineMeans(net, val, SendOps(c, list, dests))
  {
    if list != [] {
      var n := |list| - 1;
      SendMeans(net, val, c, list[..n], dests[..n]);
      FanOutMeans(net, val, SendOps(c, list[..n], dests[..n]) + [N.Pop(N.Local(c, Cache(list[n])), list[n])], list[n], dests[n]);
    }
  }

  lemma {:induction false} RecvMeans(net: N.Net, val: nat -> int -> Byte, c: int, list: seq<int>)
    ensures LineMeans(net, val, RecvOps(c, list))
  {
    if list != [] { RecvMeans(net, val, c, list[..|list| - 1]); }
  }

  lemma {:induction false} PopAllMeans(net: N.Net, val: nat -> int -> Byte, c: int, vs: seq<int>)
    ensures LineMeans(net, val, PopAll(c, vs))
  {
    if vs != [] { PopAllMeans(net, val, c, vs[..|vs| - 1]); }
  }

  lemma {:induction false} ItemMeans(net: N.Net, val: nat -> int -> Byte, pre: seq<N.Op>, c: int, items: seq<Item>)
    requires LineMeans(net, val, pre)
    requires forall i :: 0 <= i < |items| ==> N.OpMeans(net, val, N.Calc(items[i].dst, items[i].coefs, items[i].srcs))
    ensures LineMeans(net, val, ItemOps(pre, c, items))
  {
    if items != [] { ItemMeans(net, val, pre, c, items[..|items| - 1]); }
  }

  lemma {:induction false} PersistMeans(net: N.Net, val: nat -> int -> Byte, c: int, list: seq<int>)
    ensures LineMeans(net, val, PersistOps(c, list))
  {
    if list != [] { PersistMeans(net, val, c, list[..|list| - 1]); }
  }

  // ------------------------------------------------------ the tasks mean values

  // What has no node is zero in every packet.
  lemma {:induction false} ColorlessIsZero(j: Job, level: map<int, nat>, net: N.Net, val: nat -> int -> Byte, v: int, p: nat)
    requires Sane(j, level) && Central(j, net, val) && v in j.g && j.col[v] == -1
    requires IsLevelMap(j.g, level)
    ensures val(p)(v) == 0
    decreases level[v]
  {
    assert VertexOk(j, level, v) && OneAbove(j.g, level, v);
    var cs := j.g[v].children;
    forall i | 0 <= i < |cs| ensures val(p)(cs[i]) == 0 {
      var c := cs[i];
      assert c in cs;
      ColorlessIsZero(j, level, net, val, c, p);
    }
    CombOfZeros(net.f, j.g[v].coefs, cs, val(p));
  }

  lemma LeafMeans(j: Job, level: map<int, nat>, net: N.Net, val: nat -> int -> Byte, v: int)
    requires Sane(j, level) && Central(j, net, val) && v in j.g && level[v] == 0 && IsLevelMap(j.g, level)
    ensures v / j.w < j.n ==> N.OpMeans(net, val, N.Read(v))
  {
    assert OneAbove(j.g, level, v);
  }

  lemma InnerMeans(j: Job, level: map<int, nat>, net: N.Net, val: nat -> int -> Byte, v: int)
    requires Sane(j, level) && Central(j, net, val) && v in j.g && level[v] > 0 && IsLevelMap(j.g, level)
    ensures N.OpMeans(net, val, N.Calc(v, j.g[v].coefs, j.g[v].children))
  {
    assert OneAbove(j.g, level, v);
  }

  lemma ReadLineMeans(j: Job, level: map<int, nat>, net: N.Net, val: nat -> int -> Byte, key: Key)
    requires Sane(j, level) && Laid(j, level) && Central(j, net, val) && IsLevelMap(j.g, level)
    requires Present(j, key) && key.KRead?
    ensures LineMeans(net, val, Line(j, key))
  {
    var list := ReadList(j, key.b);
    assert ReadOk(j, level, key.b);
    forall i | 0 <= i < |list| ensures N.OpMeans(net, val, N.Read(list[i])) {
      var v := list[i];
      assert v in list;
      LeafMeans(j, level, net, val, v);
    }
    ReadMeans(net, val, NodeAt(j, key), list, Usages(j, list));
  }

  lemma ZeroListMeans(j: Job, level: map<int, nat>, net: N.Net, val: nat -> int -> Byte, l: nat, c: int, list: seq<int>)
    requires Sane(j, level) && Central(j, net, val) && IsLevelMap(j.g, level)
    requires l < Top(j) && Works(j, level, KZero, l, c, list)
    ensures LineMeans(net, val, ZeroOps(c, list))
  {
    forall i | 0 <= i < |list| ensures N.OpMeans(net, val, N.Zero(list[i])) {
      var v := list[i];
      assert v in list;
      ActiveColor(j, level, v);
      forall p: nat ensures val(p)(v) == 0 { ColorlessIsZero(j, level, net, val, v, p); }
    }
    ZeroMeans(net, val, c, list);
  }

  lemma CalcListMeans(j: Job, level: map<int, nat>, net: N.Net, val: nat -> int -> Byte, l: nat, c: int, list: seq<int>)
    requires Sane(j, level) && Central(j, net, val) && IsLevelMap(j.g, level)
    requires l < Top(j) && Works(j, level, KCalc, l, c, list) && InGraph(j, list)
    ensures LineMeans(net, val, ComputeOps(c, Items(j, list)))
  {
    var items := Items(j, list);
    forall i | 0 <= i < |items| ensures N.OpMeans(net, val, N.Calc(items[i].dst, items[i].coefs, items[i].srcs)) {
      var v := list[i];
      assert v in list;
      InnerMeans(j, level, net, val, v);
    }
    PopAllMeans(net, val, c, Inputs(items));
    ItemMeans(net, val, PopAll(c, Inputs(items)), c, items);
  }

  lemma WorkLineMeans(j: Job, level: map<int, nat>, net: N.Net, val: nat -> int -> Byte, key: Key)
    requires Sane(j, level) && Laid(j, level) && Central(j, net, val) && IsLevelMap(j.g, level)
    requires Present(j, key) && key.KWork?
    ensures LineMeans(net, val, Line(j, key))
  {
    assert WorkOk(j, level, key.k, key.l, key.c);
    var list := Work(j, key.k, key.l, key.c);
    LineIsOpsFor(j, key);
    match key.k
    case KZero => ZeroListMeans(j, level, net, val, key.l, key.c, list);
    case KCalc => CalcListMeans(j, level, net, val, key.l, key.c, list);
    case KSend => SendMeans(net, val, key.c, list, Destinations(j, list));
    case KRecv => RecvMeans(net, val, key.c, list);
  }

  lemma RootLineMeans(j: Job, net: N.Net, val: nat -> int -> Byte, key: Key)
    requires Closed(j) && Present(j, key) && key.KRoot?
    ensures LineMeans(net, val, Line(j, key))
  {
    PersistMeans(net, val, j.col[key.r], j.g[key.r].children);
  }

  lemma AnyLineMeans(j: Job, level: map<int, nat>, net: N.Net, val: nat -> int -> Byte, key: Key)
    requires Sane(j, level) && Laid(j, level) && Central(j, net, val) && IsLevelMap(j.g, level)
    requires Present(j, key)
    ensures LineMeans(net, val, Line(j, key))
  {
    if key.KRead? { ReadLineMeans(j, level, net, val, key); }
    else if key.KWork? { WorkLineMeans(j, level, net, val, key); }
    else { RootLineMeans(j, net, val, key); }
  }

  // --------------------------------------------------------- all the threads

  function Lines(j: Job, keys: seq<Key>): (r: seq<seq<N.Op>>)
    requires Closed(j) && forall i :: 0 <= i < |keys| ==> Present(j, keys[i])
    ensures |r| == |keys| && forall t :: 0 <= t < |keys| ==> r[t] == Line(j, keys[t])
  {
    seq(|keys|, t requires 0 <= t < |keys| => Line(j, keys[t]))
  }

  function Phases(j: Job, keys: seq<Key>): (r: seq<nat>)
    requires |j.levels| > 0
    ensures |r| == |keys| && forall t :: 0 <= t < |keys| ==> r[t] == PhaseOf(j, keys[t])
  {
    seq(|keys|, t requires 0 <= t < |keys| => PhaseOf(j, keys[t]) as nat)
  }

  function AllPushes(progs: seq<seq<N.Op>>): (r: set<N.Queue>)
    ensures forall q :: q in r <==> exists t :: 0 <= t < |progs| && q in Pushes(progs[t])
  {
    if progs == [] then {}
    else
      var n := |progs| - 1;
      assert forall t :: 0 <= t < n ==> progs[..n][t] == progs[t];
      AllPushes(progs[..n]) + Pushes(progs[n])
  }

  function IndexOf(keys: seq<Key>, key: Key): (t: nat)
    ensures key in keys ==> t < |keys| && keys[t] == key
  {
    if keys == [] then 0
    else if keys[|keys| - 1] == key then |keys| - 1
    else IndexOf(keys[..|keys| - 1], key)
  }

  ghost function SrcOf(j: Job, level: map<int, nat>, keys: seq<Key>): N.Queue -> nat
    requires Sane(j, level)
  {
    q => if Carried(j, level, q) then IndexOf(keys, SrcKey(j, level, q)) else 0
  }

  ghost function DstOf(j: Job, level: map<int, nat>, keys: seq<Key>): N.Queue -> nat
    requires Sane(j, level)
  {
    q => if Carried(j, level, q) then IndexOf(keys, DstKey(j, level, q)) else 0
  }

  // The queues that the lines push are exactly the ones a repair needs.
  lemma QueuesAre(j: Job, level: map<int, nat>, keys: seq<Key>, q: N.Queue)
    requires Sane(j, level) && Laid(j, level) && Complete(j, keys)
    ensures q in AllPushes(Lines(j, keys)) <==> Carried(j, level, q)
  {
    var progs := Lines(j, keys);
    if q in AllPushes(progs) {
      var t :| 0 <= t < |progs| && q in Pushes(progs[t]);
      Site(j, level, keys[t]);
    }
    if Carried(j, level, q) {
      EndsPresent(j, level, q);
      var key := SrcKey(j, level, q);
      assert key in keys;
      Site(j, level, key);
      assert q in Pushes(progs[IndexOf(keys, key)]);
    }
  }

  lemma QueueEnds(j: Job, level: map<int, nat>, keys: seq<Key>, q: N.Queue)
    requires Sane(j, level) && Laid(j, level) && Complete(j, keys) && Carried(j, level, q)
    ensures var s, d := SrcOf(j, level, keys)(q), DstOf(j, level, keys)(q);
      && s < |keys| && d < |keys| && keys[s] == SrcKey(j, level, q) && keys[d] == DstKey(j, level, q)
      && Phases(j, keys)[s] < Phases(j, keys)[d]
  {
    EndsPresent(j, level, q);
    assert SrcKey(j, level, q) in keys && DstKey(j, level, q) in keys;
    PhasesRise(j, level, q);
  }

  lemma LineEnds(j: Job, level: map<int, nat>, keys: seq<Key>, t: nat, q: N.Queue)
    requires Sane(j, level) && SharedOk(j, level) && Laid(j, level) && Complete(j, keys) && t < |keys|
    ensures q in Pushes(Line(j, keys[t])) <==> Carried(j, level, q) && SrcOf(j, level, keys)(q) == t
    ensures q in Pops(Line(j, keys[t])) <==> Carried(j, level, q) && DstOf(j, level, keys)(q) == t
  {
    Site(j, level, keys[t]);
    if Carried(j, level, q) { QueueEnds(j, level, keys, q); }
  }

  lemma RepairRises(j: Job, level: map<int, nat>, keys: seq<Key>)
    requires Sane(j, level) && Laid(j, level) && Complete(j, keys)
    ensures Rising(AllPushes(Lines(j, keys)), SrcOf(j, level, keys), DstOf(j, level, keys), Phases(j, keys), |keys|)
  {
    forall q | q in AllPushes(Lines(j, keys))
      ensures SrcOf(j, level, keys)(q) < |keys| && DstOf(j, level, keys)(q) < |keys|
      ensures Phases(j, keys)[SrcOf(j, level, keys)(q)] < Phases(j, keys)[DstOf(j, level, keys)(q)]
    {
      QueuesAre(j, level, keys, q);
      QueueEnds(j, level, keys, q);
    }
  }

  lemma RepairFine(j: Job, level: map<int, nat>, keys: seq<Key>)
    requires Sane(j, level) && Laid(j, level) && Complete(j, keys)
    ensures EachFine(Lines(j, keys))
  {
    forall t | 0 <= t < |keys| ensures Fine(Lines(j, keys)[t]) { Site(j, level, keys[t]); }
  }

  lemma LinePushHere(j: Job, level: map<int, nat>, keys: seq<Key>, t: nat, q: N.Queue)
    requires Sane(j, level) && SharedOk(j, level) && Laid(j, level) && Complete(j, keys) && t < |keys|
    ensures PushHere(Lines(j, keys), AllPushes(Lines(j, keys)), SrcOf(j, level, keys), t, q)
  {
    QueuesAre(j, level, keys, q);
    LineEnds(j, level, keys, t, q);
  }

  lemma LinePopHere(j: Job, level: map<int, nat>, keys: seq<Key>, t: nat, q: N.Queue)
    requires Sane(j, level) && SharedOk(j, level) && Laid(j, level) && Complete(j, keys) && t < |keys|
    ensures PopHere(Lines(j, keys), AllPushes(Lines(j, keys)), DstOf(j, level, keys), t, q)
  {
    QueuesAre(j, level, keys, q);
    LineEnds(j, level, keys, t, q);
  }

  // Every queue is filled by one task and drained by one task of a later phase.
  lemma RepairIsWired(j: Job, level: map<int, nat>, keys: seq<Key>)
    requires Sane(j, level) && SharedOk(j, level) && Laid(j, level) && Complete(j, keys)
    ensures Wired(Lines(j, keys), AllPushes(Lines(j, keys)), SrcOf(j, level, keys), DstOf(j, level, keys), Phases(j, keys))
  {
    RepairFine(j, level, keys);
    RepairRises(j, level, keys);
    var progs, queues := Lines(j, keys), AllPushes(Lines(j, keys));
    forall t, q | 0 <= t < |progs| ensures PushHere(progs, queues, SrcOf(j, level, keys), t, q) {
      LinePushHere(j, level, keys, t, q);
    }
    forall t, q | 0 <= t < |progs| ensures PopHere(progs, queues, DstOf(j, level, keys), t, q) {
      LinePopHere(j, level, keys, t, q);
    }
  }

  ghost predicate Compiled(j: Job, keys: seq<Key>, net: N.Net)
    requires Closed(j)
  {
    Complete(j, keys) && net.progs == Lines(j, keys)
  }

  ghost function RepairPorts(j: Job, level: map<int, nat>, keys: seq<Key>): N.Ports
    requires Sane(j, level) && SharedOk(j, level) && Laid(j, level) && Complete(j, keys)
  {
    RepairIsWired(j, level, keys);
    PortsOf(Lines(j, keys), AllPushes(Lines(j, keys)), SrcOf(j, level, keys), DstOf(j, level, keys), Phases(j, keys))
  }

  lemma RepairIsConnected(j: Job, level: map<int, nat>, keys: seq<Key>, net: N.Net, val: nat -> int -> Byte)
    requires Planned(j, level) && Compiled(j, keys, net) && Central(j, net, val)
    ensures Sane(j, level) && SharedOk(j, level) && Laid(j, level)
    ensures var ports := RepairPorts(j, level, keys);
      ports.Keys == AllPushes(net.progs) && N.WellConnected(net, ports, Phases(j, keys), val)
  {
    CompilableIsSane(j, level);
    CompilableIsLaid(j, level);
    RepairIsWired(j, level, keys);
    forall t, i | 0 <= t < |net.progs| && 0 <= i < |net.progs[t]| ensures N.OpMeans(net, val, net.progs[t][i]) {
      AnyLineMeans(j, level, net, val, keys[t]);
    }
    WiredIsConnected(net, AllPushes(net.progs), SrcOf(j, level, keys), DstOf(j, level, keys), Phases(j, keys), val);
  }

  // ------------------------------------------------------------ the theorems

  // What the repair of root r has to write: packet after packet, the lost
  // sub-packets of the block, with the values central evaluation gives them.
  function Repaired(list: seq<int>, val: nat -> int -> Byte, n: nat): seq<Byte> {
    if n == 0 then [] else Repaired(list, val, n - 1) + Values(list, val(n - 1))
  }

  // Byte i of packet p, in a file of n packets.
  lemma {:induction false} RepairedAt(list: seq<int>, val: nat -> int -> Byte, n: nat, p: nat, i: nat)
    requires p < n && i < |list|
    ensures |Repaired(list, val, n)| == n * |list|
    ensures 0 <= p * |list| + i < n * |list| && Repaired(list, val, n)[p * |list| + i] == val(p)(list[i])
  {
    var k := |list|;
    RepairedLength(list, val, n - 1);
    assert n * k == (n - 1) * k + k;
    if p < n - 1 { RepairedAt(list, val, n - 1, p, i); }
  }

  lemma {:induction false} RepairedLength(list: seq<int>, val: nat -> int -> Byte, n: nat)
    ensures |Repaired(list, val, n)| == n * |list|
  {
    if n > 0 {
      RepairedLength(list, val, n - 1);
      assert n * |list| == (n - 1) * |list| + |list|;
    }
  }

  lemma {:induction false} PersistOutput(c: int, list: seq<int>, val: nat -> int -> Byte, n: nat)
    ensures N.Output(PersistOps(c, list), val, n) == Repaired(list, val, n)
  {
    if n > 0 {
      PersistOutput(c, list, val, n - 1);
      PersistEmits(c, list, val(n - 1));
    }
  }

  // Whatever the scheduler does: the run is no longer than the work, and when
  // no thread can move, every thread has finished, every queue is empty and
  // the file of every root holds the repaired block.
  lemma RepairIsCorrect(j: Job, level: map<int, nat>, keys: seq<Key>, net: N.Net, val: nat -> int -> Byte,
                        ss: seq<N.State>, who: seq<nat>)
    requires Planned(j, level) && Compiled(j, keys, net) && Central(j, net, val)
    requires N.Run(net, AllPushes(net.progs), ss, who)
    ensures |ss[0].th| == |net.progs| && |who| <= N.Work(net, ss[0], |net.progs|)
    ensures (forall t: nat :: !N.Enabled(net, ss[|who|], t)) ==>
      var s := ss[|who|];
      && |s.th| == |keys|
      && (forall t :: 0 <= t < |keys| ==> !N.Running(net, s, t))
      && (forall q :: q in s.q ==> s.q[q] == [])
      && (forall t :: 0 <= t < |keys| && keys[t].KRoot? && keys[t].r in j.g ==>
            s.th[t].out == Repaired(j.g[keys[t].r].children, val, net.pktnum))
  {
    RepairIsConnected(j, level, keys, net, val);
    var ports := RepairPorts(j, level, keys);
    N.RunsAreBounded(net, ports, Phases(j, keys), val, ss, who);
    if forall t: nat :: !N.Enabled(net, ss[|who|], t) {
      N.StuckMeansDone(net, ports, Phases(j, keys), val, ss, who);
      forall t | 0 <= t < |keys| && keys[t].KRoot? && keys[t].r in j.g
        ensures ss[|who|].th[t].out == Repaired(j.g[keys[t].r].children, val, net.pktnum)
      {
        RootLineIs(j, keys, t);
        PersistOutput(j.col[keys[t].r], j.g[keys[t].r].children, val, net.pktnum);
      }
    }
  }

  lemma RootLineIs(j: Job, keys: seq<Key>, t: nat)
    requires Closed(j) && Complete(j, keys) && t < |keys| && keys[t].KRoot?
    ensures keys[t].r in j.g && Lines(j, keys)[t] == PersistOps(j.col[keys[t].r], j.g[keys[t].r].children)
  {
    assert Present(j, keys[t]);
  }

  // No interleaving deadlocks: after any prefix of any run, if some thread is
  // unfinished then some thread can take a step.
  lemma RepairNeverDeadlocks(j: Job, level: map<int, nat>, keys: seq<Key>, net: N.Net, val: nat -> int -> Byte,
                             ss: seq<N.State>, who: seq<nat>, t: nat)
    requires Planned(j, level) && Compiled(j, keys, net) && Central(j, net, val)
    requires N.Run(net, AllPushes(net.progs), ss, who) && N.Running(net, ss[|who|], t)
    ensures exists m: nat :: N.Enabled(net, ss[|who|], m)
  {
    RepairIsConnected(j, level, keys, net, val);
    var ports := RepairPorts(j, level, keys);
    N.RunInv(net, ports, Phases(j, keys), val, ss, who, |who|);
    var m := N.NoDeadlock(net, ports, Phases(j, keys), val, ss[|who|], t);
  }
}
