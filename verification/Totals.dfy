// The messages of the generated tasks against the counters of the colouring:
// node by node, what the tasks send and receive is what evaluateColoring
// counted.
module Totals {
  import opened Util
  import opened Dag
  import opened EcDag
  import opened Tasks
  import opened Sites
  import T = StripeTraffic

  // Messages that the send task of node c at level l emits per packet.
  function SendCount(j: Job, l: nat, c: int): nat
    requires Closed(j) && l < |j.levels|
  {
    Fan(Destinations(j, Work(j, KSend, l, c)))
  }

  function Fan(dests: seq<seq<int>>): nat {
    if dests == [] then 0 else Fan(dests[..|dests| - 1]) + |dests[|dests| - 1]|
  }

  function RecvCount(j: Job, l: nat, c: int): nat
    requires Closed(j) && l < |j.levels|
  {
    |Work(j, KRecv, l, c)|
  }

  // ... summed over the levels below top.
  function Sends(j: Job, c: int, top: nat): nat
    requires Closed(j) && top <= |j.levels|
  {
    if top == 0 then 0 else Sends(j, c, top - 1) + SendCount(j, top - 1, c)
  }

  function Recvs(j: Job, c: int, top: nat): nat
    requires Closed(j) && top <= |j.levels|
  {
    if top == 0 then 0 else Recvs(j, c, top - 1) + RecvCount(j, top - 1, c)
  }

  // ------------------------------------------------------------ lists as sets

  ghost function FlowsTo(v: int, c: int, ds: seq<int>): (r: set<T.Flow>)
    ensures forall t :: t in r <==> t.v == v && t.from == c && t.to in ds
  {
    set d | d in ds :: T.Flow(v, c, d)
  }

  lemma {:induction false} FlowsToAll(v: int, c: int, ds: seq<int>)
    requires NoDup(ds)
    ensures |FlowsTo(v, c, ds)| == |ds|
  {
    if ds == [] {
      assert FlowsTo(v, c, ds) == {};
    } else {
      var n := |ds| - 1;
      FlowsToAll(v, c, ds[..n]);
      OneFlowMore(v, c, ds[..n], ds[n]);
      assert ds == ds[..n] + [ds[n]];
    }
  }

  lemma OneFlowMore(v: int, c: int, ds: seq<int>, d: int)
    requires NoDup(ds + [d])
    ensures |FlowsTo(v, c, ds + [d])| == |FlowsTo(v, c, ds)| + 1
  {
    var s := ds + [d];
    assert forall i :: 0 <= i < |ds| ==> s[i] == ds[i] && s[i] != s[|ds|];
    assert FlowsTo(v, c, s) == FlowsTo(v, c, ds) + {T.Flow(v, c, d)};
  }

  // v is in the list and d among its destinations.
  predicate Reaches(list: seq<int>, dests: seq<seq<int>>, v: int, d: int)
    requires |list| == |dests|
  {
    exists i :: 0 <= i < |list| && list[i] == v && d in dests[i]
  }

  lemma ReachesStep(list: seq<int>, dests: seq<seq<int>>, v: int, d: int)
    requires |list| == |dests| && list != []
    ensures var n := |list| - 1;
      Reaches(list, dests, v, d) <==> Reaches(list[..n], dests[..n], v, d) || (v == list[n] && d in dests[n])
  {
    var n := |list| - 1;
    if Reaches(list[..n], dests[..n], v, d) {
      var i :| 0 <= i < n && list[..n][i] == v && d in dests[..n][i];
      assert list[i] == v && d in dests[i];
    }
    if i :| 0 <= i < |list| && list[i] == v && d in dests[i] {
      if i < n { assert list[..n][i] == v && d in dests[..n][i]; }
    }
  }

  ghost function FlowsOf(list: seq<int>, c: int, dests: seq<seq<int>>): (r: set<T.Flow>)
    requires |list| == |dests|
    ensures forall t :: t in r <==> t.from == c && Reaches(list, dests, t.v, t.to)
  {
    if list == [] then {}
    else
      var n := |list| - 1;
      assert forall v, d {:trigger Reaches(list, dests, v, d)} ::
          Reaches(list, dests, v, d) <==> Reaches(list[..n], dests[..n], v, d) || (v == list[n] && d in dests[n]) by {
        forall v, d ensures Reaches(list, dests, v, d) <==>
          Reaches(list[..n], dests[..n], v, d) || (v == list[n] && d in dests[n]) { ReachesStep(list, dests, v, d); }
      }
      FlowsOf(list[..n], c, dests[..n]) + FlowsTo(list[n], c, dests[n])
  }

  lemma {:induction false} FlowsOfCount(list: seq<int>, c: int, dests: seq<seq<int>>)
    requires |list| == |dests| && NoDup(list) && forall i :: 0 <= i < |dests| ==> NoDup(dests[i])
    ensures |FlowsOf(list, c, dests)| == Fan(dests)
  {
    if list != [] {
      var n := |list| - 1;
      FlowsOfCount(list[..n], c, dests[..n]);
      FlowsToAll(list[n], c, dests[n]);
      FlowsApart(list, c, dests);
      DisjointUnion(FlowsOf(list[..n], c, dests[..n]), FlowsTo(list[n], c, dests[n]));
    }
  }

  lemma FlowsApart(list: seq<int>, c: int, dests: seq<seq<int>>)
    requires |list| == |dests| && list != [] && NoDup(list)
    ensures var n := |list| - 1;
      forall t :: t in FlowsOf(list[..n], c, dests[..n]) ==> t !in FlowsTo(list[n], c, dests[n])
  {
    var n := |list| - 1;
    forall t | t in FlowsOf(list[..n], c, dests[..n]) ensures t !in FlowsTo(list[n], c, dests[n]) {
      var i :| 0 <= i < n && list[..n][i] == t.v && t.to in dests[..n][i];
    }
  }

  lemma DisjointUnion(a: set<T.Flow>, b: set<T.Flow>)
    requires forall t :: t in a ==> t !in b
    ensures |a + b| == |a| + |b|
  {
    assert a * b == {};
  }

  lemma OneMoreFlow(list: seq<int>, col: map<int, int>, c: int)
    requires list != [] && NoDup(list) && forall i :: 0 <= i < |list| ==> list[i] in col
    ensures var n := |list| - 1; var t := T.Flow(list[n], col[list[n]], c);
      t !in FlowsInto(list[..n], col, c) && FlowsInto(list, col, c) == FlowsInto(list[..n], col, c) + {t}
  {
    var n := |list| - 1;
    assert list == list[..n] + [list[n]] && list[n] !in list[..n];
  }

  lemma {:induction false} FlowsFrom(list: seq<int>, col: map<int, int>, c: int)
    requires NoDup(list) && forall i :: 0 <= i < |list| ==> list[i] in col
    ensures |FlowsInto(list, col, c)| == |list|
  {
    var s := FlowsInto(list, col, c);
    if list == [] {
      assert s == {};
    } else {
      var n := |list| - 1;
      FlowsFrom(list[..n], col, c);
      OneMoreFlow(list, col, c);
    }
  }

  // -------------------------------------------------------------- level by level

  // What the colouring counts is what is active and remote in the plan.
  lemma SentIsRemote(j: Job, level: map<int, nat>, t: T.Flow)
    requires Sane(j, level) && T.Painted(j.g, j.col)
    ensures T.Sent(j.g, j.col, t) <==>
              t.v in j.g && t.from == j.col[t.v] && Active(j, level[t.v], t.v) && t.to in Remote(j, t.v)
  {
    if t.v in j.g {
      ActiveColor(j, level, t.v);
      T.ParentsPainted(j.g, j.col, t.v);
      assert t.to in Users(j, t.v) <==> t.to in T.ParentColors(j.g, j.col, t.v);
      if Active(j, level[t.v], t.v) && UsedAt(j, t.v, t.to) { ActiveUse(j, level, t.v, t.to); }
    }
  }

  // What is sent has a parent, so it is not on the top level.
  lemma RemoteBelowTop(j: Job, level: map<int, nat>, v: int, d: int)
    requires Sane(j, level) && v in j.g && d in Remote(j, v)
    ensures level[v] < Top(j)
  {
    UsedBy(j, v, d);
    var p :| p in j.g && v in j.g[p].children && j.col[p] == d;
    ChildBelow(j, level, p, v);
  }

  // The flows of all that start below a level.
  ghost function OutBelow(all: set<T.Flow>, level: map<int, nat>, c: int, top: int): set<T.Flow> {
    set t | t in all && t.from == c && t.v in level && level[t.v] < top
  }

  ghost function InBelow(all: set<T.Flow>, level: map<int, nat>, c: int, top: int): set<T.Flow> {
    set t | t in all && t.to == c && t.v in level && level[t.v] < top
  }

  lemma OutSplit(all: set<T.Flow>, level: map<int, nat>, c: int, l: nat, here: set<T.Flow>)
    requires forall t :: t in here <==> t in all && t.from == c && t.v in level && level[t.v] == l
    ensures |OutBelow(all, level, c, l + 1)| == |OutBelow(all, level, c, l)| + |here|
  {
    assert OutBelow(all, level, c, l + 1) == OutBelow(all, level, c, l) + here;
    assert OutBelow(all, level, c, l) * here == {};
  }

  lemma InSplit(all: set<T.Flow>, level: map<int, nat>, c: int, l: nat, here: set<T.Flow>)
    requires forall t :: t in here <==> t in all && t.to == c && t.v in level && level[t.v] == l
    ensures |InBelow(all, level, c, l + 1)| == |InBelow(all, level, c, l)| + |here|
  {
    assert InBelow(all, level, c, l + 1) == InBelow(all, level, c, l) + here;
    assert InBelow(all, level, c, l) * here == {};
  }

  lemma NothingBelowZero(all: set<T.Flow>, level: map<int, nat>, c: int)
    ensures |OutBelow(all, level, c, 0)| == 0 && |InBelow(all, level, c, 0)| == 0
  {
    assert OutBelow(all, level, c, 0) == {} && InBelow(all, level, c, 0) == {};
  }

  ghost predicate StepOut(j: Job, all: set<T.Flow>, level: map<int, nat>, c: int, l: nat)
    requires Closed(j) && l < |j.levels|
  {
    |OutBelow(all, level, c, l + 1)| == |OutBelow(all, level, c, l)| + SendCount(j, l, c)
  }

  ghost predicate StepIn(j: Job, all: set<T.Flow>, level: map<int, nat>, c: int, l: nat)
    requires Closed(j) && l < |j.levels|
  {
    |InBelow(all, level, c, l + 1)| == |InBelow(all, level, c, l)| + RecvCount(j, l, c)
  }

  lemma {:induction false} SendsCount(j: Job, all: set<T.Flow>, level: map<int, nat>, c: int, top: nat)
    requires Closed(j) && top <= |j.levels|
    requires forall l: nat {:trigger StepOut(j, all, level, c, l)} :: l < top ==> StepOut(j, all, level, c, l)
    ensures Sends(j, c, top) == |OutBelow(all, level, c, top)|
  {
    if top == 0 {
      NothingBelowZero(all, level, c);
    } else {
      SendsCount(j, all, level, c, top - 1);
      assert StepOut(j, all, level, c, top - 1);
    }
  }

  lemma {:induction false} RecvsCount(j: Job, all: set<T.Flow>, level: map<int, nat>, c: int, top: nat)
    requires Closed(j) && top <= |j.levels|
    requires forall l: nat {:trigger StepIn(j, all, level, c, l)} :: l < top ==> StepIn(j, all, level, c, l)
    ensures Recvs(j, c, top) == |InBelow(all, level, c, top)|
  {
    if top == 0 {
      NothingBelowZero(all, level, c);
    } else {
      RecvsCount(j, all, level, c, top - 1);
      assert StepIn(j, all, level, c, top - 1);
    }
  }

  lemma OneLevelReceived(j: Job, level: map<int, nat>, c: int, l: nat)
    requires Sane(j, level) && Laid(j, level) && T.Painted(j.g, j.col) && l < Top(j)
    ensures StepIn(j, T.Transfers(j.g, j.col), level, c, l)
  {
    var list := Work(j, KRecv, l, c);
    assert WorkOk(j, level, KRecv, l, c);
    RecvsHere(j, level, l, c, list);
    InSplit(T.Transfers(j.g, j.col), level, c, l, FlowsInto(list, j.col, c));
  }

  lemma OneLevelSent(j: Job, level: map<int, nat>, c: int, l: nat)
    requires Sane(j, level) && Laid(j, level) && T.Painted(j.g, j.col) && l < Top(j)
    ensures StepOut(j, T.Transfers(j.g, j.col), level, c, l)
  {
    var list := Work(j, KSend, l, c);
    assert WorkOk(j, level, KSend, l, c);
    SendsHere(j, level, l, c, list);
    OutSplit(T.Transfers(j.g, j.col), level, c, l, FlowsOf(list, c, Destinations(j, list)));
  }

  lemma SendsHere(j: Job, level: map<int, nat>, l: nat, c: int, list: seq<int>)
    requires Sane(j, level) && T.Painted(j.g, j.col) && l < Top(j)
    requires Works(j, level, KSend, l, c, list) && InGraph(j, list) && NoDup(list)
    ensures var here := FlowsOf(list, c, Destinations(j, list));
      && |here| == Fan(Destinations(j, list))
      && forall t :: t in here <==>
           t in T.Transfers(j.g, j.col) && t.from == c && t.v in level && level[t.v] == l
  {
    var dests := Destinations(j, list);
    FlowsOfCount(list, c, dests);
    forall t ensures t in FlowsOf(list, c, dests) <==>
      T.Sent(j.g, j.col, t) && t.from == c && t.v in level && level[t.v] == l
    {
      SentIsRemote(j, level, t);
      SendLevel(j, level, l, c, list, dests, t);
    }
  }

  lemma SendLevel(j: Job, level: map<int, nat>, l: nat, c: int, list: seq<int>, dests: seq<seq<int>>, t: T.Flow)
    requires Sane(j, level) && l < Top(j) && Works(j, level, KSend, l, c, list) && InGraph(j, list)
    requires dests == Destinations(j, list)
    ensures Reaches(list, dests, t.v, t.to) <==>
              t.v in j.g && level[t.v] == l && Active(j, l, t.v) && j.col[t.v] == c && t.to in Remote(j, t.v)
  {
    if i :| 0 <= i < |list| && list[i] == t.v && t.to in dests[i] {
      var v := list[i];
      assert v in list;
    }
    if t.v in j.g && level[t.v] == l && Active(j, l, t.v) && j.col[t.v] == c && t.to in Remote(j, t.v) {
      assert t.v in list;
      var i :| 0 <= i < |list| && list[i] == t.v;
      assert t.to in dests[i];
    }
  }

  ghost function FlowsInto(list: seq<int>, col: map<int, int>, c: int): (r: set<T.Flow>)
    ensures forall t :: t in r <==> t.v in list && t.v in col && t.from == col[t.v] && t.to == c
  {
    set v | v in list && v in col :: T.Flow(v, col[v], c)
  }

  lemma RecvsHere(j: Job, level: map<int, nat>, l: nat, c: int, list: seq<int>)
    requires Sane(j, level) && T.Painted(j.g, j.col) && l < Top(j)
    requires Works(j, level, KRecv, l, c, list) && InGraph(j, list) && NoDup(list)
    ensures var here := FlowsInto(list, j.col, c);
      && |here| == |list|
      && forall t :: t in here <==>
           t in T.Transfers(j.g, j.col) && t.to == c && t.v in level && level[t.v] == l
  {
    forall i | 0 <= i < |list| ensures list[i] in j.col {
      var v := list[i];
      assert v in j.g;
    }
    FlowsFrom(list, j.col, c);
    forall t ensures t in FlowsInto(list, j.col, c) <==>
      T.Sent(j.g, j.col, t) && t.to == c && t.v in level && level[t.v] == l
    {
      SentIsRemote(j, level, t);
    }
  }

  // The tasks of every node send exactly _out and receive exactly _in messages
  // per packet.
  lemma MessagesAreCounted(j: Job, level: map<int, nat>, c: int)
    requires Compilable(j, level) && T.Painted(j.g, j.col)
    ensures Sends(j, c, |j.levels| - 1) == T.Out(T.Transfers(j.g, j.col), c)
    ensures Recvs(j, c, |j.levels| - 1) == T.In(T.Transfers(j.g, j.col), c)
  {
    CompilableIsSane(j, level);
    CompilableIsLaid(j, level);
    AllLevelsCounted(j, level, c);
  }

  lemma AllLevelsCounted(j: Job, level: map<int, nat>, c: int)
    requires Sane(j, level) && Laid(j, level) && T.Painted(j.g, j.col)
    ensures Sends(j, c, |j.levels| - 1) == T.Out(T.Transfers(j.g, j.col), c)
    ensures Recvs(j, c, |j.levels| - 1) == T.In(T.Transfers(j.g, j.col), c)
  {
    var all := T.Transfers(j.g, j.col);
    forall l: nat | l < Top(j) ensures StepOut(j, all, level, c, l) { OneLevelSent(j, level, c, l); }
    SendsCount(j, all, level, c, Top(j));
    forall l: nat | l < Top(j) ensures StepIn(j, all, level, c, l) { OneLevelReceived(j, level, c, l); }
    RecvsCount(j, all, level, c, Top(j));
    NothingAtTheTop(j, level, c);
  }

  lemma NothingAtTheTop(j: Job, level: map<int, nat>, c: int)
    requires Sane(j, level) && T.Painted(j.g, j.col)
    ensures |OutBelow(T.Transfers(j.g, j.col), level, c, Top(j))| == T.Out(T.Transfers(j.g, j.col), c)
    ensures |InBelow(T.Transfers(j.g, j.col), level, c, Top(j))| == T.In(T.Transfers(j.g, j.col), c)
  {
    var all := T.Transfers(j.g, j.col);
    forall t | t in all ensures t.v in level && level[t.v] < Top(j) {
      SentIsRemote(j, level, t);
      RemoteBelowTop(j, level, t.v, t.to);
    }
    assert OutBelow(all, level, c, Top(j)) == set t | t in all && t.from == c;
    assert InBelow(all, level, c, Top(j)) == set t | t in all && t.to == c;
  }

  // Every message has one sender and one receiver: a send of v to node d is
  // planned if and only if node d has a receive of v, on the same level.
  lemma SendsMatchRecvs(j: Job, level: map<int, nat>, l: nat, v: int, d: int)
    requires Compilable(j, level) && l < |j.levels| - 1 && v in j.g
    ensures (v in Work(j, KSend, l, j.col[v]) && d in Remote(j, v)) <==> v in Work(j, KRecv, l, d)
    ensures forall c :: c != j.col[v] ==> v !in Work(j, KSend, l, c)
  {
    CompilableIsSane(j, level);
    CompilableIsLaid(j, level);
    assert WorkOk(j, level, KRecv, l, d);
    assert WorkOk(j, level, KSend, l, j.col[v]);
    forall c | c != j.col[v] ensures v !in Work(j, KSend, l, c) {
      assert WorkOk(j, level, KSend, l, c);
    }
  }
}
