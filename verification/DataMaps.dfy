// The queues of a node: DataMap and prepareDataMap.  All of them are created
// before the first thread starts, from the task list alone.
module DataMaps {
  import opened Util
  import opened GF
  import opened Dag
  import opened EcDag
  import opened Tasks
  import N = Network
  import opened Programs
  import opened Sites
  import opened Execution
  import opened StripeTasks

  // ------------------------------------------------------- the keys of a task

  // A value that is used on its own node gets a queue under its index, one
  // that is sent gets a queue under its cache key.
  function UsageKeys(list: seq<int>, usage: seq<(bool, bool)>): set<int>
    requires |list| == |usage|
  {
    if list == [] then {}
    else
      var n := |list| - 1;
      UsageKeys(list[..n], usage[..n])
      + (if usage[n].0 then {list[n]} else {}) + (if usage[n].1 then {Cache(list[n])} else {})
  }

  function KeysOf(t: Task): set<int>
    requires Shaped(t)
  {
    match t
    case ReadBlock(_, list, usage) => UsageKeys(list, usage)
    case ReadZero(list) => set v | v in list
    case Send(_, _) => {}
    case Recv(list) => set v | v in list
    case Compute(items) => UsageKeys(Targets(items), Flags(items))
    case Persist(_, _) => {}
  }

  predicate AllShaped(tasks: seq<Task>) { forall i :: 0 <= i < |tasks| ==> Shaped(tasks[i]) }

  function AllKeys(tasks: seq<Task>): set<int>
    requires AllShaped(tasks)
  {
    if tasks == [] then {} else AllKeys(tasks[..|tasks| - 1]) + KeysOf(tasks[|tasks| - 1])
  }

  // made was added to before; queues that existed are as they were.
  ghost predicate Extended(before: map<int, seq<Byte>>, after: map<int, seq<Byte>>, made: set<int>) {
    && after.Keys == before.Keys + made
    && forall k :: k in after ==> after[k] == if k in before then before[k] else []
  }

  class DataMap {
    var queues: map<int, seq<Byte>>

    constructor ()
      ensures queues == map[]
    {
      queues := map[];
    }

    // insert leaves an entry that exists alone.
    method CreateQueue(key: int)
      modifies this
      ensures Extended(old(queues), queues, {key})
    {
      if key !in queues { queues := queues[key := []]; }
    }

    method CreateUsed(v: int, usage: (bool, bool))
      modifies this
      ensures Extended(old(queues), queues, (if usage.0 then {v} else {}) + (if usage.1 then {Cache(v)} else {}))
    {
      if usage.0 { CreateQueue(v); }
      if usage.1 { CreateQueue(Cache(v)); }
    }

    method CreateByUsage(list: seq<int>, usage: seq<(bool, bool)>)
      requires |list| == |usage|
      modifies this
      ensures Extended(old(queues), queues, UsageKeys(list, usage))
    {
      var i := 0;
      while i < |list|
        invariant 0 <= i <= |list|
        invariant Extended(old(queues), queues, UsageKeys(list[..i], usage[..i]))
      {
        assert list[..i + 1][..i] == list[..i] && usage[..i + 1][..i] == usage[..i];
        CreateUsed(list[i], usage[i]);
        i := i + 1;
      }
      assert list[..i] == list && usage[..i] == usage;
    }

    method CreateListed(list: seq<int>)
      modifies this
      ensures Extended(old(queues), queues, set v | v in list)
    {
      var i := 0;
      while i < |list|
        invariant 0 <= i <= |list|
        invariant Extended(old(queues), queues, set v | v in list[..i])
      {
        assert list[..i + 1] == list[..i] + [list[i]];
        CreateQueue(list[i]);
        i := i + 1;
      }
      assert list[..i] == list;
    }

    method PrepareDataMap(t: Task)
      requires Shaped(t)
      modifies this
      ensures Extended(old(queues), queues, KeysOf(t))
    {
      match t
      case ReadBlock(_, list, usage) => CreateByUsage(list, usage);
      case ReadZero(list) => CreateListed(list);
      case Send(_, _) =>
      case Recv(list) => CreateListed(list);
      case Compute(items) => CreateByUsage(Targets(items), Flags(items));
      case Persist(_, _) =>
    }
  }

  // What repairBatch does for one stripe before it starts the threads.
  method PrepareStripe(tasks: seq<Task>) returns (m: DataMap)
    requires AllShaped(tasks)
    ensures fresh(m) && m.queues.Keys == AllKeys(tasks)
    ensures forall k :: k in m.queues ==> m.queues[k] == []
  {
    m := new DataMap();
    var i := 0;
    while i < |tasks|
      invariant 0 <= i <= |tasks| && fresh(m)
      invariant Extended(map[], m.queues, AllKeys(tasks[..i]))
    {
      assert tasks[..i + 1][..i] == tasks[..i];
      m.PrepareDataMap(tasks[i]);
      i := i + 1;
    }
    assert tasks[..i] == tasks;
  }

  // ------------------------------------------- what a line pushes at its node

  lemma PublishPushes(ops: seq<N.Op>, c: int, v: int, same: bool, diff: bool, senderFirst: bool, q: N.Queue)
    ensures q in Pushes(Publish(ops, c, v, same, diff, senderFirst)) <==> q in Pushes(ops) || Published(q, c, v, same, diff)
  {
    var own, cached := N.Push(N.Local(c, v), v), N.Push(N.Local(c, Cache(v)), v);
    assert ops + [] == ops;
    Append(ops, own);
    Append(ops, cached);
    Append(ops + [own], cached);
    Append(ops + [cached], own);
    assert ops + [own] + [] == ops + [own] && ops + [cached] + [] == ops + [cached];
  }

  lemma {:induction false} ReadPushes(c: int, list: seq<int>, usage: seq<(bool, bool)>, d: int, k: int)
    requires |list| == |usage|
    ensures N.Local(d, k) in Pushes(ReadOps(c, list, usage)) <==> d == c && k in UsageKeys(list, usage)
  {
    if list != [] {
      var n := |list| - 1;
      ReadPushes(c, list[..n], usage[..n], d, k);
      var ops := ReadOps(c, list[..n], usage[..n]);
      Append(ops, N.Read(list[n]));
      PublishPushes(ops + [N.Read(list[n])], c, list[n], usage[n].0, usage[n].1, false, N.Local(d, k));
    }
  }

  lemma {:induction false} ZeroPushes(c: int, list: seq<int>, d: int, k: int)
    ensures N.Local(d, k) in Pushes(ZeroOps(c, list)) <==> d == c && k in list
  {
    if list != [] {
      var n := |list| - 1;
      Last(list);
      ZeroPushes(c, list[..n], d, k);
      var ops := ZeroOps(c, list[..n]);
      Append(ops, N.Zero(list[n]));
      Append(ops + [N.Zero(list[n])], N.Push(N.Local(c, list[n]), list[n]));
    }
  }

  lemma {:induction false} RecvPushes(c: int, list: seq<int>, d: int, k: int)
    ensures N.Local(d, k) in Pushes(RecvOps(c, list)) <==> d == c && k in list
  {
    if list != [] {
      var n := |list| - 1;
      Last(list);
      RecvPushes(c, list[..n], d, k);
      var ops, p := RecvOps(c, list[..n]), N.Pop(N.Wire(c, list[n]), list[n]);
      Append(ops, p);
      Append(ops + [p], N.Push(N.Local(c, list[n]), list[n]));
    }
  }

  lemma {:induction false} FanOutPushes(ops: seq<N.Op>, v: int, dests: seq<int>, d: int, k: int)
    ensures N.Local(d, k) in Pushes(FanOut(ops, v, dests)) <==> N.Local(d, k) in Pushes(ops)
  {
    if dests != [] {
      var n := |dests| - 1;
      FanOutPushes(ops, v, dests[..n], d, k);
      Append(FanOut(ops, v, dests[..n]), N.Push(N.Wire(dests[n], v), v));
    }
  }

  lemma {:induction false} SendPushes(c: int, list: seq<int>, dests: seq<seq<int>>, d: int, k: int)
    requires |list| == |dests|
    ensures N.Local(d, k) !in Pushes(SendOps(c, list, dests))
  {
    if list != [] {
      var n := |list| - 1;
      SendPushes(c, list[..n], dests[..n], d, k);
      var ops, p := SendOps(c, list[..n], dests[..n]), N.Pop(N.Local(c, Cache(list[n])), list[n]);
      Append(ops, p);
      FanOutPushes(ops + [p], list[n], dests[n], d, k);
    }
  }

  lemma {:induction false} PopAllPushes(c: int, vs: seq<int>)
    ensures Pushes(PopAll(c, vs)) == {}
  {
    if vs != [] {
      var n := |vs| - 1;
      PopAllPushes(c, vs[..n]);
      Append(PopAll(c, vs[..n]), N.Pop(N.Local(c, vs[n]), vs[n]));
    }
  }

  lemma {:induction false} ItemPushes(pre: seq<N.Op>, c: int, items: seq<Item>, d: int, k: int)
    requires Pushes(pre) == {}
    ensures N.Local(d, k) in Pushes(ItemOps(pre, c, items)) <==> d == c && k in UsageKeys(Targets(items), Flags(items))
  {
    if items != [] {
      var n := |items| - 1;
      ItemPushes(pre, c, items[..n], d, k);
      assert Targets(items[..n]) == Targets(items)[..n] && Flags(items[..n]) == Flags(items)[..n];
      ItemPushesOne(ItemOps(pre, c, items[..n]), c, items[n], d, k);
    }
  }

  lemma ItemPushesOne(ops: seq<N.Op>, c: int, x: Item, d: int, k: int)
    ensures N.Local(d, k) in Pushes(Publish(ops + [N.Calc(x.dst, x.coefs, x.srcs)], c, x.dst, x.same, x.diff, true)) <==>
              N.Local(d, k) in Pushes(ops) || Published(N.Local(d, k), c, x.dst, x.same, x.diff)
  {
    Append(ops, N.Calc(x.dst, x.coefs, x.srcs));
    PublishPushes(ops + [N.Calc(x.dst, x.coefs, x.srcs)], c, x.dst, x.same, x.diff, true, N.Local(d, k));
  }

  lemma {:induction false} PersistPushes(c: int, list: seq<int>)
    ensures Pushes(PersistOps(c, list)) == {}
  {
    if list != [] {
      var n := |list| - 1;
      PersistPushes(c, list[..n]);
      var ops, p := PersistOps(c, list[..n]), N.Pop(N.Local(c, list[n]), list[n]);
      Append(ops, p);
      Append(ops + [p], N.Emit(list[n]));
    }
  }

  // For every task: the queues created for it are exactly those that its
  // thread pushes to on its own node, and it pushes to no queue of another.
  lemma TaskMakesWhatItPushes(c: int, t: Task, d: int, k: int)
    requires Shaped(t)
    ensures N.Local(d, k) in Pushes(OpsOf(c, t)) <==> d == c && k in KeysOf(t)
  {
    match t
    case ReadBlock(_, list, usage) => ReadPushes(c, list, usage, d, k);
    case ReadZero(list) => ZeroPushes(c, list, d, k);
    case Send(list, dests) => SendPushes(c, list, dests, d, k);
    case Recv(list) => RecvPushes(c, list, d, k);
    case Compute(items) =>
      PopAllPushes(c, Inputs(items));
      ItemPushes(PopAll(c, Inputs(items)), c, items, d, k);
    case Persist(list, _) => PersistPushes(c, list);
  }

  // --------------------------------------------------------- all tasks, all nodes

  lemma KeysAppend(tasks: seq<Task>, t: Task)
    requires AllShaped(tasks) && Shaped(t)
    ensures AllShaped(tasks + [t]) && AllKeys(tasks + [t]) == AllKeys(tasks) + KeysOf(t)
  {
    assert (tasks + [t])[..|tasks|] == tasks;
  }

  lemma PushesAppend(j: Job, keys: seq<Key>)
    requires Closed(j) && AllPresent(j, keys) && keys != []
    ensures var n := |keys| - 1;
      AllPushes(Lines(j, keys)) == AllPushes(Lines(j, keys[..n])) + Pushes(Line(j, keys[n]))
  {
    assert Lines(j, keys)[..|keys| - 1] == Lines(j, keys[..|keys| - 1]);
  }

  lemma OneMoreTask(tasks: seq<Task>, node: int, t: Task, pushed: set<N.Queue>, c: int, k: int)
    requires AllShaped(tasks) && Shaped(t)
    requires k in AllKeys(tasks) <==> N.Local(c, k) in pushed
    ensures var r := tasks + if node == c then [t] else [];
      AllShaped(r) && (k in AllKeys(r) <==> N.Local(c, k) in pushed + Pushes(OpsOf(node, t)))
  {
    TaskMakesWhatItPushes(node, t, c, k);
    KeysAppend(tasks, t);
    assert tasks + [] == tasks;
  }

  lemma {:induction false} NodeKeys(j: Job, keys: seq<Key>, c: int, k: int)
    requires Closed(j) && AllPresent(j, keys)
    ensures AllShaped(TasksFor(j, keys, c))
    ensures k in AllKeys(TasksFor(j, keys, c)) <==> N.Local(c, k) in AllPushes(Lines(j, keys))
  {
    if keys != [] {
      var n := |keys| - 1;
      NodeKeys(j, keys[..n], c, k);
      TaskShaped(j, keys[n]);
      OneMoreTask(TasksFor(j, keys[..n], c), NodeAt(j, keys[n]), TaskAt(j, keys[n]), AllPushes(Lines(j, keys[..n])), c, k);
      PushesAppend(j, keys);
    }
  }

  // When the threads of a repair start, the local queues of the machine are
  // those the nodes have prepared, each on the node that holds it.
  lemma StartIsPrepared(j: Job, keys: seq<Key>, net: N.Net, c: int, k: int)
    requires Closed(j) && Compiled(j, keys, net)
    ensures AllShaped(TasksFor(j, keys, c))
    ensures N.Local(c, k) in N.Init(net, AllPushes(net.progs)).q <==> k in AllKeys(TasksFor(j, keys, c))
  {
    NodeKeys(j, keys, c, k);
  }

  // No thread ever asks its node for a queue that was not created: whatever
  // local queue an operation names, it is in the DataMap of the thread's node.
  lemma EveryQueueExists(j: Job, level: map<int, nat>, keys: seq<Key>, net: N.Net, t: nat, i: nat)
    requires Planned(j, level) && Compiled(j, keys, net)
    requires t < |net.progs| && i < |net.progs[t]|
    requires var op := net.progs[t][i]; (op.Push? || op.Pop?) && op.q.Local?
    ensures var q := net.progs[t][i].q;
      && q.node == NodeAt(j, keys[t])
      && AllShaped(TasksFor(j, keys, q.node)) && q.key in AllKeys(TasksFor(j, keys, q.node))
  {
    CompilableIsSane(j, level);
    CompilableIsLaid(j, level);
    var q := net.progs[t][i].q;
    Mentioned(net.progs[t], i);
    QueueAtHome(j, level, keys[t], q);
    QueuesAre(j, level, keys, q);
    NodeKeys(j, keys, q.node, q.key);
  }

  lemma QueueAtHome(j: Job, level: map<int, nat>, key: Key, q: N.Queue)
    requires Sane(j, level) && SharedOk(j, level) && Laid(j, level) && Present(j, key)
    requires q.Local? && (q in Pushes(Line(j, key)) || q in Pops(Line(j, key)))
    ensures q.node == NodeAt(j, key) && Carried(j, level, q)
  {
    Site(j, level, key);
    if q in Pushes(Line(j, key)) {
      TaskShaped(j, key);
      TaskMakesWhatItPushes(NodeAt(j, key), TaskAt(j, key), q.node, q.key);
    }
  }
}
