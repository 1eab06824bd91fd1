// What the worker does with a task: the operations of readRealBlock,
// readVirtBlock, sendOneByOne, recvList, computeOneByOne and persist, for one
// packet.
module Programs {
  import opened Util
  import opened GF
  import opened Network
  import opened Tasks

  const KEY0 := -32767

  // The queue key under which a sub-packet waits to be sent.
  function Cache(v: int): int { if v == 0 then KEY0 else -v }

  // Indices for which local keys and cache keys cannot collide.
  predicate IdOk(v: int) { 0 <= v < 32767 }

  predicate IdsOk(s: seq<int>) { forall i :: 0 <= i < |s| ==> IdOk(s[i]) }

  // The sub-packet whose values a queue carries.
  function Carries(q: Queue): int {
    match q
    case Wire(c, v) => v
    case Local(c, k) => if k >= 0 then k else if k == KEY0 then 0 else -k
  }

  // With indices in range, the key of a queue tells the sub-packet and the
  // purpose apart.
  lemma KeysApart(c: int, v: int, u: int)
    requires IdOk(v) && IdOk(u)
    ensures Cache(v) != u
    ensures Cache(v) == Cache(u) ==> v == u
    ensures Carries(Local(c, v)) == v && Carries(Local(c, Cache(v))) == v
  {
  }

  // ----------------------------------------------------- lines of operations

  function Pushes(ops: seq<Op>): set<Queue> {
    if ops == [] then {}
    else
      var x := ops[|ops| - 1];
      Pushes(ops[..|ops| - 1]) + if x.Push? then {x.q} else {}
  }

  function Pops(ops: seq<Op>): set<Queue> {
    if ops == [] then {}
    else
      var x := ops[|ops| - 1];
      Pops(ops[..|ops| - 1]) + if x.Pop? then {x.q} else {}
  }

  // x may follow ops: its buffers are filled, and it pushes or pops a queue
  // that ops did not push or pop, with the sub-packet the queue is for.
  predicate Follows(ops: seq<Op>, x: Op) {
    && UsesKnown(x, Defs(ops))
    && (x.Push? ==> x.q !in Pushes(ops) && x.v == Carries(x.q))
    && (x.Pop? ==> x.q !in Pops(ops) && x.v == Carries(x.q))
  }

  predicate Fine(ops: seq<Op>) {
    ops == [] || (Fine(ops[..|ops| - 1]) && Follows(ops[..|ops| - 1], ops[|ops| - 1]))
  }

  lemma Append(ops: seq<Op>, x: Op)
    ensures Defs(ops + [x]) == Defs(ops) + DefOf(x)
    ensures Pushes(ops + [x]) == Pushes(ops) + if x.Push? then {x.q} else {}
    ensures Pops(ops + [x]) == Pops(ops) + if x.Pop? then {x.q} else {}
    ensures Fine(ops) && Follows(ops, x) ==> Fine(ops + [x])
  {
    var r := ops + [x];
    assert r[..|ops|] == ops;
  }

  lemma {:induction false} FineAt(ops: seq<Op>, i: nat)
    requires Fine(ops) && i < |ops|
    ensures Follows(ops[..i], ops[i])
  {
    var n := |ops| - 1;
    if i < n {
      FineAt(ops[..n], i);
      assert ops[..n][..i] == ops[..i];
    }
  }

  lemma {:induction false} Mentioned(ops: seq<Op>, i: nat)
    requires i < |ops|
    ensures ops[i].Push? ==> ops[i].q in Pushes(ops)
    ensures ops[i].Pop? ==> ops[i].q in Pops(ops)
  {
    if i < |ops| - 1 { Mentioned(ops[..|ops| - 1], i); }
  }

  // Where a line pushes q, and where it pops q.
  function PushPc(ops: seq<Op>, q: Queue): (i: nat)
    requires q in Pushes(ops)
    ensures i < |ops|
  {
    var n := |ops| - 1;
    if ops[n].Push? && ops[n].q == q then n else PushPc(ops[..n], q)
  }

  function PopPc(ops: seq<Op>, q: Queue): (i: nat)
    requires q in Pops(ops)
    ensures i < |ops|
  {
    var n := |ops| - 1;
    if ops[n].Pop? && ops[n].q == q then n else PopPc(ops[..n], q)
  }

  // In a fine line there is one such place.
  lemma {:induction false} OnePush(ops: seq<Op>, q: Queue)
    requires Fine(ops) && q in Pushes(ops)
    ensures ops[PushPc(ops, q)] == Push(q, Carries(q))
    ensures forall k :: 0 <= k < |ops| && ops[k].Push? && ops[k].q == q ==> k == PushPc(ops, q)
  {
    var n := |ops| - 1;
    if ops[n].Push? && ops[n].q == q {
      forall k | 0 <= k < n && ops[k].Push? ensures ops[k].q != q { Mentioned(ops[..n], k); }
    } else {
      OnePush(ops[..n], q);
      assert forall k :: 0 <= k < n ==> ops[..n][k] == ops[k];
    }
  }

  lemma {:induction false} OnePop(ops: seq<Op>, q: Queue)
    requires Fine(ops) && q in Pops(ops)
    ensures ops[PopPc(ops, q)] == Pop(q, Carries(q))
    ensures forall k :: 0 <= k < |ops| && ops[k].Pop? && ops[k].q == q ==> k == PopPc(ops, q)
  {
    var n := |ops| - 1;
    if ops[n].Pop? && ops[n].q == q {
      forall k | 0 <= k < n && ops[k].Pop? ensures ops[k].q != q { Mentioned(ops[..n], k); }
    } else {
      OnePop(ops[..n], q);
      assert forall k :: 0 <= k < n ==> ops[..n][k] == ops[k];
    }
  }

  // Membership in a list, one element at a time.
  lemma Last(list: seq<int>)
    requires list != []
    ensures var n := |list| - 1;
      && (forall u :: u in list <==> u in list[..n] || u == list[n])
      && (NoDup(list) ==> list[n] !in list[..n] && NoDup(list[..n]))
      && (IdsOk(list) ==> IdsOk(list[..n]) && IdOk(list[n]))
  {
    var n := |list| - 1;
    assert list == list[..n] + [list[n]];
  }

  // ------------------------------------------------------------------- reading

  // A value is pushed once for its own node and once for the sender; a read
  // serves its own node first, a computation the sender.
  function Publish(ops: seq<Op>, c: int, v: int, same: bool, diff: bool, senderFirst: bool): seq<Op> {
    var own := if same then [Push(Local(c, v), v)] else [];
    var cached := if diff then [Push(Local(c, Cache(v)), v)] else [];
    if senderFirst then (ops + cached) + own else (ops + own) + cached
  }

  predicate Published(q: Queue, c: int, v: int, same: bool, diff: bool) {
    (same && q == Local(c, v)) || (diff && q == Local(c, Cache(v)))
  }

  lemma PublishFacts(ops: seq<Op>, c: int, v: int, same: bool, diff: bool, senderFirst: bool)
    requires Fine(ops) && v in Defs(ops) && IdOk(v)
    requires Local(c, v) !in Pushes(ops) && Local(c, Cache(v)) !in Pushes(ops)
    ensures var r := Publish(ops, c, v, same, diff, senderFirst);
      && Fine(r) && Defs(r) == Defs(ops) && Pops(r) == Pops(ops)
      && (forall q :: q in Pushes(r) <==> q in Pushes(ops) || Published(q, c, v, same, diff))
  {
    KeysApart(c, v, v);
    var first := if senderFirst then Local(c, Cache(v)) else Local(c, v);
    var second := if senderFirst then Local(c, v) else Local(c, Cache(v));
    var r := if (if senderFirst then diff else same) then ops + [Push(first, v)] else ops + [];
    assert ops + [] == ops;
    Append(ops, Push(first, v));
    assert r + [] == r;
    Append(r, Push(second, v));
  }

  function ReadOps(c: int, list: seq<int>, usage: seq<(bool, bool)>): seq<Op>
    requires |list| == |usage|
  {
    if list == [] then []
    else
      var n := |list| - 1;
      Publish(ReadOps(c, list[..n], usage[..n]) + [Read(list[n])], c, list[n], usage[n].0, usage[n].1, false)
  }

  // q gets the value of an entry of the list.
  predicate ReadInto(q: Queue, c: int, list: seq<int>, usage: seq<(bool, bool)>)
    requires |list| == |usage|
  {
    exists i :: 0 <= i < |list| && Published(q, c, list[i], usage[i].0, usage[i].1)
  }

  lemma ReadIntoStep(q: Queue, c: int, list: seq<int>, usage: seq<(bool, bool)>)
    requires |list| == |usage| && list != []
    ensures var n := |list| - 1;
      ReadInto(q, c, list, usage) <==>
        ReadInto(q, c, list[..n], usage[..n]) || Published(q, c, list[n], usage[n].0, usage[n].1)
  {
    var n := |list| - 1;
    if ReadInto(q, c, list[..n], usage[..n]) {
      var i :| 0 <= i < n && Published(q, c, list[..n][i], usage[..n][i].0, usage[..n][i].1);
      assert Published(q, c, list[i], usage[i].0, usage[i].1);
    }
    if ReadInto(q, c, list, usage) {
      var i :| 0 <= i < |list| && Published(q, c, list[i], usage[i].0, usage[i].1);
      if i < n { assert Published(q, c, list[..n][i], usage[..n][i].0, usage[..n][i].1); }
    }
  }

  lemma NewKey(v: int, c: int, list: seq<int>, usage: seq<(bool, bool)>)
    requires |list| == |usage| && IdsOk(list) && IdOk(v) && v !in list
    ensures !ReadInto(Local(c, v), c, list, usage) && !ReadInto(Local(c, Cache(v)), c, list, usage)
  {
    forall i | 0 <= i < |list|
      ensures !Published(Local(c, v), c, list[i], usage[i].0, usage[i].1)
      ensures !Published(Local(c, Cache(v)), c, list[i], usage[i].0, usage[i].1)
    {
      KeysApart(c, v, list[i]);
      KeysApart(c, list[i], v);
    }
  }

  lemma {:induction false} ReadOpsFacts(c: int, list: seq<int>, usage: seq<(bool, bool)>)
    requires |list| == |usage| && NoDup(list) && IdsOk(list)
    ensures var ops := ReadOps(c, list, usage);
      && Fine(ops) && Pops(ops) == {}
      && (forall q :: q in Pushes(ops) <==> ReadInto(q, c, list, usage))
  {
    if list != [] {
      var n := |list| - 1;
      var v := list[n];
      Last(list);
      ReadOpsFacts(c, list[..n], usage[..n]);
      var ops := ReadOps(c, list[..n], usage[..n]);
      Append(ops, Read(v));
      NewKey(v, c, list[..n], usage[..n]);
      PublishFacts(ops + [Read(v)], c, v, usage[n].0, usage[n].1, false);
      forall q ensures q in Pushes(ReadOps(c, list, usage)) <==> ReadInto(q, c, list, usage) {
        ReadIntoStep(q, c, list, usage);
      }
    }
  }

  function ZeroOps(c: int, list: seq<int>): seq<Op> {
    if list == [] then []
    else
      var n := |list| - 1;
      ZeroOps(c, list[..n]) + [Zero(list[n])] + [Push(Local(c, list[n]), list[n])]
  }

  lemma {:induction false} ZeroOpsFacts(c: int, list: seq<int>)
    requires NoDup(list) && IdsOk(list)
    ensures var ops := ZeroOps(c, list);
      && Fine(ops) && Pops(ops) == {}
      && (forall q :: q in Pushes(ops) <==> q.Local? && q.node == c && q.key in list)
  {
    if list != [] {
      var n := |list| - 1;
      Last(list);
      ZeroOpsFacts(c, list[..n]);
      var ops := ZeroOps(c, list[..n]);
      Append(ops, Zero(list[n]));
      KeysApart(c, list[n], list[n]);
      Append(ops + [Zero(list[n])], Push(Local(c, list[n]), list[n]));
    }
  }

  // ------------------------------------------------------- sending, receiving

  function FanOut(ops: seq<Op>, v: int, dests: seq<int>): seq<Op> {
    if dests == [] then ops
    else FanOut(ops, v, dests[..|dests| - 1]) + [Push(Wire(dests[|dests| - 1], v), v)]
  }

  lemma {:induction false} FanOutFacts(ops: seq<Op>, v: int, dests: seq<int>)
    requires Fine(ops) && NoDup(dests) && v in Defs(ops)
    requires forall d :: Wire(d, v) !in Pushes(ops)
    ensures var r := FanOut(ops, v, dests);
      && Fine(r) && Defs(r) == Defs(ops) && Pops(r) == Pops(ops)
      && (forall q :: q in Pushes(r) <==> q in Pushes(ops) || (q.Wire? && q.dagidx == v && q.node in dests))
  {
    if dests != [] {
      var n := |dests| - 1;
      Last(dests);
      FanOutFacts(ops, v, dests[..n]);
      Append(FanOut(ops, v, dests[..n]), Push(Wire(dests[n], v), v));
    }
  }

  function SendOps(c: int, list: seq<int>, dests: seq<seq<int>>): seq<Op>
    requires |list| == |dests|
  {
    if list == [] then []
    else
      var n := |list| - 1;
      FanOut(SendOps(c, list[..n], dests[..n]) + [Pop(Local(c, Cache(list[n])), list[n])], list[n], dests[n])
  }

  predicate SentTo(q: Queue, list: seq<int>, dests: seq<seq<int>>)
    requires |list| == |dests|
  {
    q.Wire? && exists i :: 0 <= i < |list| && list[i] == q.dagidx && q.node in dests[i]
  }

  lemma SentToStep(q: Queue, list: seq<int>, dests: seq<seq<int>>)
    requires |list| == |dests| && list != []
    ensures var n := |list| - 1;
      SentTo(q, list, dests) <==>
        SentTo(q, list[..n], dests[..n]) || (q.Wire? && q.dagidx == list[n] && q.node in dests[n])
  {
    var n := |list| - 1;
    if SentTo(q, list[..n], dests[..n]) {
      var i :| 0 <= i < n && list[..n][i] == q.dagidx && q.node in dests[..n][i];
      assert list[i] == q.dagidx && q.node in dests[i];
    }
    if SentTo(q, list, dests) {
      var i :| 0 <= i < |list| && list[i] == q.dagidx && q.node in dests[i];
      if i < n { assert list[..n][i] == q.dagidx && q.node in dests[..n][i]; }
    }
  }

  predicate CachedIn(q: Queue, c: int, list: seq<int>) {
    q.Local? && q.node == c && Carries(q) in list && q.key == Cache(Carries(q))
  }

  lemma {:induction false} SendOpsFacts(c: int, list: seq<int>, dests: seq<seq<int>>)
    requires |list| == |dests| && NoDup(list) && IdsOk(list)
    requires forall i :: 0 <= i < |dests| ==> NoDup(dests[i])
    ensures var ops := SendOps(c, list, dests);
      && Fine(ops)
      && (forall q :: q in Pushes(ops) <==> SentTo(q, list, dests))
      && (forall q :: q in Pops(ops) <==> CachedIn(q, c, list))
  {
    if list != [] {
      var n := |list| - 1;
      var v := list[n];
      Last(list);
      KeysApart(c, v, v);
      var ops := SendOps(c, list[..n], dests[..n]);
      SendOpsFacts(c, list[..n], dests[..n]);
      var p := Pop(Local(c, Cache(v)), v);
      Append(ops, p);
      forall d ensures !SentTo(Wire(d, v), list[..n], dests[..n]) {
        forall i | 0 <= i < n ensures list[..n][i] != v { assert list[..n][i] in list[..n]; }
      }
      FanOutFacts(ops + [p], v, dests[n]);
      forall q ensures q in Pushes(SendOps(c, list, dests)) <==> SentTo(q, list, dests) {
        SentToStep(q, list, dests);
      }
    }
  }

  function RecvOps(c: int, list: seq<int>): seq<Op> {
    if list == [] then []
    else
      var n := |list| - 1;
      RecvOps(c, list[..n]) + [Pop(Wire(c, list[n]), list[n])] + [Push(Local(c, list[n]), list[n])]
  }

  lemma {:induction false} RecvOpsFacts(c: int, list: seq<int>)
    requires NoDup(list) && IdsOk(list)
    ensures var ops := RecvOps(c, list);
      && Fine(ops)
      && (forall q :: q in Pushes(ops) <==> q.Local? && q.node == c && q.key in list)
      && (forall q :: q in Pops(ops) <==> q.Wire? && q.node == c && q.dagidx in list)
  {
    if list != [] {
      var n := |list| - 1;
      var v := list[n];
      Last(list);
      RecvOpsFacts(c, list[..n]);
      var ops := RecvOps(c, list[..n]);
      Append(ops, Pop(Wire(c, v), v));
      KeysApart(c, v, v);
      Append(ops + [Pop(Wire(c, v), v)], Push(Local(c, v), v));
    }
  }

  // ----------------------------------------------------------------- computing

  // Each input of the task once, in the order of first use.
  function Inputs(items: seq<Item>): seq<int> {
    Distinct(AllSources(items))
  }

  function AllSources(items: seq<Item>): seq<int> {
    if items == [] then [] else AllSources(items[..|items| - 1]) + items[|items| - 1].srcs
  }

  lemma UsedBefore(items: seq<Item>, n: nat, v: int)
    requires n < |items|
    ensures (exists i :: 0 <= i < |items[..n]| && v in items[..n][i].srcs) <==> exists i :: 0 <= i < n && v in items[i].srcs
  {
    if i :| 0 <= i < n && v in items[i].srcs { assert v in items[..n][i].srcs; }
    if i :| 0 <= i < n && v in items[..n][i].srcs { assert v in items[i].srcs; }
  }

  lemma {:induction false} SourceOf(items: seq<Item>, v: int)
    ensures v in AllSources(items) <==> exists i :: 0 <= i < |items| && v in items[i].srcs
  {
    if items != [] {
      var n := |items| - 1;
      SourceOf(items[..n], v);
      UsedBefore(items, n, v);
    }
  }

  function PopAll(c: int, vs: seq<int>): seq<Op> {
    if vs == [] then []
    else PopAll(c, vs[..|vs| - 1]) + [Pop(Local(c, vs[|vs| - 1]), vs[|vs| - 1])]
  }

  lemma {:induction false} PopAllFacts(c: int, vs: seq<int>)
    requires NoDup(vs) && IdsOk(vs)
    ensures var ops := PopAll(c, vs);
      && Fine(ops) && Pushes(ops) == {}
      && (forall v :: v in Defs(ops) <==> v in vs)
      && (forall q :: q in Pops(ops) <==> q.Local? && q.node == c && q.key in vs)
  {
    if vs != [] {
      var n := |vs| - 1;
      Last(vs);
      PopAllFacts(c, vs[..n]);
      KeysApart(c, vs[n], vs[n]);
      Append(PopAll(c, vs[..n]), Pop(Local(c, vs[n]), vs[n]));
    }
  }

  function ItemOps(pre: seq<Op>, c: int, items: seq<Item>): seq<Op> {
    if items == [] then pre
    else
      var n := |items| - 1;
      var d := items[n].dst;
      Publish(ItemOps(pre, c, items[..n]) + [Calc(d, items[n].coefs, items[n].srcs)],
              c, d, items[n].same, items[n].diff, true)
  }

  function ComputeOps(c: int, items: seq<Item>): seq<Op> {
    ItemOps(PopAll(c, Inputs(items)), c, items)
  }

  function Targets(items: seq<Item>): (r: seq<int>)
    ensures |r| == |items| && forall i :: 0 <= i < |items| ==> r[i] == items[i].dst
  {
    seq(|items|, i requires 0 <= i < |items| => items[i].dst)
  }

  function Flags(items: seq<Item>): (r: seq<(bool, bool)>)
    ensures |r| == |items| && forall i :: 0 <= i < |items| ==> r[i] == (items[i].same, items[i].diff)
  {
    seq(|items|, i requires 0 <= i < |items| => (items[i].same, items[i].diff))
  }

  // pre is what the line did before the items: it only popped.
  lemma {:induction false} ItemOpsFacts(pre: seq<Op>, c: int, items: seq<Item>)
    requires Fine(pre) && Pushes(pre) == {} && NoDup(Targets(items)) && IdsOk(Targets(items))
    requires forall i :: 0 <= i < |items| ==> Known(items[i].srcs, Defs(pre))
    ensures var ops := ItemOps(pre, c, items);
      && Fine(ops) && Pops(ops) == Pops(pre) && Defs(pre) <= Defs(ops)
      && (forall q :: q in Pushes(ops) <==> ReadInto(q, c, Targets(items), Flags(items)))
  {
    if items != [] {
      var n := |items| - 1;
      var list, usage := Targets(items), Flags(items);
      Last(list);
      assert Targets(items[..n]) == list[..n] && Flags(items[..n]) == usage[..n];
      ItemOpsFacts(pre, c, items[..n]);
      NewKey(list[n], c, list[..n], usage[..n]);
      OneItem(ItemOps(pre, c, items[..n]), c, items[n]);
      forall q ensures q in Pushes(ItemOps(pre, c, items)) <==> ReadInto(q, c, list, usage) {
        ReadIntoStep(q, c, list, usage);
      }
    }
  }

  predicate Known(srcs: seq<int>, defs: set<int>) {
    forall k :: 0 <= k < |srcs| ==> srcs[k] in defs
  }

  lemma OneItem(ops: seq<Op>, c: int, x: Item)
    requires Fine(ops) && IdOk(x.dst) && Known(x.srcs, Defs(ops))
    requires Local(c, x.dst) !in Pushes(ops) && Local(c, Cache(x.dst)) !in Pushes(ops)
    ensures var r := Publish(ops + [Calc(x.dst, x.coefs, x.srcs)], c, x.dst, x.same, x.diff, true);
      && Fine(r) && Defs(ops) <= Defs(r) && Pops(r) == Pops(ops)
      && (forall q :: q in Pushes(r) <==> q in Pushes(ops) || Published(q, c, x.dst, x.same, x.diff))
  {
    var k := Calc(x.dst, x.coefs, x.srcs);
    Append(ops, k);
    PublishFacts(ops + [k], c, x.dst, x.same, x.diff, true);
  }

  lemma ComputeOpsFacts(c: int, items: seq<Item>)
    requires NoDup(Targets(items)) && IdsOk(Targets(items)) && IdsOk(Inputs(items))
    ensures var ops := ComputeOps(c, items);
      && Fine(ops)
      && (forall q :: q in Pushes(ops) <==> ReadInto(q, c, Targets(items), Flags(items)))
      && (forall q :: q in Pops(ops) <==> q.Local? && q.node == c && q.key in AllSources(items))
  {
    var vs := Inputs(items);
    var pre := PopAll(c, vs);
    PopAllFacts(c, vs);
    forall i | 0 <= i < |items| ensures Known(items[i].srcs, Defs(pre)) {
      forall k | 0 <= k < |items[i].srcs| ensures items[i].srcs[k] in Defs(pre) {
        var v := items[i].srcs[k];
        assert v in items[i].srcs;
        SourceOf(items, v);
      }
    }
    ItemOpsFacts(pre, c, items);
  }

  // ---------------------------------------------------------------- persisting

  function PersistOps(c: int, list: seq<int>): seq<Op> {
    if list == [] then []
    else
      var n := |list| - 1;
      PersistOps(c, list[..n]) + [Pop(Local(c, list[n]), list[n])] + [Emit(list[n])]
  }

  lemma {:induction false} PersistOpsFacts(c: int, list: seq<int>)
    requires NoDup(list) && IdsOk(list)
    ensures var ops := PersistOps(c, list);
      && Fine(ops) && Pushes(ops) == {}
      && (forall q :: q in Pops(ops) <==> q.Local? && q.node == c && q.key in list)
  {
    if list != [] {
      var n := |list| - 1;
      var v := list[n];
      Last(list);
      PersistOpsFacts(c, list[..n]);
      var ops := PersistOps(c, list[..n]);
      KeysApart(c, v, v);
      Append(ops, Pop(Local(c, v), v));
      Append(ops + [Pop(Local(c, v), v)], Emit(v));
    }
  }

  // The values of a list of sub-packets, in order.
  function Values(list: seq<int>, val: int -> Byte): seq<Byte> {
    seq(|list|, i requires 0 <= i < |list| => val(list[i]))
  }

  // Per packet, the file gets the values of the listed sub-packets in order.
  lemma {:induction false} PersistEmits(c: int, list: seq<int>, val: int -> Byte)
    ensures Emits(PersistOps(c, list), val) == Values(list, val)
  {
    if list != [] {
      var n := |list| - 1;
      PersistEmits(c, list[..n], val);
      var ops := PersistOps(c, list[..n]);
      var p := [Pop(Local(c, list[n]), list[n])];
      var r := ops + p + [Emit(list[n])];
      assert r[..|ops| + 1] == ops + p && (ops + p)[..|ops|] == ops;
      assert Emits(r, val) == Emits(ops, val) + [val(list[n])];
      assert Values(list, val) == Values(list[..n], val) + [val(list[n])];
    }
  }

  // ------------------------------------------------------------------- any task

  predicate Shaped(t: Task) {
    match t
    case ReadBlock(b, list, usage) => |list| == |usage|
    case Send(list, dests) => |list| == |dests|
    case _ => true
  }

  function OpsOf(c: int, t: Task): seq<Op>
    requires Shaped(t)
  {
    match t
    case ReadBlock(b, list, usage) => ReadOps(c, list, usage)
    case ReadZero(list) => ZeroOps(c, list)
    case Send(list, dests) => SendOps(c, list, dests)
    case Recv(list) => RecvOps(c, list)
    case Compute(items) => ComputeOps(c, items)
    case Persist(list, b) => PersistOps(c, list)
  }
}
