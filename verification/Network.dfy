// The worker threads of all nodes as one step machine.
//
// Every task becomes a thread that runs one straight line of operations per
// packet.  Threads share nothing but first-in first-out queues; popping an
// empty queue blocks.  A scheduler may pick any thread that is not blocked.
module Network {
  import opened Util
  import opened GF

  // Local: a BlockingQueue in the DataMap of a node.  Wire: the list on the
  // receiving node that carries one sub-packet index.
  datatype Queue = Local(node: int, key: int) | Wire(node: int, dagidx: int)

  datatype Op =
    | Read(v: int)                                  // buffer v := block data
    | Zero(v: int)                                  // buffer v := 0
    | Pop(q: Queue, v: int)                         // buffer v := q.pop()
    | Push(q: Queue, v: int)                        // q.push(buffer v)
    | Calc(v: int, coefs: seq<int>, srcs: seq<int>) // buffer v := combination of buffers
    | Emit(v: int)                                  // append buffer v to the output file

  // disk(p)(v) is what packet p of sub-packet v holds on disk.
  datatype Net = Net(progs: seq<seq<Op>>, pktnum: nat, disk: nat -> int -> Byte, f: Field)

  datatype Thread = Thread(pkt: nat, pc: nat, buf: map<int, Byte>, out: seq<Byte>)

  datatype State = State(th: seq<Thread>, q: map<Queue, seq<Byte>>)

  // ------------------------------------------------------------ the machine

  function Init(net: Net, queues: set<Queue>): State {
    State(seq(|net.progs|, _ => Thread(0, 0, map[], [])), map q | q in queues :: [])
  }

  predicate Running(net: Net, s: State, t: nat) {
    t < |net.progs| && t < |s.th| && s.th[t].pkt < net.pktnum && s.th[t].pc < |net.progs[t]|
  }

  function Next(net: Net, s: State, t: nat): Op
    requires Running(net, s, t)
  {
    net.progs[t][s.th[t].pc]
  }

  // A thread can move unless it pops from an empty queue or touches a queue
  // that nobody created.
  predicate Enabled(net: Net, s: State, t: nat) {
    Running(net, s, t) &&
    match Next(net, s, t)
    case Pop(q, v) => q in s.q && s.q[q] != []
    case Push(q, v) => q in s.q && v in s.th[t].buf
    case Emit(v) => v in s.th[t].buf
    case _ => true
  }

  function Lookup(buf: map<int, Byte>): int -> Byte {
    x => if x in buf then buf[x] else 0
  }

  // x is what the operation popped, if it popped something.
  function BufAfter(net: Net, op: Op, th: Thread, x: Byte): map<int, Byte> {
    match op
    case Read(v) => th.buf[v := net.disk(th.pkt)(v)]
    case Zero(v) => th.buf[v := 0]
    case Pop(q, v) => th.buf[v := x]
    case Calc(v, cs, xs) => th.buf[v := Comb(net.f, cs, xs, Lookup(th.buf))]
    case _ => th.buf
  }

  function OutAfter(op: Op, th: Thread): seq<Byte> {
    match op
    case Emit(v) => th.out + [Lookup(th.buf)(v)]
    case _ => th.out
  }

  // One operation; at the end of the line the thread turns to the next packet
  // with empty buffers.
  function Advance(net: Net, prog: seq<Op>, th: Thread, x: Byte): Thread
    requires th.pc < |prog|
  {
    var op := prog[th.pc];
    if th.pc + 1 == |prog| then Thread(th.pkt + 1, 0, map[], OutAfter(op, th))
    else Thread(th.pkt, th.pc + 1, BufAfter(net, op, th, x), OutAfter(op, th))
  }

  function Popped(net: Net, s: State, t: nat): Byte
    requires Enabled(net, s, t)
  {
    match Next(net, s, t)
    case Pop(q, v) => s.q[q][0]
    case _ => 0
  }

  function QueuesAfter(net: Net, s: State, t: nat): map<Queue, seq<Byte>>
    requires Enabled(net, s, t)
  {
    match Next(net, s, t)
    case Pop(q, v) => s.q[q := s.q[q][1..]]
    case Push(q, v) => s.q[q := s.q[q] + [s.th[t].buf[v]]]
    case _ => s.q
  }

  function Step(net: Net, s: State, t: nat): State
    requires Enabled(net, s, t)
  {
    State(s.th[t := Advance(net, net.progs[t], s.th[t], Popped(net, s, t))], QueuesAfter(net, s, t))
  }

  // -------------------------------------------------- well-connected networks

  // Where a queue is filled and where it is drained, and whose values it carries.
  datatype Port = Port(vtx: int, src: nat, srcPc: nat, dst: nat, dstPc: nat)

  type Ports = map<Queue, Port>

  predicate Plugged(net: Net, ports: Ports, phase: seq<nat>, q: Queue)
    requires q in ports
  {
    var p := ports[q];
    && p.src < |net.progs| && p.dst < |net.progs| && |phase| == |net.progs|
    && p.srcPc < |net.progs[p.src]| && net.progs[p.src][p.srcPc] == Push(q, p.vtx)
    && p.dstPc < |net.progs[p.dst]| && net.progs[p.dst][p.dstPc] == Pop(q, p.vtx)
    && phase[p.src] < phase[p.dst]
  }

  // The buffer an operation fills, and those a line of operations has filled.
  function DefOf(op: Op): set<int> {
    match op
    case Read(v) => {v}
    case Zero(v) => {v}
    case Pop(q, v) => {v}
    case Calc(v, cs, xs) => {v}
    case _ => {}
  }

  function Defs(ops: seq<Op>): set<int> {
    if ops == [] then {} else Defs(ops[..|ops| - 1]) + DefOf(ops[|ops| - 1])
  }

  // Buffers are read after they were filled.
  predicate UsesKnown(op: Op, known: set<int>) {
    match op
    case Push(q, v) => v in known
    case Calc(v, cs, xs) => forall k :: 0 <= k < |xs| ==> xs[k] in known
    case Emit(v) => v in known
    case _ => true
  }

  // A queue is used at its two ends only.
  predicate AtItsPort(ports: Ports, op: Op, t: nat, i: nat) {
    match op
    case Pop(q, v) => q in ports && ports[q].dst == t && ports[q].dstPc == i && ports[q].vtx == v
    case Push(q, v) => q in ports && ports[q].src == t && ports[q].srcPc == i && ports[q].vtx == v
    case _ => true
  }

  predicate OpFits(net: Net, ports: Ports, t: nat, i: nat)
    requires t < |net.progs| && i < |net.progs[t]|
  {
    && AtItsPort(ports, net.progs[t][i], t, i)
    && UsesKnown(net.progs[t][i], Defs(net.progs[t][..i]))
  }

  // val(p)(v) is the value of v in packet p; loading and computing agree with it.
  ghost predicate OpMeans(net: Net, val: nat -> int -> Byte, op: Op) {
    match op
    case Read(v) => forall p: nat :: val(p)(v) == net.disk(p)(v)
    case Zero(v) => forall p: nat :: val(p)(v) == 0
    case Calc(v, cs, xs) => forall p: nat :: val(p)(v) == Comb(net.f, cs, xs, val(p))
    case _ => true
  }

  ghost predicate WellConnected(net: Net, ports: Ports, phase: seq<nat>, val: nat -> int -> Byte) {
    && |phase| == |net.progs|
    && (forall q {:trigger Plugged(net, ports, phase, q)} :: q in ports ==> Plugged(net, ports, phase, q))
    && (forall t, i {:trigger OpFits(net, ports, t, i)} :: 0 <= t < |net.progs| && 0 <= i < |net.progs[t]| ==>
          OpFits(net, ports, t, i) && OpMeans(net, val, net.progs[t][i]))
  }

  // ---------------------------------------------------------------- invariant

  function Past(th: Thread, pc: nat): nat { th.pkt + if th.pc > pc then 1 else 0 }

  ghost predicate QueueOk(net: Net, ports: Ports, val: nat -> int -> Byte, s: State, q: Queue)
    requires q in ports && q in s.q
  {
    var p := ports[q];
    p.src < |s.th| && p.dst < |s.th| &&
    var sent, taken := Past(s.th[p.src], p.srcPc), Past(s.th[p.dst], p.dstPc);
    && taken + |s.q[q]| == sent
    && forall i :: 0 <= i < |s.q[q]| ==> s.q[q][i] == val(taken + i)(p.vtx)
  }

  // What the Emit operations of a line append, for one packet.
  function Emits(ops: seq<Op>, val: int -> Byte): seq<Byte> {
    if ops == [] then []
    else
      var n := |ops| - 1;
      Emits(ops[..n], val) + if ops[n].Emit? then [val(ops[n].v)] else []
  }

  // The whole output of n packets.
  function Output(ops: seq<Op>, val: nat -> int -> Byte, n: nat): seq<Byte> {
    if n == 0 then [] else Output(ops, val, n - 1) + Emits(ops, val(n - 1))
  }

  // The output once the first pc operations of packet pkt are done.
  function Written(ops: seq<Op>, val: nat -> int -> Byte, pkt: nat, pc: nat): seq<Byte>
    requires pc <= |ops|
  {
    Output(ops, val, pkt) + Emits(ops[..pc], val(pkt))
  }

  lemma WrittenTurns(ops: seq<Op>, val: nat -> int -> Byte, pkt: nat)
    ensures Written(ops, val, pkt + 1, 0) == Written(ops, val, pkt, |ops|)
    ensures Written(ops, val, 0, 0) == []
  {
    assert ops[..0] == [] && ops[..|ops|] == ops;
  }

  // The buffers that were filled hold the values.
  ghost predicate Holds(buf: map<int, Byte>, known: set<int>, val: int -> Byte) {
    forall v :: v in known ==> v in buf && buf[v] == val(v)
  }

  ghost predicate ThreadOk(net: Net, val: nat -> int -> Byte, prog: seq<Op>, th: Thread) {
    && th.pkt <= net.pktnum
    && (th.pc < |prog| || th.pc == 0)
    && (th.pkt == net.pktnum ==> th.pc == 0)
    && (prog == [] ==> th.pkt == 0)
    && Holds(th.buf, Defs(prog[..th.pc]), val(th.pkt))
    && th.out == Written(prog, val, th.pkt, th.pc)
  }

  ghost predicate Inv(net: Net, ports: Ports, val: nat -> int -> Byte, s: State) {
    && |s.th| == |net.progs|
    && s.q.Keys == ports.Keys
    && (forall t {:trigger ThreadOk(net, val, net.progs[t], s.th[t])} ::
          0 <= t < |net.progs| ==> ThreadOk(net, val, net.progs[t], s.th[t]))
    && (forall q {:trigger QueueOk(net, ports, val, s, q)} :: q in ports ==> QueueOk(net, ports, val, s, q))
  }

  lemma InitInv(net: Net, ports: Ports, phase: seq<nat>, val: nat -> int -> Byte)
    requires WellConnected(net, ports, phase, val)
    ensures Inv(net, ports, val, Init(net, ports.Keys))
  {
    var s := Init(net, ports.Keys);
    forall t | 0 <= t < |net.progs| ensures ThreadOk(net, val, net.progs[t], s.th[t]) {
      FreshThread(net, val, net.progs[t]);
    }
    forall q | q in ports
      ensures QueueOk(net, ports, val, s, q)
    {
      assert Plugged(net, ports, phase, q);
    }
  }

  lemma FreshThread(net: Net, val: nat -> int -> Byte, prog: seq<Op>)
    ensures ThreadOk(net, val, prog, Thread(0, 0, map[], []))
  {
    WrittenTurns(prog, val, 0);
    NothingHeld(prog, val(0));
  }

  lemma DefsStep(prog: seq<Op>, i: nat)
    requires i < |prog|
    ensures Defs(prog[..i + 1]) == Defs(prog[..i]) + DefOf(prog[i])
  {
    assert prog[..i + 1][..i] == prog[..i];
  }

  lemma EmitsStep(prog: seq<Op>, i: nat, val: int -> Byte)
    requires i < |prog|
    ensures Emits(prog[..i + 1], val) == Emits(prog[..i], val) + if prog[i].Emit? then [val(prog[i].v)] else []
  {
    assert prog[..i + 1][..i] == prog[..i];
  }

  // The buffers stay equal to the values after one more operation.
  lemma BufferStep(net: Net, val: nat -> int -> Byte, op: Op, known: set<int>, th: Thread, x: Byte)
    requires Holds(th.buf, known, val(th.pkt))
    requires OpMeans(net, val, op) && UsesKnown(op, known)
    requires op.Pop? ==> x == val(th.pkt)(op.v)
    ensures Holds(BufAfter(net, op, th, x), known + DefOf(op), val(th.pkt))
  {
    match op
    case Calc(v, cs, xs) =>
      forall k | 0 <= k < |xs| ensures Lookup(th.buf)(xs[k]) == val(th.pkt)(xs[k]) {
        var y := xs[k];
        assert y in known;
      }
      CombAgrees(net.f, cs, xs, Lookup(th.buf), val(th.pkt));
    case _ =>
  }

  lemma ThreadStep(net: Net, val: nat -> int -> Byte, prog: seq<Op>, th: Thread, x: Byte)
    requires ThreadOk(net, val, prog, th) && th.pc < |prog| && th.pkt < net.pktnum
    requires OpMeans(net, val, prog[th.pc]) && UsesKnown(prog[th.pc], Defs(prog[..th.pc]))
    requires prog[th.pc].Pop? ==> x == val(th.pkt)(prog[th.pc].v)
    ensures ThreadOk(net, val, prog, Advance(net, prog, th, x))
  {
    var out := OutAfter(prog[th.pc], th);
    OutStep(val, prog, th);
    if th.pc + 1 == |prog| {
      NextPacket(net, val, prog, th.pkt, out);
    } else {
      BufferStep(net, val, prog[th.pc], Defs(prog[..th.pc]), th, x);
      NextOp(net, val, prog, th.pkt, th.pc, BufAfter(net, prog[th.pc], th, x), out);
    }
  }

  lemma NextPacket(net: Net, val: nat -> int -> Byte, prog: seq<Op>, pkt: nat, out: seq<Byte>)
    requires pkt < net.pktnum && prog != [] && out == Written(prog, val, pkt, |prog|)
    ensures ThreadOk(net, val, prog, Thread(pkt + 1, 0, map[], out))
  {
    assert out == Written(prog, val, pkt + 1, 0) by { WrittenTurns(prog, val, pkt); }
    assert Holds(map[], Defs(prog[..0]), val(pkt + 1)) by { NothingHeld(prog, val(pkt + 1)); }
  }

  lemma NothingHeld(prog: seq<Op>, val: int -> Byte)
    ensures Holds(map[], Defs(prog[..0]), val)
  {
    assert prog[..0] == [];
  }

  lemma NextOp(net: Net, val: nat -> int -> Byte, prog: seq<Op>, pkt: nat, pc: nat, buf: map<int, Byte>, out: seq<Byte>)
    requires pkt < net.pktnum && pc + 1 < |prog|
    requires Holds(buf, Defs(prog[..pc]) + DefOf(prog[pc]), val(pkt))
    requires out == Written(prog, val, pkt, pc + 1)
    ensures ThreadOk(net, val, prog, Thread(pkt, pc + 1, buf, out))
  {
    DefsStep(prog, pc);
  }

  lemma OutStep(val: nat -> int -> Byte, prog: seq<Op>, th: Thread)
    requires th.pc < |prog| && UsesKnown(prog[th.pc], Defs(prog[..th.pc]))
    requires Holds(th.buf, Defs(prog[..th.pc]), val(th.pkt))
    requires th.out == Written(prog, val, th.pkt, th.pc)
    ensures OutAfter(prog[th.pc], th) == Written(prog, val, th.pkt, th.pc + 1)
  {
    EmitsStep(prog, th.pc, val(th.pkt));
  }

  lemma QueueStep(net: Net, ports: Ports, phase: seq<nat>, val: nat -> int -> Byte, s: State, t: nat, q: Queue)
    requires q in ports && q in s.q && |s.th| == |net.progs|
    requires Plugged(net, ports, phase, q) && QueueOk(net, ports, val, s, q)
    requires Enabled(net, s, t) && AtItsPort(ports, Next(net, s, t), t, s.th[t].pc)
    requires Next(net, s, t).Push? ==> s.th[t].buf[Next(net, s, t).v] == val(s.th[t].pkt)(Next(net, s, t).v)
    ensures q in Step(net, s, t).q && QueueOk(net, ports, val, Step(net, s, t), q)
  {
    var th, p := s.th[t], ports[q];
    var th' := Step(net, s, t).th[t];
    assert forall pc: nat :: pc < |net.progs[t]| ==> Past(th', pc) == Past(th, pc) + if pc == th.pc then 1 else 0;
  }

  lemma StepInv(net: Net, ports: Ports, phase: seq<nat>, val: nat -> int -> Byte, s: State, t: nat)
    requires WellConnected(net, ports, phase, val) && Inv(net, ports, val, s) && Enabled(net, s, t)
    ensures Inv(net, ports, val, Step(net, s, t))
  {
    var th, prog := s.th[t], net.progs[t];
    var s' := Step(net, s, t);
    assert OpFits(net, ports, t, th.pc) && OpMeans(net, val, prog[th.pc]) && ThreadOk(net, val, prog, th);
    if prog[th.pc].Pop? { assert QueueOk(net, ports, val, s, prog[th.pc].q); }
    ThreadStep(net, val, prog, th, Popped(net, s, t));
    forall a | 0 <= a < |net.progs| ensures ThreadOk(net, val, net.progs[a], s'.th[a]) {
      assert ThreadOk(net, val, net.progs[a], s.th[a]);
    }
    forall q | q in ports
      ensures q in s'.q && QueueOk(net, ports, val, s', q)
    {
      assert QueueOk(net, ports, val, s, q) && Plugged(net, ports, phase, q);
      QueueStep(net, ports, phase, val, s, t, q);
    }
  }

  // ----------------------------------------------------------------- progress

  predicate Before(s: State, phase: seq<nat>, a: nat, b: nat)
    requires a < |s.th| && b < |s.th| && |phase| == |s.th|
  {
    s.th[a].pkt < s.th[b].pkt || (s.th[a].pkt == s.th[b].pkt && phase[a] < phase[b])
  }

  // From any running thread, a running thread that nothing running precedes.
  lemma {:induction false} Foremost(net: Net, s: State, phase: seq<nat>, t: nat) returns (m: nat)
    requires |s.th| == |net.progs| == |phase| && Running(net, s, t)
    ensures Running(net, s, m)
    ensures forall a :: 0 <= a < |s.th| && Running(net, s, a) ==> !Before(s, phase, a, m)
    decreases s.th[t].pkt, phase[t]
  {
    if a: nat :| a < |s.th| && Running(net, s, a) && Before(s, phase, a, t) {
      m := Foremost(net, s, phase, a);
    } else {
      m := t;
    }
  }

  // The foremost thread is never blocked: whoever should have filled its
  // queue would still run, and would be ahead of it.
  lemma ForemostMoves(net: Net, ports: Ports, phase: seq<nat>, val: nat -> int -> Byte, s: State, m: nat)
    requires WellConnected(net, ports, phase, val) && Inv(net, ports, val, s)
    requires Running(net, s, m)
    requires forall a :: 0 <= a < |s.th| && Running(net, s, a) ==> !Before(s, phase, a, m)
    ensures Enabled(net, s, m)
  {
    var th, prog := s.th[m], net.progs[m];
    assert OpFits(net, ports, m, th.pc) && ThreadOk(net, val, prog, th);
    if prog[th.pc].Pop? {
      var q := prog[th.pc].q;
      var p := ports[q];
      assert Plugged(net, ports, phase, q) && QueueOk(net, ports, val, s, q);
      assert ThreadOk(net, val, net.progs[p.src], s.th[p.src]);
      assert s.q[q] == [] ==> Running(net, s, p.src) && Before(s, phase, p.src, m);
    }
  }

  // No deadlock: as long as one thread is unfinished, one thread can move.
  lemma NoDeadlock(net: Net, ports: Ports, phase: seq<nat>, val: nat -> int -> Byte, s: State, t: nat)
    returns (m: nat)
    requires WellConnected(net, ports, phase, val) && Inv(net, ports, val, s) && Running(net, s, t)
    ensures Enabled(net, s, m)
  {
    m := Foremost(net, s, phase, t);
    ForemostMoves(net, ports, phase, val, s, m);
  }

  // -------------------------------------------------------------- whole runs

  ghost predicate Run(net: Net, queues: set<Queue>, ss: seq<State>, who: seq<nat>) {
    && |ss| == |who| + 1
    && ss[0] == Init(net, queues)
    && forall i :: 0 <= i < |who| ==> Enabled(net, ss[i], who[i]) && ss[i + 1] == Step(net, ss[i], who[i])
  }

  lemma {:induction false} RunInv(net: Net, ports: Ports, phase: seq<nat>, val: nat -> int -> Byte,
                                  ss: seq<State>, who: seq<nat>, i: nat)
    requires WellConnected(net, ports, phase, val) && Run(net, ports.Keys, ss, who) && i < |ss|
    ensures Inv(net, ports, val, ss[i])
  {
    if i == 0 {
      InitInv(net, ports, phase, val);
    } else {
      RunInv(net, ports, phase, val, ss, who, i - 1);
      StepInv(net, ports, phase, val, ss[i - 1], who[i - 1]);
    }
  }

  // Operations still to be executed.
  function Left(net: Net, prog: seq<Op>, th: Thread): int {
    (net.pktnum - th.pkt) * |prog| - th.pc
  }

  function Work(net: Net, s: State, n: nat): int
    requires n <= |s.th| == |net.progs|
  {
    if n == 0 then 0 else Work(net, s, n - 1) + Left(net, net.progs[n - 1], s.th[n - 1])
  }

  lemma {:induction false} WorkFalls(net: Net, s: State, t: nat, n: nat)
    requires |s.th| == |net.progs| && n <= |s.th| && Enabled(net, s, t)
    ensures Work(net, Step(net, s, t), n) == Work(net, s, n) - if t < n then 1 else 0
  {
    if n > 0 {
      WorkFalls(net, s, t, n - 1);
      if t == n - 1 {
        var a, b := net.pktnum - s.th[t].pkt, |net.progs[t]|;
        assert (a - 1) * b == a * b - b;
      }
    }
  }

  lemma {:induction false} WorkNonneg(net: Net, ports: Ports, val: nat -> int -> Byte, s: State, n: nat)
    requires Inv(net, ports, val, s) && n <= |s.th|
    ensures Work(net, s, n) >= 0
  {
    if n > 0 {
      WorkNonneg(net, ports, val, s, n - 1);
      var th, prog := s.th[n - 1], net.progs[n - 1];
      assert ThreadOk(net, val, prog, th);
      if th.pkt < net.pktnum {
        assert (net.pktnum - th.pkt) * |prog| >= |prog| by { Grows(net.pktnum - th.pkt, |prog|); }
      }
    }
  }

  lemma Grows(a: nat, b: nat)
    requires a >= 1
    ensures a * b >= b
  {
  }

  // Every run is finite: it cannot be longer than the work there was to do.
  lemma {:induction false} RunsAreBounded(net: Net, ports: Ports, phase: seq<nat>, val: nat -> int -> Byte,
                                          ss: seq<State>, who: seq<nat>)
    requires WellConnected(net, ports, phase, val) && Run(net, ports.Keys, ss, who)
    ensures |ss[0].th| == |net.progs| && |who| <= Work(net, ss[0], |net.progs|)
  {
    var n := |net.progs|;
    var k := 0;
    RunInv(net, ports, phase, val, ss, who, 0);
    while k < |who|
      invariant 0 <= k <= |who|
      invariant Inv(net, ports, val, ss[k])
      invariant Work(net, ss[k], n) == Work(net, ss[0], n) - k
    {
      WorkFalls(net, ss[k], who[k], n);
      RunInv(net, ports, phase, val, ss, who, k + 1);
      k := k + 1;
    }
    WorkNonneg(net, ports, val, ss[k], n);
  }

  // A run that cannot go on has finished every thread, drained every queue
  // and written every output file in full, whatever the scheduler did.
  lemma StuckMeansDone(net: Net, ports: Ports, phase: seq<nat>, val: nat -> int -> Byte,
                       ss: seq<State>, who: seq<nat>)
    requires WellConnected(net, ports, phase, val) && Run(net, ports.Keys, ss, who)
    requires forall t: nat :: !Enabled(net, ss[|who|], t)
    ensures var s := ss[|who|];
      && |s.th| == |net.progs| && s.q.Keys == ports.Keys
      && (forall t :: 0 <= t < |net.progs| ==>
            !Running(net, s, t) && s.th[t].out == Output(net.progs[t], val, net.pktnum))
      && (forall q :: q in s.q ==> s.q[q] == [])
  {
    var s := ss[|who|];
    RunInv(net, ports, phase, val, ss, who, |who|);
    forall t | 0 <= t < |net.progs|
      ensures !Running(net, s, t) && s.th[t].out == Output(net.progs[t], val, net.pktnum)
      ensures net.progs[t] != [] ==> s.th[t].pkt == net.pktnum && s.th[t].pc == 0
    {
      if Running(net, s, t) { var m := NoDeadlock(net, ports, phase, val, s, t); }
      assert ThreadOk(net, val, net.progs[t], s.th[t]);
      FinishedOutput(net, val, net.progs[t], s.th[t]);
    }
    forall q | q in s.q ensures s.q[q] == [] {
      assert Plugged(net, ports, phase, q) && QueueOk(net, ports, val, s, q);
    }
  }

  lemma FinishedOutput(net: Net, val: nat -> int -> Byte, prog: seq<Op>, th: Thread)
    requires ThreadOk(net, val, prog, th) && !(th.pkt < net.pktnum && th.pc < |prog|)
    ensures th.out == Output(prog, val, net.pktnum)
    ensures prog != [] ==> th.pkt == net.pktnum && th.pc == 0
  {
    assert prog[..0] == [];
    assert th.out == Output(prog, val, th.pkt);
    if prog == [] { NoOutput(val, net.pktnum); }
  }

  lemma {:induction false} NoOutput(val: nat -> int -> Byte, n: nat)
    ensures Output([], val, n) == []
  {
    if n > 0 { NoOutput(val, n - 1); }
  }
}
