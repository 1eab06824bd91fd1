// From a list of lines of operations, each fine on its own, to a
// well-connected network: it is enough that every queue is filled in exactly
// one line and drained in exactly one line of a later phase.
module Wiring {
  import opened GF
  import opened Network
  import opened Programs

  // src and dst name the line that fills a queue and the one that drains it.
  ghost predicate Wired(progs: seq<seq<Op>>, queues: set<Queue>, src: Queue -> nat, dst: Queue -> nat, phase: seq<nat>) {
    && EachFine(progs)
    && Rising(queues, src, dst, phase, |progs|)
    && PushedAt(progs, queues, src)
    && PoppedAt(progs, queues, dst)
  }

  ghost predicate EachFine(progs: seq<seq<Op>>) {
    forall t :: 0 <= t < |progs| ==> Fine(progs[t])
  }

  ghost predicate Rising(queues: set<Queue>, src: Queue -> nat, dst: Queue -> nat, phase: seq<nat>, n: nat) {
    && |phase| == n
    && forall q :: q in queues ==> src(q) < n && dst(q) < n && phase[src(q)] < phase[dst(q)]
  }

  ghost predicate PushHere(progs: seq<seq<Op>>, queues: set<Queue>, src: Queue -> nat, t: int, q: Queue)
    requires 0 <= t < |progs|
  {
    q in Pushes(progs[t]) <==> q in queues && src(q) == t
  }

  ghost predicate PopHere(progs: seq<seq<Op>>, queues: set<Queue>, dst: Queue -> nat, t: int, q: Queue)
    requires 0 <= t < |progs|
  {
    q in Pops(progs[t]) <==> q in queues && dst(q) == t
  }

  ghost predicate PushedAt(progs: seq<seq<Op>>, queues: set<Queue>, src: Queue -> nat) {
    forall t, q {:trigger PushHere(progs, queues, src, t, q)} :: 0 <= t < |progs| ==> PushHere(progs, queues, src, t, q)
  }

  ghost predicate PoppedAt(progs: seq<seq<Op>>, queues: set<Queue>, dst: Queue -> nat) {
    forall t, q {:trigger PopHere(progs, queues, dst, t, q)} :: 0 <= t < |progs| ==> PopHere(progs, queues, dst, t, q)
  }

  ghost function PortOf(progs: seq<seq<Op>>, src: Queue -> nat, dst: Queue -> nat, q: Queue): Port
    requires src(q) < |progs| && q in Pushes(progs[src(q)])
    requires dst(q) < |progs| && q in Pops(progs[dst(q)])
  {
    Port(Carries(q), src(q), PushPc(progs[src(q)], q), dst(q), PopPc(progs[dst(q)], q))
  }

  ghost function PortsOf(progs: seq<seq<Op>>, queues: set<Queue>, src: Queue -> nat, dst: Queue -> nat, phase: seq<nat>): Ports
    requires Wired(progs, queues, src, dst, phase)
  {
    assert forall q :: q in queues ==> PushHere(progs, queues, src, src(q), q) && PopHere(progs, queues, dst, dst(q), q);
    map q | q in queues :: PortOf(progs, src, dst, q)
  }

  lemma QueuePlugged(net: Net, queues: set<Queue>, src: Queue -> nat, dst: Queue -> nat, phase: seq<nat>, q: Queue)
    requires Wired(net.progs, queues, src, dst, phase) && q in queues
    ensures Plugged(net, PortsOf(net.progs, queues, src, dst, phase), phase, q)
  {
    assert PushHere(net.progs, queues, src, src(q), q) && PopHere(net.progs, queues, dst, dst(q), q);
    OnePush(net.progs[src(q)], q);
    OnePop(net.progs[dst(q)], q);
  }

  lemma OpPlaced(net: Net, queues: set<Queue>, src: Queue -> nat, dst: Queue -> nat, phase: seq<nat>, t: nat, i: nat)
    requires Wired(net.progs, queues, src, dst, phase) && t < |net.progs| && i < |net.progs[t]|
    ensures OpFits(net, PortsOf(net.progs, queues, src, dst, phase), t, i)
  {
    var ops := net.progs[t];
    FineAt(ops, i);
    Mentioned(ops, i);
    if ops[i].Push? { assert PushHere(net.progs, queues, src, t, ops[i].q); OnePush(ops, ops[i].q); }
    if ops[i].Pop? { assert PopHere(net.progs, queues, dst, t, ops[i].q); OnePop(ops, ops[i].q); }
  }

  lemma WiredIsConnected(net: Net, queues: set<Queue>, src: Queue -> nat, dst: Queue -> nat, phase: seq<nat>,
                         val: nat -> int -> Byte)
    requires Wired(net.progs, queues, src, dst, phase)
    requires forall t, i :: 0 <= t < |net.progs| && 0 <= i < |net.progs[t]| ==> OpMeans(net, val, net.progs[t][i])
    ensures WellConnected(net, PortsOf(net.progs, queues, src, dst, phase), phase, val)
  {
    var ports := PortsOf(net.progs, queues, src, dst, phase);
    forall q | q in ports ensures Plugged(net, ports, phase, q) {
      QueuePlugged(net, queues, src, dst, phase, q);
    }
    forall t, i | 0 <= t < |net.progs| && 0 <= i < |net.progs[t]|
      ensures OpFits(net, ports, t, i)
    {
      OpPlaced(net, queues, src, dst, phase, t, i);
    }
  }
}
