// src/ec/Task.cc and src/ec/Task.hh: how a task travels from the controller to
// a node, byte by byte.
module Codec {
  import T = Tasks

  type Octet = x: int | 0 <= x < 256

  const TASK_COMMAND_LEN: nat := 1024
  const COMPUTE_COMMAND_LEN: nat := 128

  // ---------------------------------------------------------------- integers

  predicate Int32(v: int) { -0x8000_0000 <= v < 0x8000_0000 }

  predicate AllInt32(s: seq<int>) { forall i :: 0 <= i < |s| ==> Int32(s[i]) }

  // Network byte order, two's complement.
  function EncodeInt(v: int): (b: seq<Octet>)
    requires Int32(v)
    ensures |b| == 4
  {
    var u := if v < 0 then v + 0x1_0000_0000 else v;
    [u / 0x100_0000, u / 0x1_0000 % 256, u / 0x100 % 256, u % 256]
  }

  function DecodeInt(b: seq<Octet>): (v: int)
    requires |b| == 4
    ensures Int32(v)
  {
    var p: int, q: int, r: int, s: int := b[0], b[1], b[2], b[3];
    var u := p * 0x100_0000 + q * 0x1_0000 + r * 0x100 + s;
    if u >= 0x8000_0000 then u - 0x1_0000_0000 else u
  }

  lemma IntRoundTrip(v: int)
    requires Int32(v)
    ensures DecodeInt(EncodeInt(v)) == v
  {
    var u := if v < 0 then v + 0x1_0000_0000 else v;
    OctetOff(u);
    OctetOff(u / 0x100);
    OctetOff(u / 0x1_0000);
    TwoOff(u);
    ThreeOff(u);
  }

  lemma OctetOff(u: int)
    ensures u == u / 0x100 * 0x100 + u % 0x100
  {
  }

  lemma TwoOff(u: int)
    ensures u / 0x100 / 0x100 == u / 0x1_0000
  {
  }

  lemma ThreeOff(u: int)
    ensures u / 0x1_0000 / 0x100 == u / 0x100_0000
  {
  }

  function EncodeAll(list: seq<int>): seq<Octet>
    requires AllInt32(list)
  {
    if list == [] then [] else EncodeAll(list[..|list| - 1]) + EncodeInt(list[|list| - 1])
  }

  lemma {:induction false} EncodeAllFront(list: seq<int>)
    requires AllInt32(list) && list != []
    ensures EncodeAll(list) == EncodeInt(list[0]) + EncodeAll(list[1..])
  {
    var n := |list| - 1;
    if n == 0 {
      assert list[..n] == [] && list[1..] == [];
    } else {
      var t := list[1..];
      EncodeAllFront(list[..n]);
      assert list[..n][1..] == t[..n - 1] && t[n - 1] == list[n];
      assert EncodeAll(t) == EncodeAll(t[..n - 1]) + EncodeInt(list[n]);
      Regroup(EncodeInt(list[0]), EncodeAll(t[..n - 1]), EncodeInt(list[n]));
    }
  }

  lemma Regroup(a: seq<Octet>, b: seq<Octet>, c: seq<Octet>)
    ensures (a + b) + c == a + (b + c)
  {
  }

  // ------------------------------------------------------------------ the buffer

  // The capacity after n octets, when it doubles each time a write would not
  // fit.
  function Room(capacity: nat, n: nat): (c: nat)
    requires capacity > 0
    ensures c >= n
    decreases n - capacity
  {
    if n <= capacity then capacity else Room(2 * capacity, n)
  }

  lemma {:induction false} RoomStep(capacity: nat, n: nat, more: nat)
    requires capacity > 0 && n + more <= 2 * Room(capacity, n)
    ensures Room(capacity, n + more) == if n + more > Room(capacity, n) then 2 * Room(capacity, n) else Room(capacity, n)
    decreases n - capacity
  {
    if n > capacity { RoomStep(2 * capacity, n, more); }
  }

  // A command under construction.  The capacity doubles once when a write
  // would not fit.
  class Writer {
    var cmd: array<Octet>
    var len: nat
    var maxLen: nat

    ghost predicate Valid()
      reads this
    {
      cmd.Length == maxLen && len <= maxLen && maxLen >= 4
    }

    // The capacity is what a task command of this length has grown to.
    ghost predicate Snug()
      reads this
    {
      maxLen == Room(TASK_COMMAND_LEN, len)
    }

    ghost function Contents(): (s: seq<Octet>)
      requires Valid()
      reads this, cmd
      ensures |s| == len
    {
      cmd[..len]
    }

    constructor (capacity: nat)
      requires capacity >= 4
      ensures Valid() && fresh(cmd) && Contents() == [] && maxLen == capacity
    {
      cmd := new Octet[capacity](_ => 0);
      len, maxLen := 0, capacity;
    }

    method Grow()
      requires Valid()
      modifies this
      ensures Valid() && fresh(cmd) && len == old(len) && maxLen == 2 * old(maxLen) && Contents() == old(Contents())
    {
      maxLen := maxLen * 2;
      var bigger := new Octet[maxLen](_ => 0);
      var i := 0;
      while i < len
        invariant 0 <= i <= len && bigger[..i] == cmd[..i]
        modifies bigger
      {
        bigger[i] := cmd[i];
        i := i + 1;
      }
      cmd := bigger;
    }

    // Never past the end: one doubling makes room for four octets.
    method WriteInt(value: int)
      requires Valid() && Int32(value)
      modifies this, cmd
      ensures Valid() && (cmd == old(cmd) || fresh(cmd))
      ensures Contents() == old(Contents()) + EncodeInt(value)
      ensures maxLen == if old(len) + 4 > old(maxLen) then 2 * old(maxLen) else old(maxLen)
      ensures old(Snug()) ==> Snug()
    {
      if Snug() { RoomStep(TASK_COMMAND_LEN, len, 4); }
      if len + 4 > maxLen { Grow(); }
      WriteLength(value);
    }

    // A string is preceded by its length.  It has to fit after one doubling.
    method WriteString(s: seq<Octet>)
      requires Valid() && Int32(|s|) && len + 4 + |s| <= 2 * maxLen
      modifies this, cmd
      ensures Valid() && (cmd == old(cmd) || fresh(cmd))
      ensures Contents() == old(Contents()) + EncodeInt(|s|) + s
      ensures maxLen == if old(len) + 4 + |s| > old(maxLen) then 2 * old(maxLen) else old(maxLen)
      ensures old(Snug()) ==> Snug()
    {
      if Snug() { RoomStep(TASK_COMMAND_LEN, len, 4 + |s|); }
      if len + 4 + |s| > maxLen { Grow(); }
      WriteLength(|s|);
      WriteOctets(s);
    }

    method WriteOctets(s: seq<Octet>)
      requires Valid() && len + |s| <= maxLen
      modifies `len, cmd
      ensures Valid() && len == old(len) + |s| && Contents() == old(Contents()) + s
    {
      ghost var before := Contents();
      var i := 0;
      while i < |s|
        invariant 0 <= i <= |s|
        invariant cmd[..len] == before
        invariant cmd[len..len + i] == s[..i]
        modifies cmd
      {
        cmd[len + i] := s[i];
        assert cmd[len..len + i + 1] == cmd[len..len + i] + [s[i]];
        i := i + 1;
      }
      assert cmd[..len + |s|] == cmd[..len] + cmd[len..len + |s|];
      len := len + |s|;
    }

    // The length goes where there is room already.
    method WriteLength(value: int)
      requires Valid() && Int32(value) && len + 4 <= maxLen
      modifies `len, cmd
      ensures Valid() && len == old(len) + 4 && Contents() == old(Contents()) + EncodeInt(value)
    {
      var b := EncodeInt(value);
      cmd[len], cmd[len + 1], cmd[len + 2], cmd[len + 3] := b[0], b[1], b[2], b[3];
      len := len + 4;
      assert cmd[..len] == cmd[..len - 4] + b;
    }

    method WriteAll(list: seq<int>)
      requires Valid() && AllInt32(list)
      modifies this, cmd
      ensures Valid() && (cmd == old(cmd) || fresh(cmd))
      ensures Contents() == old(Contents()) + EncodeAll(list)
      ensures old(Snug()) ==> Snug()
    {
      var i := 0;
      while i < |list|
        invariant 0 <= i <= |list| && Valid() && (cmd == old(cmd) || fresh(cmd))
        invariant Contents() == old(Contents()) + EncodeAll(list[..i])
        invariant old(Snug()) ==> Snug()
      {
        assert list[..i + 1][..i] == list[..i];
        WriteInt(list[i]);
        i := i + 1;
      }
      assert list[..i] == list;
    }
  }

  // A command being read.
  class Reader {
    const cmd: seq<Octet>
    var pos: nat

    constructor (bytes: seq<Octet>)
      ensures cmd == bytes && pos == 0
    {
      cmd, pos := bytes, 0;
    }

    ghost predicate Left(rest: seq<Octet>)
      reads this
    {
      pos <= |cmd| && cmd[pos..] == rest
    }

    method ReadInt() returns (v: int)
      requires pos + 4 <= |cmd|
      modifies this
      ensures pos == old(pos) + 4 && v == DecodeInt(cmd[old(pos)..pos])
    {
      v := DecodeInt(cmd[pos..pos + 4]);
      pos := pos + 4;
    }

    // An integer that was written is read back, and what follows it is left.
    method TakeInt(ghost v: int, ghost rest: seq<Octet>) returns (r: int)
      requires Int32(v) && Left(EncodeInt(v) + rest)
      modifies this
      ensures r == v && Left(rest)
    {
      Split(cmd, pos, EncodeInt(v), rest);
      IntRoundTrip(v);
      r := ReadInt();
    }

    // The octets up to the first zero.
    method TakeString(ghost s: seq<Octet>, ghost rest: seq<Octet>) returns (r: seq<Octet>)
      requires Int32(|s|) && Left(EncodeInt(|s|) + s + rest)
      modifies this
      ensures r == UpToZero(s) && Left(rest)
    {
      assert EncodeInt(|s|) + s + rest == EncodeInt(|s|) + (s + rest);
      var n := TakeInt(|s|, s + rest);
      r := TakeOctets(n, s, rest);
    }

    method TakeOctets(n: nat, ghost s: seq<Octet>, ghost rest: seq<Octet>) returns (r: seq<Octet>)
      requires n == |s| && Left(s + rest)
      modifies this
      ensures r == UpToZero(s) && Left(rest)
    {
      Split(cmd, pos, s, rest);
      r := UpToZero(cmd[pos..pos + n]);
      pos := pos + n;
    }

    method TakeAll(n: nat, ghost list: seq<int>, ghost rest: seq<Octet>) returns (r: seq<int>)
      requires n == |list| && AllInt32(list) && Left(EncodeAll(list) + rest)
      modifies this
      ensures r == list && Left(rest)
    {
      r := [];
      var i := 0;
      while i < n
        invariant 0 <= i <= n && r == list[..i] && Left(EncodeAll(list[i..]) + rest)
      {
        EncodeAllFront(list[i..]);
        assert list[i..][1..] == list[i + 1..];
        assert EncodeInt(list[i]) + EncodeAll(list[i + 1..]) + rest == EncodeInt(list[i]) + (EncodeAll(list[i + 1..]) + rest);
        var v := TakeInt(list[i], EncodeAll(list[i + 1..]) + rest);
        r := r + [v];
        i := i + 1;
      }
      assert EncodeAll([]) + rest == rest;
    }
  }

  lemma Split(cmd: seq<Octet>, pos: nat, a: seq<Octet>, rest: seq<Octet>)
    requires pos <= |cmd| && cmd[pos..] == a + rest
    ensures pos + |a| <= |cmd| && cmd[pos..pos + |a|] == a && cmd[pos + |a|..] == rest
  {
    assert cmd[pos..][..|a|] == a && cmd[pos..][|a|..] == rest;
  }

  function UpToZero(s: seq<Octet>): (r: seq<Octet>)
    ensures |r| <= |s| && r == s[..|r|] && 0 !in r
    ensures |r| < |s| ==> s[|r|] == 0
    ensures 0 !in s ==> r == s
  {
    if s == [] || s[0] == 0 then []
    else
      var r := UpToZero(s[1..]);
      assert s == [s[0]] + s[1..];
      [s[0]] + r
  }

  // --------------------------------------------------------------- task commands

  const ZERO: seq<Octet> := [90, 69, 82, 79]

  datatype Command =
    | ReadCmd(name: seq<Octet>, list: seq<int>, usage: seq<(bool, bool)>)
    | SendCmd(list: seq<int>, dests: seq<seq<int>>)
    | RecvCmd(list: seq<int>)
    | ComputeCmd(targets: seq<int>)
    | PersistCmd(list: seq<int>, name: seq<Octet>)

  function Bit(b: bool): int { if b then 1 else 0 }

  function UsageInts(usage: seq<(bool, bool)>): (r: seq<int>)
    ensures AllInt32(r) && |r| == 2 * |usage|
  {
    if usage == [] then [] else
      var n := |usage| - 1;
      UsageInts(usage[..n]) + [Bit(usage[n].0), Bit(usage[n].1)]
  }

  // Each destination list after its length.
  function DestInts(dests: seq<seq<int>>): seq<int> {
    if dests == [] then [] else
      var n := |dests| - 1;
      DestInts(dests[..n]) + [|dests[n]|] + dests[n]
  }

  predicate DestsOk(dests: seq<seq<int>>) { forall i :: 0 <= i < |dests| ==> Int32(|dests[i]|) && AllInt32(dests[i]) }

  lemma {:induction false} DestIntsOk(dests: seq<seq<int>>)
    requires DestsOk(dests)
    ensures AllInt32(DestInts(dests))
  {
    if dests != [] { DestIntsOk(dests[..|dests| - 1]); }
  }

  predicate ListOk(list: seq<int>) { Int32(|list|) && AllInt32(list) }

  // What a caller has to provide: 32-bit numbers, a destination list for every
  // index, a usage for every index of a block, and names that leave room.
  predicate Sendable(c: Command) {
    match c
    case ReadCmd(name, list, usage) => |name| + 8 <= 2 * TASK_COMMAND_LEN && ListOk(list) && (UpToZero(name) != ZERO ==> |usage| == |list|)
    case SendCmd(list, dests) => ListOk(list) && DestsOk(dests) && |dests| == |list|
    case RecvCmd(list) => ListOk(list)
    case ComputeCmd(targets) => ListOk(targets)
    case PersistCmd(list, name) =>
      // the name comes last, into a buffer that has grown with the list
      ListOk(list) && Int32(|name|) && PersistHead(list) + 4 + |name| <= 2 * Room(TASK_COMMAND_LEN, PersistHead(list))
  }

  // The octets before the name: the tag, the count and the list.
  function PersistHead(list: seq<int>): nat { 8 + 4 * |list| }

  function Name(s: seq<Octet>): seq<Octet>
    requires Int32(|s|)
  {
    EncodeInt(|s|) + s
  }

  function Counted(list: seq<int>): seq<Octet>
    requires ListOk(list)
  {
    EncodeInt(|list|) + EncodeAll(list)
  }

  // The octets of a command, behind its type.
  function Body(c: Command): seq<Octet>
    requires Sendable(c)
  {
    match c
    case ReadCmd(name, list, usage) => Name(name) + Counted(list) + if name != ZERO then EncodeAll(UsageInts(usage)) else []
    case SendCmd(list, dests) => DestIntsOk(dests); Counted(list) + EncodeAll(DestInts(dests))
    case RecvCmd(list) => Counted(list)
    case ComputeCmd(targets) => Counted(targets)
    case PersistCmd(list, name) => Counted(list) + Name(name)
  }

  function Tag(c: Command): (t: int)
    ensures Int32(t)
  {
    match c
    case ReadCmd(_, _, _) => 0
    case SendCmd(_, _) => 1
    case RecvCmd(_) => 2
    case ComputeCmd(_) => 3
    case PersistCmd(_, _) => 4
  }

  function Format(c: Command): seq<Octet>
    requires Sendable(c)
  {
    EncodeInt(Tag(c)) + Body(c)
  }

  // What arrives: a name ends at its first zero, and zero blocks carry no
  // usage.
  function Received(c: Command): Command {
    match c
    case ReadCmd(name, list, usage) => ReadCmd(UpToZero(name), list, if UpToZero(name) == ZERO then [] else usage)
    case PersistCmd(list, name) => PersistCmd(list, UpToZero(name))
    case _ => c
  }

  // A command arrives as it was sent exactly when its name has no zero octet
  // and, for a zero block, it has no usage.
  lemma ArrivesIntact(c: Command)
    requires Sendable(c)
    ensures Received(c) == c <==>
      match c
      case ReadCmd(name, list, usage) => 0 !in name && (name == ZERO ==> usage == [])
      case PersistCmd(list, name) => 0 !in name
      case _ => true
  {
  }

  // -------------------------------------------------------------------- building

  lemma {:induction false} EncodeAllAppend(a: seq<int>, b: seq<int>)
    requires AllInt32(a) && AllInt32(b)
    ensures AllInt32(a + b) && EncodeAll(a + b) == EncodeAll(a) + EncodeAll(b)
  {
    if b == [] {
      assert a + b == a;
    } else {
      var n := |b| - 1;
      EncodeAllAppend(a, b[..n]);
      assert (a + b)[..|a + b| - 1] == a + b[..n];
    }
  }

  method WriteCounted(w: Writer, list: seq<int>)
    requires w.Valid() && ListOk(list)
    modifies w, w.cmd
    ensures w.Valid() && (w.cmd == old(w.cmd) || fresh(w.cmd)) && (old(w.Snug()) ==> w.Snug())
    ensures w.Contents() == old(w.Contents()) + Counted(list)
  {
    w.WriteInt(|list|);
    w.WriteAll(list);
  }

  method WriteUsage(w: Writer, usage: seq<(bool, bool)>)
    requires w.Valid()
    modifies w, w.cmd
    ensures w.Valid() && w.Contents() == old(w.Contents()) + UsageFrom(usage)
  {
    ghost var before := w.Contents();
    var i := 0;
    assert before + UsageFrom(usage[..0]) == before;
    while i < |usage|
      invariant 0 <= i <= |usage| && w.Valid() && (w.cmd == old(w.cmd) || fresh(w.cmd))
      invariant w.Contents() == before + UsageFrom(usage[..i])
    {
      UsageStep(usage, i);
      Regroup(before, UsageFrom(usage[..i]), Use(usage[i]));
      WriteUse(w, usage[i]);
      i := i + 1;
    }
    assert usage[..i] == usage;
  }

  method WriteUse(w: Writer, u: (bool, bool))
    requires w.Valid()
    modifies w, w.cmd
    ensures w.Valid() && (w.cmd == old(w.cmd) || fresh(w.cmd))
    ensures w.Contents() == old(w.Contents()) + Use(u)
  {
    Regroup(w.Contents(), EncodeInt(Bit(u.0)), EncodeInt(Bit(u.1)));
    w.WriteInt(if u.0 then 1 else 0);
    w.WriteInt(if u.1 then 1 else 0);
  }

  function Use(u: (bool, bool)): seq<Octet> { EncodeInt(Bit(u.0)) + EncodeInt(Bit(u.1)) }

  lemma UsageStep(usage: seq<(bool, bool)>, i: nat)
    requires i < |usage|
    ensures UsageFrom(usage[..i + 1]) == UsageFrom(usage[..i]) + Use(usage[i])
  {
    assert usage[..i + 1][..i] == usage[..i];
    EncodeAllAppend(UsageInts(usage[..i]), [Bit(usage[i].0), Bit(usage[i].1)]);
    EncodeTwo(Bit(usage[i].0), Bit(usage[i].1));
  }

  lemma EncodeTwo(a: int, b: int)
    requires Int32(a) && Int32(b)
    ensures EncodeAll([a, b]) == EncodeInt(a) + EncodeInt(b)
  {
    assert [a, b][..1] == [a] && [a][..0] == [];
    assert EncodeAll([a]) == [] + EncodeInt(a);
  }

  method WriteDests(w: Writer, dests: seq<seq<int>>)
    requires w.Valid() && DestsOk(dests)
    modifies w, w.cmd
    ensures w.Valid() && AllInt32(DestInts(dests)) && w.Contents() == old(w.Contents()) + EncodeAll(DestInts(dests))
  {
    var i := 0;
    while i < |dests|
      invariant 0 <= i <= |dests| && w.Valid() && (w.cmd == old(w.cmd) || fresh(w.cmd)) && AllInt32(DestInts(dests[..i]))
      invariant w.Contents() == old(w.Contents()) + EncodeAll(DestInts(dests[..i]))
    {
      NextDest(dests, i);
      WriteCounted(w, dests[i]);
      i := i + 1;
    }
    assert dests[..i] == dests;
  }

  lemma NextDest(dests: seq<seq<int>>, i: nat)
    requires DestsOk(dests) && i < |dests|
    ensures AllInt32(DestInts(dests[..i])) && AllInt32(DestInts(dests[..i + 1]))
    ensures EncodeAll(DestInts(dests[..i + 1])) == EncodeAll(DestInts(dests[..i])) + Counted(dests[i])
  {
    var a, d := DestInts(dests[..i]), dests[i];
    assert dests[..i + 1][..i] == dests[..i];
    DestIntsOk(dests[..i]);
    EncodeAllAppend(a, [|d|]);
    EncodeAllAppend(a + [|d|], d);
    assert [|d|][..0] == [];
    assert EncodeAll([|d|]) == [] + EncodeInt(|d|);
    assert DestInts(dests[..i + 1]) == a + [|d|] + d;
  }

  method BuildRead(w: Writer, name: seq<Octet>, list: seq<int>, usage: seq<(bool, bool)>)
    requires w.Valid() && Sendable(ReadCmd(name, list, usage)) && w.len == 4 && w.maxLen == TASK_COMMAND_LEN
    modifies w, w.cmd
    ensures w.Valid() && w.Contents() == old(w.Contents()) + Body(ReadCmd(name, list, usage))
  {
    ghost var before := w.Contents();
    Regroup(before, EncodeInt(|name|), name);
    Regroup(before, Name(name), Counted(list));
    w.WriteString(name);
    WriteCounted(w, list);
    if name != ZERO {
      Regroup(before, Name(name) + Counted(list), UsageFrom(usage));
      WriteUsage(w, usage);
    }
  }

  method BuildSend(w: Writer, list: seq<int>, dests: seq<seq<int>>)
    requires w.Valid() && Sendable(SendCmd(list, dests))
    modifies w, w.cmd
    ensures w.Valid() && w.Contents() == old(w.Contents()) + Body(SendCmd(list, dests))
  {
    WriteCounted(w, list);
    WriteDests(w, dests);
  }

  method BuildPersist(w: Writer, list: seq<int>, name: seq<Octet>)
    requires w.Valid() && Sendable(PersistCmd(list, name)) && w.Snug() && w.len == 4
    modifies w, w.cmd
    ensures w.Valid() && w.Contents() == old(w.Contents()) + Body(PersistCmd(list, name))
  {
    WriteCounted(w, list);
    EncodedLength(list);
    w.WriteString(name);
  }

  lemma {:induction false} EncodedLength(list: seq<int>)
    requires AllInt32(list)
    ensures |EncodeAll(list)| == 4 * |list|
  {
    if list != [] { EncodedLength(list[..|list| - 1]); }
  }

  // The octets of a task, in a buffer that never overflows.
  method BuildCommand(c: Command) returns (w: Writer)
    requires Sendable(c)
    ensures fresh(w) && w.Valid() && w.Contents() == Format(c)
  {
    w := new Writer(TASK_COMMAND_LEN);
    w.WriteLength(Tag(c));
    assert w.Contents() == EncodeInt(Tag(c));
    match c
    case ReadCmd(name, list, usage) => BuildRead(w, name, list, usage);
    case SendCmd(list, dests) => BuildSend(w, list, dests);
    case RecvCmd(list) => WriteCounted(w, list);
    case ComputeCmd(targets) => WriteCounted(w, targets);
    case PersistCmd(list, name) => BuildPersist(w, list, name);
  }

  // ------------------------------------------------------------------- resolving

  method TakeCounted(r: Reader, ghost list: seq<int>, ghost rest: seq<Octet>) returns (got: seq<int>)
    requires ListOk(list) && r.Left(Counted(list) + rest)
    modifies r
    ensures got == list && r.Left(rest)
  {
    assert Counted(list) + rest == EncodeInt(|list|) + (EncodeAll(list) + rest);
    var n := r.TakeInt(|list|, EncodeAll(list) + rest);
    got := r.TakeAll(n, list, rest);
  }

  function UsageFrom(usage: seq<(bool, bool)>): seq<Octet>
    ensures usage == [] ==> UsageFrom(usage) == []
  {
    EncodeAll(UsageInts(usage))
  }

  lemma {:induction false} UsageFront(usage: seq<(bool, bool)>)
    requires usage != []
    ensures UsageFrom(usage) == EncodeInt(Bit(usage[0].0)) + (EncodeInt(Bit(usage[0].1)) + UsageFrom(usage[1..]))
  {
    UsageIntsFront(usage);
    var a, b, t := Bit(usage[0].0), Bit(usage[0].1), UsageInts(usage[1..]);
    EncodeAllAppend([a, b], t);
    EncodeTwo(a, b);
  }

  lemma {:induction false} UsageIntsFront(usage: seq<(bool, bool)>)
    requires usage != []
    ensures UsageInts(usage) == [Bit(usage[0].0), Bit(usage[0].1)] + UsageInts(usage[1..])
  {
    var n := |usage| - 1;
    if n > 0 {
      UsageIntsFront(usage[..n]);
      assert usage[..n][1..] == usage[1..][..n - 1];
    }
  }

  method TakeUsage(r: Reader, n: nat, ghost usage: seq<(bool, bool)>, ghost rest: seq<Octet>) returns (got: seq<(bool, bool)>)
    requires n == |usage| && r.Left(UsageFrom(usage) + rest)
    modifies r
    ensures got == usage && r.Left(rest)
  {
    got := [];
    var i := 0;
    while i < n
      invariant 0 <= i <= n && got == usage[..i] && r.Left(UsageFrom(usage[i..]) + rest)
    {
      ghost var u, tail := usage[i], UsageFrom(usage[i + 1..]) + rest;
      UsageFront(usage[i..]);
      assert usage[i..][1..] == usage[i + 1..];
      assert UsageFrom(usage[i..]) + rest == EncodeInt(Bit(u.0)) + (EncodeInt(Bit(u.1)) + tail);
      var same := r.TakeInt(Bit(u.0), EncodeInt(Bit(u.1)) + tail);
      var diff := r.TakeInt(Bit(u.1), tail);
      got := got + [(same == 1, diff == 1)];
      i := i + 1;
    }
    assert [] + rest == rest;
  }

  function DestsFrom(dests: seq<seq<int>>): seq<Octet>
    requires DestsOk(dests)
  {
    DestIntsOk(dests);
    EncodeAll(DestInts(dests))
  }

  lemma {:induction false} DestIntsFront(dests: seq<seq<int>>)
    requires dests != []
    ensures DestInts(dests) == ([|dests[0]|] + dests[0]) + DestInts(dests[1..])
  {
    var n := |dests| - 1;
    if n > 0 {
      var t := dests[1..];
      DestIntsFront(dests[..n]);
      assert t[..n - 1] == dests[..n][1..] && t[n - 1] == dests[n];
    }
  }

  lemma DestsFront(dests: seq<seq<int>>)
    requires DestsOk(dests) && dests != []
    ensures DestsFrom(dests) == Counted(dests[0]) + DestsFrom(dests[1..])
  {
    var d, t := dests[0], DestInts(dests[1..]);
    DestIntsFront(dests);
    DestIntsOk(dests[1..]);
    EncodeAllAppend([|d|] + d, t);
    EncodeAllAppend([|d|], d);
    assert [|d|][..0] == [];
    assert EncodeAll([|d|]) == [] + EncodeInt(|d|);
  }

  method TakeDests(r: Reader, n: nat, ghost dests: seq<seq<int>>, ghost rest: seq<Octet>) returns (got: seq<seq<int>>)
    requires DestsOk(dests) && n == |dests| && r.Left(DestsFrom(dests) + rest)
    modifies r
    ensures got == dests && r.Left(rest)
  {
    got := [];
    var i := 0;
    while i < n
      invariant 0 <= i <= n && got == dests[..i] && r.Left(DestsFrom(dests[i..]) + rest)
    {
      DestsFront(dests[i..]);
      assert dests[i..][1..] == dests[i + 1..];
      assert Counted(dests[i]) + DestsFrom(dests[i + 1..]) + rest == Counted(dests[i]) + (DestsFrom(dests[i + 1..]) + rest);
      var list := TakeCounted(r, dests[i], DestsFrom(dests[i + 1..]) + rest);
      got := got + [list];
      i := i + 1;
    }
    assert DestsFrom([]) + rest == rest;
  }

  method ResolveRead(r: Reader, ghost c: Command, ghost rest: seq<Octet>) returns (got: Command)
    requires c.ReadCmd? && Sendable(c) && r.Left(Body(c) + rest)
    modifies r
    ensures got == Received(c)
  {
    ghost var tail := if c.name != ZERO then UsageFrom(c.usage) else [];
    Regroup(Name(c.name) + Counted(c.list), tail, rest);
    Regroup(Name(c.name), Counted(c.list), tail + rest);
    var name := r.TakeString(c.name, Counted(c.list) + (tail + rest));
    var list := TakeCounted(r, c.list, tail + rest);
    var usage: seq<(bool, bool)> := [];
    if name != ZERO {
      usage := TakeUsage(r, |list|, c.usage, rest);
    }
    got := ReadCmd(name, list, usage);
  }

  method ResolveSend(r: Reader, ghost c: Command, ghost rest: seq<Octet>) returns (got: Command)
    requires c.SendCmd? && Sendable(c) && r.Left(Body(c) + rest)
    modifies r
    ensures got == c && r.Left(rest)
  {
    Regroup(Counted(c.list), DestsFrom(c.dests), rest);
    var list := TakeCounted(r, c.list, DestsFrom(c.dests) + rest);
    var dests := TakeDests(r, |list|, c.dests, rest);
    got := SendCmd(list, dests);
  }

  method ResolvePersist(r: Reader, ghost c: Command, ghost rest: seq<Octet>) returns (got: Command)
    requires c.PersistCmd? && Sendable(c) && r.Left(Body(c) + rest)
    modifies r
    ensures got == Received(c) && r.Left(rest)
  {
    Regroup(Counted(c.list), Name(c.name), rest);
    var list := TakeCounted(r, c.list, Name(c.name) + rest);
    var name := r.TakeString(c.name, rest);
    got := PersistCmd(list, name);
  }

  // Whatever was built is resolved to the same task, up to the end of a name
  // at a zero octet and the usage of what then is a zero block.
  method Resolve(bytes: seq<Octet>, ghost c: Command) returns (got: Command)
    requires Sendable(c) && bytes == Format(c)
    ensures got == Received(c)
  {
    var r := new Reader(bytes);
    assert bytes[0..] == bytes && Format(c) == EncodeInt(Tag(c)) + Body(c) && Body(c) == Body(c) + [];
    var tag := r.TakeInt(Tag(c), Body(c));
    match tag {
      case 0 => got := ResolveRead(r, c, []);
      case 1 => got := ResolveSend(r, c, []);
      case 2 => var list := TakeCounted(r, c.list, []); got := RecvCmd(list);
      case 3 => var targets := TakeCounted(r, c.targets, []); got := ComputeCmd(targets);
      case _ => got := ResolvePersist(r, c, []);
    }
  }

  // --------------------------------------------------------------- compute items

  predicate ItemOk(x: T.Item) {
    Int32(x.dst) && ListOk(x.srcs) && AllInt32(x.coefs) && |x.coefs| == |x.srcs|
  }

  // The number of coefficients is not written: the reader takes it to be the
  // number of sources.
  function FormatItem(x: T.Item): seq<Octet>
    requires ItemOk(x)
  {
    EncodeInt(x.dst) + (Counted(x.srcs) + (EncodeAll(x.coefs) + Use((x.same, x.diff))))
  }

  method BuildItem(x: T.Item) returns (w: Writer)
    requires ItemOk(x)
    ensures fresh(w) && w.Valid() && w.Contents() == FormatItem(x)
  {
    w := new Writer(COMPUTE_COMMAND_LEN);
    w.WriteInt(x.dst);
    WriteCounted(w, x.srcs);
    w.WriteAll(x.coefs);
    WriteUse(w, (x.same, x.diff));
    Regroup(Counted(x.srcs), EncodeAll(x.coefs), Use((x.same, x.diff)));
    Regroup(EncodeInt(x.dst), Counted(x.srcs), EncodeAll(x.coefs));
    Regroup(EncodeInt(x.dst), Counted(x.srcs) + EncodeAll(x.coefs), Use((x.same, x.diff)));
    assert [] + EncodeInt(x.dst) == EncodeInt(x.dst);
  }

  method ResolveItem(bytes: seq<Octet>, ghost x: T.Item) returns (got: T.Item)
    requires ItemOk(x) && bytes == FormatItem(x)
    ensures got == x
  {
    var r := new Reader(bytes);
    ghost var use := Use((x.same, x.diff));
    assert bytes[0..] == bytes;
    var dst := r.TakeInt(x.dst, Counted(x.srcs) + (EncodeAll(x.coefs) + use));
    var srcs := TakeCounted(r, x.srcs, EncodeAll(x.coefs) + use);
    var coefs := r.TakeAll(|srcs|, x.coefs, use);
    var same := r.TakeInt(Bit(x.same), EncodeInt(Bit(x.diff)));
    assert EncodeInt(Bit(x.diff)) == EncodeInt(Bit(x.diff)) + [];
    var diff := r.TakeInt(Bit(x.diff), []);
    got := T.Item(dst, srcs, coefs, same != 0, diff != 0);
  }

  // Items travel one by one, each under a key made of its target; the lists
  // under the keys are first in, first out.
  type Channel = map<int, seq<seq<Octet>>>

  predicate ItemsOk(items: seq<T.Item>) { forall i :: 0 <= i < |items| ==> ItemOk(items[i]) }

  // What waits under key d when the items from the i-th on were not yet taken.
  function Waiting(items: seq<T.Item>, d: int): seq<seq<Octet>>
    requires ItemsOk(items)
  {
    if items == [] then [] else
      (if items[0].dst == d then [FormatItem(items[0])] else []) + Waiting(items[1..], d)
  }

  lemma {:induction false} WaitingLast(items: seq<T.Item>, d: int)
    requires ItemsOk(items) && items != []
    ensures var n := |items| - 1;
      Waiting(items, d) == Waiting(items[..n], d) + if items[n].dst == d then [FormatItem(items[n])] else []
  {
    var n := |items| - 1;
    if n > 0 {
      var t := items[1..];
      WaitingLast(t, d);
      assert t[..n - 1] == items[..n][1..] && t[n - 1] == items[n];
      WaitingFirst(items, d);
      WaitingFirst(items[..n], d);
    }
  }

  lemma WaitingFirst(items: seq<T.Item>, d: int)
    requires ItemsOk(items) && items != []
    ensures Waiting(items, d) == (if items[0].dst == d then [FormatItem(items[0])] else []) + Waiting(items[1..], d)
  {
  }

  function At(ch: Channel, d: int): seq<seq<Octet>> { if d in ch then ch[d] else [] }

  ghost predicate Carries(ch: Channel, items: seq<T.Item>)
    requires ItemsOk(items)
  {
    forall d {:trigger At(ch, d)} :: At(ch, d) == Waiting(items, d)
  }

  method SendItems(items: seq<T.Item>) returns (ch: Channel)
    requires ItemsOk(items)
    ensures Carries(ch, items)
  {
    ch := map[];
    var i := 0;
    while i < |items|
      invariant 0 <= i <= |items| && Carries(ch, items[..i])
    {
      var w := BuildItem(items[i]);
      var d := items[i].dst;
      PutLast(items, i, ch);
      ch := ch[d := At(ch, d) + [w.cmd[..w.len]]];
      i := i + 1;
    }
    assert items[..i] == items;
  }

  lemma PutLast(items: seq<T.Item>, i: nat, ch: Channel)
    requires ItemsOk(items) && i < |items| && Carries(ch, items[..i])
    ensures var d := items[i].dst; Carries(ch[d := At(ch, d) + [FormatItem(items[i])]], items[..i + 1])
  {
    var d := items[i].dst;
    var after := ch[d := At(ch, d) + [FormatItem(items[i])]];
    forall e ensures At(after, e) == Waiting(items[..i + 1], e) {
      WaitingLast(items[..i + 1], e);
      assert items[..i + 1][..i] == items[..i];
      assert At(ch, e) == Waiting(items[..i], e);
    }
  }

  // The items come back in the order in which they were sent, even when two of
  // them have the same target.
  method ResolveItems(targets: seq<int>, ch0: Channel, ghost items: seq<T.Item>) returns (got: seq<T.Item>)
    requires ItemsOk(items) && |targets| == |items| && forall i :: 0 <= i < |items| ==> targets[i] == items[i].dst
    requires Carries(ch0, items)
    ensures got == items
  {
    var ch := ch0;
    got := [];
    var i := 0;
    assert items[0..] == items;
    while i < |targets|
      invariant 0 <= i <= |targets| && got == items[..i] && Carries(ch, items[i..])
    {
      var d := targets[i];
      TakeFirst(items, i, ch);
      var x := ResolveItem(ch[d][0], items[i]);
      ch := ch[d := ch[d][1..]];
      got := got + [x];
      i := i + 1;
    }
  }

  lemma TakeFirst(items: seq<T.Item>, i: nat, ch: Channel)
    requires ItemsOk(items) && i < |items| && Carries(ch, items[i..])
    ensures var d := items[i].dst;
      d in ch && ch[d] != [] && ch[d][0] == FormatItem(items[i]) && Carries(ch[d := ch[d][1..]], items[i + 1..])
  {
    var d := items[i].dst;
    assert items[i..][1..] == items[i + 1..];
    assert At(ch, d) == [FormatItem(items[i])] + Waiting(items[i + 1..], d);
    var after := ch[d := ch[d][1..]];
    forall e ensures At(after, e) == Waiting(items[i + 1..], e) {
      assert At(ch, e) == Waiting(items[i..], e);
      assert [] + Waiting(items[i + 1..], e) == Waiting(items[i + 1..], e);
    }
  }
}
