// src/ec/Task.cc, the octets of each command where another implementation would
// look for them. Nothing here is stated through the functions that build a
// command.
module Wire {
  import opened Util
  import opened Codec
  import T = Tasks

  // The number that octets stand for, the highest first.
  function Value(s: seq<Octet>): int { if s == [] then 0 else 0x100 * Value(s[..|s| - 1]) + s[|s| - 1] }

  // Four octets at position at hold v, in two's complement.
  predicate IntAt(s: seq<Octet>, at: nat, v: int) {
    at + 4 <= |s| && Value(s[at..at + 4]) == if v < 0 then v + 0x1_0000_0000 else v
  }

  predicate IntsAt(s: seq<Octet>, at: nat, list: seq<int>) {
    forall i :: 0 <= i < |list| ==> IntAt(s, at + 4 * i, list[i])
  }

  lemma IntsGive(s: seq<Octet>, at: nat, list: seq<int>, i: nat, place: nat, v: int)
    requires IntsAt(s, at, list) && i < |list| && place == at + 4 * i && v == list[i]
    ensures IntAt(s, place, v)
  {
  }

  predicate OctetsAt(s: seq<Octet>, at: nat, t: seq<Octet>) { at + |t| <= |s| && s[at..at + |t|] == t }

  lemma BigEndian(v: int)
    requires Int32(v)
    ensures IntAt(EncodeInt(v), 0, v)
  {
    var u := if v < 0 then v + 0x1_0000_0000 else v;
    OctetOff(u);
    OctetOff(u / 0x100);
    OctetOff(u / 0x1_0000);
    TwoOff(u);
    ThreeOff(u);
    FourOctets(EncodeInt(v));
  }

  lemma FourOctets(s: seq<Octet>)
    requires |s| == 4
    ensures s[0..4] == s
    ensures var a: int, b: int, c: int, d: int := s[0], s[1], s[2], s[3]; Value(s) == a * 0x100_0000 + b * 0x1_0000 + c * 0x100 + d
  {
    var a: int, b: int, c: int := s[0], s[1], s[2];
    assert s[..3][..2] == s[..2] && s[..2][..1] == s[..1] && s[..1][..0] == [];
    assert Value(s[..1]) == a;
    assert Value(s[..2]) == a * 0x100 + b;
    assert Value(s[..3]) == a * 0x1_0000 + b * 0x100 + c;
  }

  lemma IntIn(a: seq<Octet>, v: int, b: seq<Octet>, s: seq<Octet>)
    requires Int32(v) && s == a + EncodeInt(v) + b
    ensures IntAt(s, |a|, v)
  {
    BigEndian(v);
    var e := EncodeInt(v);
    assert s[|a|..|a| + 4] == e && e[0..4] == e;
  }

  lemma {:induction false} ListIn(a: seq<Octet>, list: seq<int>, b: seq<Octet>, s: seq<Octet>)
    requires AllInt32(list) && s == a + EncodeAll(list) + b
    ensures IntsAt(s, |a|, list) && |EncodeAll(list)| == 4 * |list|
  {
    if list != [] {
      var n := |list| - 1;
      var front, last := EncodeAll(list[..n]), EncodeInt(list[n]);
      assert s == a + front + (last + b);
      ListIn(a, list[..n], last + b, s);
      assert s == (a + front) + last + b;
      IntIn(a + front, list[n], b, s);
      forall i | 0 <= i < |list| ensures IntAt(s, |a| + 4 * i, list[i]) {
        if i < n { IntsGive(s, |a|, list[..n], i, |a| + 4 * i, list[i]); }
      }
    }
  }

  lemma CountedIn(a: seq<Octet>, list: seq<int>, b: seq<Octet>, s: seq<Octet>)
    requires ListOk(list) && s == a + Counted(list) + b
    ensures IntAt(s, |a|, |list|) && IntsAt(s, |a| + 4, list) && |s| == |a| + 4 + 4 * |list| + |b|
  {
    var head, ints := EncodeInt(|list|), EncodeAll(list);
    assert s == a + head + (ints + b);
    IntIn(a, |list|, ints + b, s);
    assert s == (a + head) + ints + b;
    ListIn(a + head, list, b, s);
  }

  lemma NameIn(a: seq<Octet>, name: seq<Octet>, b: seq<Octet>, s: seq<Octet>)
    requires Int32(|name|) && s == a + Name(name) + b
    ensures IntAt(s, |a|, |name|) && OctetsAt(s, |a| + 4, name) && |s| == |a| + 4 + |name| + |b|
  {
    assert s == a + EncodeInt(|name|) + (name + b);
    IntIn(a, |name|, name + b, s);
  }

  // A read: 0, the name of the block, the sub-packets, and for each of them,
  // unless the block is a zero block, whether its own node uses it and whether
  // another does.
  lemma ReadFields(name: seq<Octet>, list: seq<int>, usage: seq<(bool, bool)>) returns (end: nat)
    requires Sendable(ReadCmd(name, list, usage))
    ensures end == 12 + |name| + 4 * |list|
    ensures var s := Format(ReadCmd(name, list, usage));
      && IntAt(s, 0, 0) && IntAt(s, 4, |name|) && OctetsAt(s, 8, name)
      && IntAt(s, 8 + |name|, |list|) && IntsAt(s, 12 + |name|, list)
      && (name == ZERO ==> |s| == end)
      && (name != ZERO ==> |s| == end + 8 * |usage| && UsesAt(s, end, usage))
  {
    var s := Format(ReadCmd(name, list, usage));
    var ints := UsageInts(usage);
    var more := if name != ZERO then EncodeAll(ints) else [];
    var start := ReadStart(name, list, more, s);
    end := |start|;
    if name != ZERO {
      assert s == start + EncodeAll(ints) + [];
      ListIn(start, ints, [], s);
      UsePlaces(usage, ints, s, end);
    }
  }

  lemma ReadStart(name: seq<Octet>, list: seq<int>, more: seq<Octet>, s: seq<Octet>) returns (start: seq<Octet>)
    requires Int32(|name|) && ListOk(list) && s == EncodeInt(0) + (Name(name) + Counted(list) + more)
    ensures IntAt(s, 0, 0) && IntAt(s, 4, |name|) && OctetsAt(s, 8, name)
    ensures IntAt(s, 8 + |name|, |list|) && IntsAt(s, 12 + |name|, list)
    ensures s == start + more && |start| == 12 + |name| + 4 * |list|
  {
    var tag, n, c := EncodeInt(0), Name(name), Counted(list);
    start := tag + n + c;
    Join3([], tag, n + c + more, s);
    IntIn([], 0, n + c + more, s);
    assert s == tag + n + (c + more);
    NameIn(tag, name, c + more, s);
    assert s == (tag + n) + c + more;
    CountedIn(tag + n, list, more, s);
  }

  lemma Join3(a: seq<Octet>, b: seq<Octet>, c: seq<Octet>, s: seq<Octet>)
    requires s == a + (b + c)
    ensures s == a + b + c
  {
  }

  predicate UsesAt(s: seq<Octet>, at: nat, usage: seq<(bool, bool)>) {
    forall i :: 0 <= i < |usage| ==> UseAt(s, at + 8 * i, usage[i])
  }

  predicate UseAt(s: seq<Octet>, at: nat, u: (bool, bool)) {
    IntAt(s, at, if u.0 then 1 else 0) && IntAt(s, at + 4, if u.1 then 1 else 0)
  }

  lemma UsePlaces(usage: seq<(bool, bool)>, ints: seq<int>, s: seq<Octet>, at: nat)
    requires ints == UsageInts(usage) && IntsAt(s, at, ints)
    ensures UsesAt(s, at, usage)
  {
    forall i | 0 <= i < |usage| ensures UseAt(s, at + 8 * i, usage[i]) { UsePlace(usage, ints, i, s, at, 2 * i, at + 8 * i); }
  }

  lemma UsePlace(usage: seq<(bool, bool)>, ints: seq<int>, i: nat, s: seq<Octet>, at: nat, k: nat, place: nat)
    requires i < |usage| && ints == UsageInts(usage) && IntsAt(s, at, ints) && k == 2 * i && place == at + 8 * i
    ensures UseAt(s, place, usage[i])
  {
    UsageAt(usage, i);
    IntsGive(s, at, ints, k, place, if usage[i].0 then 1 else 0);
    IntsGive(s, at, ints, k + 1, place + 4, if usage[i].1 then 1 else 0);
  }

  lemma {:induction false} UsageAt(usage: seq<(bool, bool)>, i: nat)
    requires i < |usage|
    ensures UsageInts(usage)[2 * i] == (if usage[i].0 then 1 else 0) && UsageInts(usage)[2 * i + 1] == (if usage[i].1 then 1 else 0)
  {
    var n := |usage| - 1;
    if i < n { UsageAt(usage[..n], i); }
  }

  // A send: 1, the sub-packets, and for each of them, in order, how many nodes
  // get it and which.
  lemma SendFields(list: seq<int>, dests: seq<seq<int>>)
    requires Sendable(SendCmd(list, dests))
    ensures var s, at := Format(SendCmd(list, dests)), 8 + 4 * |list|;
      && IntAt(s, 0, 1) && IntAt(s, 4, |list|) && IntsAt(s, 8, list) && |s| == at + 4 * Before(dests, |dests|)
      && DestsAt(s, at, dests)
  {
    DestIntsOk(dests);
    var s := Format(SendCmd(list, dests));
    var all := DestInts(dests);
    var start := SendStart(list, EncodeAll(all), s);
    assert s == start + EncodeAll(all) + [];
    ListIn(start, all, [], s);
    DestsLength(dests);
    DestPlaces(dests, all, s, |start|);
  }

  lemma SendStart(list: seq<int>, more: seq<Octet>, s: seq<Octet>) returns (start: seq<Octet>)
    requires ListOk(list) && s == EncodeInt(1) + (Counted(list) + more)
    ensures IntAt(s, 0, 1) && IntAt(s, 4, |list|) && IntsAt(s, 8, list)
    ensures s == start + more && |start| == 8 + 4 * |list|
  {
    var tag, c := EncodeInt(1), Counted(list);
    start := tag + c;
    Join3([], tag, c + more, s);
    IntIn([], 1, c + more, s);
    Join3(tag, c, more, s);
    CountedIn(tag, list, more, s);
  }

  predicate DestAt(s: seq<Octet>, at: nat, d: seq<int>) { IntAt(s, at, |d|) && IntsAt(s, at + 4, d) }

  predicate DestsAt(s: seq<Octet>, at: nat, dests: seq<seq<int>>) {
    forall i :: 0 <= i < |dests| ==> DestAt(s, at + 4 * Before(dests, i), dests[i])
  }

  lemma DestPlaces(dests: seq<seq<int>>, all: seq<int>, s: seq<Octet>, at: nat)
    requires all == DestInts(dests) && IntsAt(s, at, all)
    ensures DestsAt(s, at, dests)
  {
    forall i | 0 <= i < |dests| ensures DestAt(s, at + 4 * Before(dests, i), dests[i]) {
      DestPlace(dests, all, i, s, at, at + 4 * Before(dests, i));
    }
  }

  // The integers that stand before the i-th destination list.
  function Before(dests: seq<seq<int>>, i: nat): nat
    requires i <= |dests|
  {
    if i == 0 then 0 else Before(dests, i - 1) + 1 + |dests[i - 1]|
  }

  lemma {:induction false} SameBefore(dests: seq<seq<int>>, n: nat, i: nat)
    requires i <= n <= |dests|
    ensures Before(dests[..n], i) == Before(dests, i)
  {
    if i > 0 { SameBefore(dests, n, i - 1); }
  }

  lemma {:induction false} DestsLength(dests: seq<seq<int>>)
    ensures |DestInts(dests)| == Before(dests, |dests|)
  {
    if dests != [] {
      var n := |dests| - 1;
      DestsLength(dests[..n]);
      SameBefore(dests, n, n);
    }
  }

  lemma {:induction false} DestsPrefix(dests: seq<seq<int>>, i: nat)
    requires i < |dests|
    ensures DestInts(dests[..i]) + [|dests[i]|] + dests[i] <= DestInts(dests)
  {
    var n := |dests| - 1;
    if i < n {
      DestsPrefix(dests[..n], i);
      assert dests[..n][..i] == dests[..i];
    }
  }

  lemma DestPlace(dests: seq<seq<int>>, all: seq<int>, i: nat, s: seq<Octet>, at: nat, place: nat)
    requires i < |dests| && all == DestInts(dests) && IntsAt(s, at, all) && place == at + 4 * Before(dests, i)
    ensures DestAt(s, place, dests[i])
  {
    DestsPrefix(dests, i);
    DestsLength(dests[..i]);
    SameBefore(dests, i, i);
    var o := Before(dests, i);
    IntsGive(s, at, all, o, place, |dests[i]|);
    forall k | 0 <= k < |dests[i]| ensures IntAt(s, place + 4 + 4 * k, dests[i][k]) {
      IntsGive(s, at, all, o + 1 + k, place + 4 + 4 * k, dests[i][k]);
    }
  }

  // A receive and a compute: 2 or 3, and the sub-packets.
  lemma ListFields(list: seq<int>)
    requires ListOk(list)
    ensures var s := Format(RecvCmd(list)); IntAt(s, 0, 2) && IntAt(s, 4, |list|) && IntsAt(s, 8, list) && |s| == 8 + 4 * |list|
    ensures var s := Format(ComputeCmd(list)); IntAt(s, 0, 3) && IntAt(s, 4, |list|) && IntsAt(s, 8, list) && |s| == 8 + 4 * |list|
  {
    TaggedList(2, list, Format(RecvCmd(list)));
    TaggedList(3, list, Format(ComputeCmd(list)));
  }

  lemma TaggedList(tag: int, list: seq<int>, s: seq<Octet>)
    requires Int32(tag) && ListOk(list) && s == EncodeInt(tag) + Counted(list)
    ensures IntAt(s, 0, tag) && IntAt(s, 4, |list|) && IntsAt(s, 8, list) && |s| == 8 + 4 * |list|
  {
    assert s == [] + EncodeInt(tag) + Counted(list);
    IntIn([], tag, Counted(list), s);
    assert s == EncodeInt(tag) + Counted(list) + [];
    CountedIn(EncodeInt(tag), list, [], s);
  }

  // A persist: 4, the sub-packets to collect, and the name of the new block.
  lemma PersistFields(list: seq<int>, name: seq<Octet>)
    requires Sendable(PersistCmd(list, name))
    ensures var s, at := Format(PersistCmd(list, name)), 8 + 4 * |list|;
      && IntAt(s, 0, 4) && IntAt(s, 4, |list|) && IntsAt(s, 8, list)
      && IntAt(s, at, |name|) && OctetsAt(s, at + 4, name) && |s| == at + 4 + |name|
  {
    var s := Format(PersistCmd(list, name));
    assert s == [] + EncodeInt(4) + (Counted(list) + Name(name));
    IntIn([], 4, Counted(list) + Name(name), s);
    assert s == EncodeInt(4) + Counted(list) + Name(name);
    CountedIn(EncodeInt(4), list, Name(name), s);
    assert s == (EncodeInt(4) + Counted(list)) + Name(name) + [];
    NameIn(EncodeInt(4) + Counted(list), name, [], s);
  }

  // A compute item: the target, the sources, one coefficient for each of them,
  // and whether its own node and another use the result.
  lemma ItemFields(x: T.Item) returns (mid: nat, end: nat)
    requires ItemOk(x)
    ensures mid == 8 + 4 * |x.srcs| && end == mid + 4 * |x.coefs|
    ensures var s := FormatItem(x);
      && IntAt(s, 0, x.dst) && IntAt(s, 4, |x.srcs|) && IntsAt(s, 8, x.srcs) && IntsAt(s, mid, x.coefs)
      && UseAt(s, end, (x.same, x.diff)) && |s| == end + 8
  {
    var s := FormatItem(x);
    var dst, c, k, u := EncodeInt(x.dst), Counted(x.srcs), EncodeAll(x.coefs), Use((x.same, x.diff));
    Join3([], dst, c + (k + u), s);
    IntIn([], x.dst, c + (k + u), s);
    Join3(dst, c, k + u, s);
    CountedIn(dst, x.srcs, k + u, s);
    var start := dst + c;
    mid := |start|;
    Join3(start, k, u, s);
    ListIn(start, x.coefs, u, s);
    end := |start + k|;
    LastUse(start + k, (x.same, x.diff), s);
  }

  lemma LastUse(a: seq<Octet>, u: (bool, bool), s: seq<Octet>)
    requires s == a + Use(u)
    ensures UseAt(s, |a|, u) && |s| == |a| + 8
  {
    var p, q := EncodeInt(Bit(u.0)), EncodeInt(Bit(u.1));
    Join3(a, p, q, s);
    IntIn(a, Bit(u.0), q, s);
    assert s == (a + p) + q + [];
    IntIn(a + p, Bit(u.1), [], s);
  }
}
