// src/ec/HHXORPlus.cc: Hitchhiker-XOR+ codes.  Encoding, and the repair of one
// data node from the piggybacks.
module HHCode {
  import opened Util
  import opened GF
  import opened Dag
  import opened Join
  import opened EcDag
  import opened Decoding
  import opened Matrix
  import opened Patch
  import opened HHLayout

  // --------------------------------------------------------------- code words

  // The data of half sp.
  function Data(h: Hh, val: int -> Byte, sp: int): (r: Row)
    ensures |r| == h.k && forall j :: 0 <= j < h.k ==> r[j] == val(Ix(h, D(sp, j)))
  {
    seq<Byte>(h.k, (j: nat) => val(Ix(h, D(sp, j))))
  }

  // The coefficients and the data that group p adds up.
  function GroupCoefs(f: Field, h: Hh, p: int): (r: Row)
    requires HhOk(h) && GroupOk(h, p)
  {
    GroupRange(h, p);
    EncRow(f, h, h.k + 1)[GroupStart(h, p)..GroupEnd(h, p)]
  }

  function GroupData(h: Hh, val: int -> Byte, p: int): (r: Row)
    requires HhOk(h) && GroupOk(h, p)
  {
    GroupRange(h, p);
    Data(h, val, 0)[GroupStart(h, p)..GroupEnd(h, p)]
  }

  ghost predicate ParityAt(f: Field, h: Hh, val: int -> Byte, sp: int, i: int)
    requires i >= 0
  {
    val(Ix(h, Uncoupled(h, sp, i))) == Dot(f, EncRow(f, h, h.k + i), Data(h, val, sp))
  }

  ghost predicate GroupAt(f: Field, h: Hh, val: int -> Byte, p: int)
    requires HhOk(h) && GroupOk(h, p)
  {
    GroupRange(h, p);
    && val(Ix(h, Gr(p))) == Dot(f, GroupCoefs(f, h, p), GroupData(h, val, p))
    && val(Ix(h, D(1, h.k + p))) == f.add(val(Ix(h, U1(p))), val(Ix(h, Gr(p))))
  }

  // The spare symbol stands for the last data sub-symbol, scaled.
  ghost predicate SpareIs(f: Field, h: Hh, val: int -> Byte)
    requires HhOk(h)
  {
    val(Ix(h, Last)) == f.mul(EncRow(f, h, h.k + 1)[h.k - 1], Data(h, val, 0)[h.k - 1])
  }

  // The parities of both halves, the group sums, and what is stored: parity 1
  // of the first half couples both halves, and parity p of the second half
  // carries the sum over group p.
  ghost predicate Word(f: Field, h: Hh, val: int -> Byte)
    requires HhOk(h)
  {
    forall x {:trigger Look(x)} :: Look(x) ==> WordNow(f, h, val)
  }

  ghost predicate WordNow(f: Field, h: Hh, val: int -> Byte)
    requires HhOk(h)
  {
    && (forall sp, i {:trigger ParityAt(f, h, val, sp, i)} :: 0 <= sp < 2 && 0 <= i < h.n - h.k ==> ParityAt(f, h, val, sp, i))
    && (forall p {:trigger GroupAt(f, h, val, p)} :: GroupOk(h, p) ==> GroupAt(f, h, val, p))
    && val(Ix(h, D(0, h.k + 1))) == f.add(f.add(val(Ix(h, U0)), val(Ix(h, U1(1)))), val(Ix(h, Gr(1))))
    && SpareIs(f, h, val)
  }

  // ----------------------------------------------------------- the DAG so far

  ghost function WordsOf(f: Field, h: Hh): Words {
    (val: int -> Byte) => HhOk(h) && Word(f, h, val)
  }

  // The indices of a set of symbols.
  ghost function Ixs(h: Hh, ss: set<Sym>): (r: set<int>)
    ensures forall s :: s in ss && SymOk(h, s) ==> Ix(h, s) in r
  {
    set s | s in ss && SymOk(h, s) :: Ix(h, s)
  }

  lemma IxIn(h: Hh, ss: set<Sym>, t: Sym)
    requires HhOk(h) && SymOk(h, t)
    ensures Ix(h, t) in Ixs(h, ss) <==> t in ss
  {
    if Ix(h, t) in Ixs(h, ss) {
      var s :| s in ss && SymOk(h, s) && Ix(h, s) == Ix(h, t);
      IxApart(h, s, t);
    }
  }

  lemma IxsAdd(h: Hh, ss: set<Sym>, t: Sym)
    requires SymOk(h, t)
    ensures Ixs(h, ss + {t}) == Ixs(h, ss) + {Ix(h, t)}
  {
  }

  // known: the symbols that may be read.  done: the symbols that were joined,
  // each by one call.
  ghost predicate Decoded(f: Field, h: Hh, known: set<Sym>, done: set<Sym>, nodes: Graph, joins: multiset<int>) {
    Progress(f, WordsOf(f, h), Ixs(h, known), Ixs(h, done), nodes, joins)
  }

  predicate AllOk(h: Hh, ss: seq<Sym>) { forall i :: 0 <= i < |ss| ==> SymOk(h, ss[i]) }

  function IxAll(h: Hh, ss: seq<Sym>): (r: seq<int>)
    ensures |r| == |ss| && forall i :: 0 <= i < |ss| ==> r[i] == Ix(h, ss[i])
  {
    seq(|ss|, i requires 0 <= i < |ss| => Ix(h, ss[i]))
  }

  ghost predicate Ready(h: Hh, known: set<Sym>, done: set<Sym>, s: Sym) { SymOk(h, s) && (s in known || s in done) }

  ghost predicate AllReady(h: Hh, known: set<Sym>, done: set<Sym>, ss: seq<Sym>) {
    forall i :: 0 <= i < |ss| ==> Ready(h, known, done, ss[i])
  }

  lemma ReadyThere(h: Hh, known: set<Sym>, done: set<Sym>, srcs: seq<Sym>)
    requires HhOk(h) && AllReady(h, known, done, srcs)
    ensures AllThere(Ixs(h, known), Ixs(h, done), IxAll(h, srcs))
  {
    forall i | 0 <= i < |srcs| ensures IxAll(h, srcs)[i] in Ixs(h, known) || IxAll(h, srcs)[i] in Ixs(h, done) {
      assert Ready(h, known, done, srcs[i]);
      IxIn(h, known, srcs[i]);
      IxIn(h, done, srcs[i]);
    }
  }

  // Whoever evaluates the DAG from the known symbols gets every joined symbol.
  lemma SymbolIsRight(f: Field, h: Hh, val: int -> Byte, known: set<Sym>, done: set<Sym>, nodes: Graph, joins: multiset<int>,
                      rank: map<int, nat>, leaf: int -> Byte, t: Sym)
    requires HhOk(h) && Word(f, h, val) && Decoded(f, h, known, done, nodes, joins) && Ranked(nodes, rank)
    requires forall s :: s in known && SymOk(h, s) ==> leaf(Ix(h, s)) == val(Ix(h, s))
    requires SymOk(h, t) && t in done
    ensures Ix(h, t) in nodes && nodes[Ix(h, t)].children != []
    ensures Value(f, nodes, rank, leaf, Ix(h, t)) == val(Ix(h, t))
  {
    IxIn(h, done, t);
    JoinedIsRight(f, WordsOf(f, h), Ixs(h, known), Ixs(h, done), nodes, joins, rank, val, leaf, Ix(h, t));
  }

  // A combination of symbols that holds in every word.
  ghost predicate Gives(f: Field, h: Hh, t: Sym, srcs: seq<Sym>, coefs: seq<int>) {
    Identity(f, WordsOf(f, h), Ix(h, t), IxAll(h, srcs), coefs)
  }

  // ----------------------------------------------------------------- identities

  function DataSyms(h: Hh, sp: int): (r: seq<Sym>)
    ensures |r| == h.k && forall j :: 0 <= j < h.k ==> r[j] == D(sp, j)
  {
    seq(h.k, (j: nat) => D(sp, j))
  }

  // Data nodes a, a + 1, ... of the first half.
  function GroupSyms(h: Hh, p: int): (r: seq<Sym>)
    requires HhOk(h) && GroupOk(h, p)
    ensures var a, b := GroupStart(h, p), GroupEnd(h, p); |r| == b - a && forall i :: 0 <= i < b - a ==> r[i] == D(0, a + i)
  {
    GroupRange(h, p);
    seq(GroupEnd(h, p) - GroupStart(h, p), (i: nat) => D(0, GroupStart(h, p) + i))
  }

  lemma ParityJoin(f: Field, h: Hh, val: int -> Byte, sp: int, i: int)
    requires HhOk(h) && Word(f, h, val) && 0 <= sp < 2 && 0 <= i < h.n - h.k
    ensures val(Ix(h, Uncoupled(h, sp, i))) == Comb(f, EncRow(f, h, h.k + i), IxAll(h, DataSyms(h, sp)), val)
  {
    assert Look(0) && ParityAt(f, h, val, sp, i);
    var xs := IxAll(h, DataSyms(h, sp));
    CombIsDot(f, EncRow(f, h, h.k + i), xs, val);
    assert ValuesOf(val, xs) == Data(h, val, sp);
  }

  lemma GroupJoin(f: Field, h: Hh, val: int -> Byte, p: int)
    requires HhOk(h) && Word(f, h, val) && GroupOk(h, p)
    ensures |GroupCoefs(f, h, p)| == |GroupSyms(h, p)|
    ensures val(Ix(h, Gr(p))) == Comb(f, GroupCoefs(f, h, p), IxAll(h, GroupSyms(h, p)), val)
  {
    assert Look(0) && GroupAt(f, h, val, p);
    GroupRange(h, p);
    var xs := IxAll(h, GroupSyms(h, p));
    CombIsDot(f, GroupCoefs(f, h, p), xs, val);
    assert ValuesOf(val, xs) == GroupData(h, val, p);
  }

  lemma TwoOnes(f: Field, val: int -> Byte, a: int, b: int)
    requires IsField(f)
    ensures Comb(f, [1, 1], [a, b], val) == f.add(val(a), val(b))
  {
    var x: Byte, y: Byte := val(a), val(b);
    assert [a, b][..1] == [a] && [a][..0] == [];
    assert Comb(f, [1, 1], [a], val) == f.add(0, f.mul(1, x));
    Laws(f, x, 1, 0);
    Laws(f, y, 1, 0);
    Laws(f, 0, x, 0);
    Laws(f, x, 0, 0);
    Laws(f, 1, x, 0);
    Laws(f, 1, y, 0);
  }

  lemma ThreeOnes(f: Field, val: int -> Byte, a: int, b: int, c: int)
    requires IsField(f)
    ensures Comb(f, [1, 1, 1], [a, b, c], val) == f.add(f.add(val(a), val(b)), val(c))
  {
    var z: Byte := val(c);
    assert [a, b, c][..2] == [a, b];
    SameCoefs(f, [1, 1, 1], [1, 1], [a, b], val);
    TwoOnes(f, val, a, b);
    Laws(f, z, 1, 0);
    Laws(f, 1, z, 0);
  }

  // x + (x + y) == y
  lemma Cancel(f: Field, x: Byte, y: Byte)
    requires IsField(f)
    ensures f.add(x, f.add(x, y)) == y
  {
    Laws(f, x, x, y);
    Laws(f, 0, y, 0);
    Laws(f, y, 0, 0);
  }

  lemma CoupleJoin(f: Field, h: Hh, val: int -> Byte)
    requires IsField(f) && HhOk(h) && Word(f, h, val)
    ensures val(Ix(h, D(0, h.k + 1))) == Comb(f, [1, 1, 1], IxAll(h, [U0, U1(1), Gr(1)]), val)
  {
    assert Look(0);
    ThreeOnes(f, val, Ix(h, U0), Ix(h, U1(1)), Ix(h, Gr(1)));
    assert IxAll(h, [U0, U1(1), Gr(1)]) == [Ix(h, U0), Ix(h, U1(1)), Ix(h, Gr(1))];
  }

  lemma PiggybackJoin(f: Field, h: Hh, val: int -> Byte, p: int)
    requires IsField(f) && HhOk(h) && Word(f, h, val) && GroupOk(h, p)
    ensures val(Ix(h, D(1, h.k + p))) == Comb(f, [1, 1], IxAll(h, [U1(p), Gr(p)]), val)
  {
    assert Look(0) && GroupAt(f, h, val, p);
    TwoOnes(f, val, Ix(h, U1(p)), Ix(h, Gr(p)));
    assert IxAll(h, [U1(p), Gr(p)]) == [Ix(h, U1(p)), Ix(h, Gr(p))];
  }

  lemma ParityGives(f: Field, h: Hh, sp: int, i: int)
    requires HhOk(h) && 0 <= sp < 2 && 0 <= i < h.n - h.k
    ensures Gives(f, h, Uncoupled(h, sp, i), DataSyms(h, sp), EncRow(f, h, h.k + i))
  {
    forall val: int -> Byte {:trigger WordsOf(f, h)(val)} | WordsOf(f, h)(val)
      ensures val(Ix(h, Uncoupled(h, sp, i))) == Comb(f, EncRow(f, h, h.k + i), IxAll(h, DataSyms(h, sp)), val)
    {
      ParityJoin(f, h, val, sp, i);
    }
  }

  lemma GroupGives(f: Field, h: Hh, p: int)
    requires HhOk(h) && GroupOk(h, p)
    ensures Gives(f, h, Gr(p), GroupSyms(h, p), GroupCoefs(f, h, p))
  {
    forall val: int -> Byte {:trigger WordsOf(f, h)(val)} | WordsOf(f, h)(val)
      ensures val(Ix(h, Gr(p))) == Comb(f, GroupCoefs(f, h, p), IxAll(h, GroupSyms(h, p)), val)
    {
      GroupJoin(f, h, val, p);
    }
  }

  lemma CoupleGives(f: Field, h: Hh)
    requires IsField(f) && HhOk(h)
    ensures Gives(f, h, D(0, h.k + 1), [U0, U1(1), Gr(1)], [1, 1, 1])
  {
    forall val: int -> Byte {:trigger WordsOf(f, h)(val)} | WordsOf(f, h)(val)
      ensures val(Ix(h, D(0, h.k + 1))) == Comb(f, [1, 1, 1], IxAll(h, [U0, U1(1), Gr(1)]), val)
    {
      CoupleJoin(f, h, val);
    }
  }

  lemma PiggybackGives(f: Field, h: Hh, p: int)
    requires IsField(f) && HhOk(h) && GroupOk(h, p)
    ensures Gives(f, h, D(1, h.k + p), [U1(p), Gr(p)], [1, 1])
  {
    forall val: int -> Byte {:trigger WordsOf(f, h)(val)} | WordsOf(f, h)(val)
      ensures val(Ix(h, D(1, h.k + p))) == Comb(f, [1, 1], IxAll(h, [U1(p), Gr(p)]), val)
    {
      PiggybackJoin(f, h, val, p);
    }
  }

  // ------------------------------------------------------------ what may be read

  // The data symbols of both halves.
  ghost function DataKnown(h: Hh): (r: set<Sym>)
    ensures forall s :: s in r <==> s.D? && 0 <= s.sp < 2 && 0 <= s.node < h.k
  {
    set sp, j | 0 <= sp < 2 && 0 <= j < h.k :: D(sp, j)
  }

  // The group of a data node.
  predicate InGroup(h: Hh, p: int, node: int)
    requires HhOk(h)
  {
    GroupOk(h, p) && GroupStart(h, p) <= node < GroupEnd(h, p)
  }

  // What the repair of a data node reads: of the second half, the other data
  // and the first parity; then, through its group, the other members of the
  // first half and the carrier of the sum - or, for the last data node, the
  // carriers of all sums.
  ghost predicate IsNeeded(h: Hh, failed: int, s: Sym)
    requires HhOk(h)
  {
    && s.D? && SymOk(h, s) && s.node != failed
    && (|| (s.sp == 1 && s.node <= h.k)
        || (failed < h.k - 1 && exists p :: HelpsThrough(h, p, failed, s))
        || (failed == h.k - 1 && (s == D(0, h.k + 1) || (s.sp == 1 && s.node > h.k + 1))))
  }

  ghost predicate HelpsThrough(h: Hh, p: int, failed: int, s: Sym)
    requires HhOk(h)
  {
    InGroup(h, p, failed) && ((s.D? && s.sp == 0 && InGroup(h, p, s.node)) || s == D(1, h.k + p))
  }

  ghost function Needed(h: Hh, failed: int): (r: set<Sym>)
    requires HhOk(h)
    ensures forall s :: s in r <==> IsNeeded(h, failed, s)
  {
    set sp, j | 0 <= sp < 2 && 0 <= j < h.n && IsNeeded(h, failed, D(sp, j)) :: D(sp, j)
  }

  lemma DataReady(h: Hh, done: set<Sym>, sp: int)
    requires HhOk(h) && 0 <= sp < 2
    ensures AllReady(h, DataKnown(h), done, DataSyms(h, sp))
  {
  }

  lemma GroupReady(h: Hh, done: set<Sym>, p: int)
    requires HhOk(h) && GroupOk(h, p)
    ensures AllReady(h, DataKnown(h), done, GroupSyms(h, p)) && GroupSyms(h, p) != []
  {
    GroupRange(h, p);
    var a, b := GroupStart(h, p), GroupEnd(h, p);
    forall i | 0 <= i < b - a ensures Ready(h, DataKnown(h), done, GroupSyms(h, p)[i]) {
      assert GroupSyms(h, p)[i] == D(0, a + i);
    }
  }

  lemma UncoupledFits(h: Hh, sp: int, i: int)
    requires HhOk(h) && 0 <= sp < 2 && 0 <= i < h.n - h.k
    ensures SymOk(h, Uncoupled(h, sp, i)) && Uncoupled(h, sp, i) !in DataKnown(h)
  {
  }
}
