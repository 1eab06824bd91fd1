// Hitchhiker-XOR+ codes: every choice of data has its code word, and what
// evaluating the two DAGs gives.
module HHWords {
  import opened Util
  import opened GF
  import opened Dag
  import opened Decoding
  import opened Matrix
  import opened HHLayout
  import opened HHCode
  import opened HHRepair

  // data(sp, j) is sub-symbol sp of data node j.
  type Given = (int, int) -> Byte

  function GivenRow(h: Hh, data: Given, sp: int): (r: Row)
    ensures |r| == h.k && forall j :: 0 <= j < h.k ==> r[j] == data(sp, j)
  {
    seq<Byte>(h.k, (j: nat) => data(sp, j))
  }

  function Parity(f: Field, h: Hh, data: Given, sp: int, i: nat): Byte {
    Dot(f, EncRow(f, h, h.k + i), GivenRow(h, data, sp))
  }

  function GroupSum(f: Field, h: Hh, data: Given, p: int): Byte
    requires HhOk(h) && GroupOk(h, p)
  {
    GroupRange(h, p);
    Dot(f, EncRow(f, h, h.k + 1)[GroupStart(h, p)..GroupEnd(h, p)], GivenRow(h, data, 0)[GroupStart(h, p)..GroupEnd(h, p)])
  }

  // What each symbol stands for.
  function Meaning(f: Field, h: Hh, data: Given, s: Sym): Byte
    requires HhOk(h) && SymOk(h, s)
  {
    match s
    case D(sp, node) =>
      if node < h.k then data(sp, node)
      else if sp == 0 && node == h.k + 1 then
        f.add(f.add(Parity(f, h, data, 0, 1), Parity(f, h, data, 1, 1)), GroupSum(f, h, data, 1))
      else if sp == 1 && node > h.k then f.add(Parity(f, h, data, 1, node - h.k), GroupSum(f, h, data, node - h.k))
      else Parity(f, h, data, sp, node - h.k)
    case U0 => Parity(f, h, data, 0, 1)
    case Gr(p) => GroupSum(f, h, data, p)
    case U1(p) => Parity(f, h, data, 1, p)
    case Last => f.mul(EncRow(f, h, h.k + 1)[h.k - 1], data(0, h.k - 1))
  }

  ghost predicate Names(h: Hh, s: Sym, v: int) { SymOk(h, s) && Ix(h, s) == v }

  ghost function SymOf(h: Hh, v: int): (s: Sym)
    requires exists s :: Names(h, s, v)
    ensures Names(h, s, v)
  {
    var s :| Names(h, s, v);
    s
  }

  ghost function WordOf(f: Field, h: Hh, data: Given): int -> Byte
    requires HhOk(h)
  {
    v => if exists s :: Names(h, s, v) then Meaning(f, h, data, SymOf(h, v)) else 0
  }

  lemma ValueOfIs(f: Field, h: Hh, data: Given, s: Sym)
    requires HhOk(h) && SymOk(h, s)
    ensures WordOf(f, h, data)(Ix(h, s)) == Meaning(f, h, data, s)
  {
    assert Names(h, s, Ix(h, s));
    var t := SymOf(h, Ix(h, s));
    assert SymOk(h, t) && Ix(h, t) == Ix(h, s);
    IxApart(h, s, t);
  }

  lemma DataIs(f: Field, h: Hh, data: Given, sp: int)
    requires HhOk(h) && 0 <= sp < 2
    ensures Data(h, WordOf(f, h, data), sp) == GivenRow(h, data, sp)
  {
    forall j | 0 <= j < h.k ensures Data(h, WordOf(f, h, data), sp)[j] == data(sp, j) {
      ValueOfIs(f, h, data, D(sp, j));
    }
  }

  lemma ParityHolds(f: Field, h: Hh, data: Given, sp: int, i: int)
    requires HhOk(h) && 0 <= sp < 2 && 0 <= i < h.n - h.k
    ensures ParityAt(f, h, WordOf(f, h, data), sp, i)
  {
    DataIs(f, h, data, sp);
    ValueOfIs(f, h, data, Uncoupled(h, sp, i));
  }

  lemma SumHolds(f: Field, h: Hh, data: Given, p: int)
    requires HhOk(h) && GroupOk(h, p)
    ensures var val := WordOf(f, h, data);
      && |GroupCoefs(f, h, p)| == |GroupData(h, val, p)|
      && val(Ix(h, Gr(p))) == Dot(f, GroupCoefs(f, h, p), GroupData(h, val, p))
  {
    GroupRange(h, p);
    DataIs(f, h, data, 0);
    ValueOfIs(f, h, data, Gr(p));
  }

  lemma PiggybackHolds(f: Field, h: Hh, data: Given, p: int)
    requires HhOk(h) && GroupOk(h, p)
    ensures var val := WordOf(f, h, data);
      val(Ix(h, D(1, h.k + p))) == f.add(val(Ix(h, U1(p))), val(Ix(h, Gr(p))))
  {
    ValueOfIs(f, h, data, Gr(p));
    ValueOfIs(f, h, data, U1(p));
    ValueOfIs(f, h, data, D(1, h.k + p));
  }

  lemma GroupHolds(f: Field, h: Hh, data: Given, p: int)
    requires HhOk(h) && GroupOk(h, p)
    ensures HHCode.GroupAt(f, h, WordOf(f, h, data), p)
  {
    SumHolds(f, h, data, p);
    PiggybackHolds(f, h, data, p);
  }

  lemma CoupleHolds(f: Field, h: Hh, data: Given)
    requires HhOk(h)
    ensures var val := WordOf(f, h, data);
      val(Ix(h, D(0, h.k + 1))) == f.add(f.add(val(Ix(h, U0)), val(Ix(h, U1(1)))), val(Ix(h, Gr(1))))
  {
    ValueOfIs(f, h, data, D(0, h.k + 1));
    ValueOfIs(f, h, data, U0);
    ValueOfIs(f, h, data, U1(1));
    ValueOfIs(f, h, data, Gr(1));
  }

  lemma SpareHolds(f: Field, h: Hh, data: Given)
    requires HhOk(h)
    ensures SpareIs(f, h, WordOf(f, h, data))
  {
    DataIs(f, h, data, 0);
    ValueOfIs(f, h, data, Last);
  }

  // Every choice of data has a code word.
  lemma WordExists(f: Field, h: Hh, data: Given)
    requires HhOk(h)
    ensures Word(f, h, WordOf(f, h, data))
    ensures forall sp, j :: 0 <= sp < 2 && 0 <= j < h.k ==> WordOf(f, h, data)(Ix(h, D(sp, j))) == data(sp, j)
  {
    var val := WordOf(f, h, data);
    forall sp, i | 0 <= sp < 2 && 0 <= i < h.n - h.k ensures ParityAt(f, h, val, sp, i) { ParityHolds(f, h, data, sp, i); }
    forall p | GroupOk(h, p) ensures HHCode.GroupAt(f, h, val, p) { GroupHolds(f, h, data, p); }
    CoupleHolds(f, h, data);
    SpareHolds(f, h, data);
    forall sp, j | 0 <= sp < 2 && 0 <= j < h.k ensures val(Ix(h, D(sp, j))) == data(sp, j) {
      ValueOfIs(f, h, data, D(sp, j));
    }
  }

  // What Encode joins evaluates, from the data alone, to the code word.
  lemma EncodedIsRight(f: Field, h: Hh, val: int -> Byte, done: set<Sym>, nodes: Graph, joins: multiset<int>,
                       rank: map<int, nat>, leaf: int -> Byte, i: nat, sp: nat)
    requires HhOk(h) && Word(f, h, val) && Decoded(f, h, DataKnown(h), done, nodes, joins) && Ranked(nodes, rank)
    requires forall s {:trigger s in done} :: s in done <==> Encoded(h, s)
    requires forall a, j :: 0 <= a < 2 && 0 <= j < h.k ==> leaf(Ix(h, D(a, j))) == val(Ix(h, D(a, j)))
    requires h.k <= i < h.n && sp < 2
    ensures Ix(h, D(sp, i)) in nodes && Value(f, nodes, rank, leaf, Ix(h, D(sp, i))) == val(Ix(h, D(sp, i)))
  {
    assert D(sp, i) in done;
    SymbolIsRight(f, h, val, DataKnown(h), done, nodes, joins, rank, leaf, D(sp, i));
  }

  // What DecodeSingle joins evaluates, from the symbols it needs, to the two
  // lost sub-symbols; and nothing else is read.
  lemma LostIsRight(f: Field, h: Hh, val: int -> Byte, done: set<Sym>, nodes: Graph, joins: multiset<int>,
                    rank: map<int, nat>, leaf: int -> Byte, failed: nat, sp: nat)
    requires HhOk(h) && Word(f, h, val) && Decoded(f, h, Needed(h, failed), done, nodes, joins) && Ranked(nodes, rank)
    requires failed < h.k && sp < 2 && D(sp, failed) in done
    requires forall s :: IsNeeded(h, failed, s) ==> leaf(Ix(h, s)) == val(Ix(h, s))
    ensures Ix(h, D(sp, failed)) in nodes && Value(f, nodes, rank, leaf, Ix(h, D(sp, failed))) == val(Ix(h, D(sp, failed)))
    ensures forall v :: v in nodes && nodes[v].children == [] ==> v in Ixs(h, Needed(h, failed))
  {
    SymbolIsRight(f, h, val, Needed(h, failed), done, nodes, joins, rank, leaf, D(sp, failed));
  }
}
