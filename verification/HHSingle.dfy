// Hitchhiker-XOR+ codes: why the combinations that repair one data node give
// back its two sub-symbols.
module HHSingle {
  import opened Util
  import opened GF
  import opened Decoding
  import opened Matrix
  import opened Patch
  import opened HHLayout
  import opened HHCode

  // ------------------------------------------------------------ the second half

  // Sub-symbol 1 of every other data node, and the first parity.
  function FirstSyms(h: Hh, failed: nat): (r: seq<Sym>)
    requires HhOk(h)
    ensures |r| == h.k && forall i :: 0 <= i < h.k ==> r[i] == if i < h.k - 1 then D(1, Other(failed, i)) else D(1, h.k)
  {
    seq(h.k, (i: nat) => if i < h.k - 1 then D(1, Other(failed, i)) else D(1, h.k))
  }

  function FirstRows(f: Field, h: Hh, failed: nat): Mat
    requires HhOk(h) && failed < h.k
  {
    Patched(h.k, failed, EncRow(f, h, h.k))
  }

  // The rows that are read have an inverse.
  lemma FirstInverts(f: Field, h: Hh, invert: Mat -> Mat, failed: nat)
    requires HhOk(h) && IsField(f) && Inverts(f, invert) && failed < h.k
    ensures var sel := FirstRows(f, h, failed); LeftInverse(f, invert(sel), sel, h.k)
  {
    var a := EncRow(f, h, h.k);
    assert a[failed] == FieldPow(f, 2, failed);
    PowNonzero(f, 2, failed);
    PatchIsInverse(f, h.k, failed, a);
  }

  lemma FirstValues(f: Field, h: Hh, val: int -> Byte, failed: nat, i: nat)
    requires HhOk(h) && IsField(f) && Word(f, h, val) && failed < h.k && i < h.k
    ensures val(Ix(h, FirstSyms(h, failed)[i])) == Dot(f, FirstRows(f, h, failed)[i], Data(h, val, 1))
  {
    if i < h.k - 1 {
      DotUnit(f, Data(h, val, 1), Other(failed, i));
    } else {
      assert Look(0) && ParityAt(f, h, val, 1, 0);
    }
  }

  lemma FirstColumn(f: Field, h: Hh, val: int -> Byte, failed: nat)
    requires HhOk(h) && IsField(f) && Word(f, h, val) && failed < h.k
    ensures ValuesOf(val, IxAll(h, FirstSyms(h, failed))) == Apply(f, FirstRows(f, h, failed), Data(h, val, 1))
  {
    forall i | 0 <= i < h.k
      ensures ValuesOf(val, IxAll(h, FirstSyms(h, failed)))[i] == Apply(f, FirstRows(f, h, failed), Data(h, val, 1))[i]
    {
      FirstValues(f, h, val, failed, i);
    }
  }

  // The lost sub-symbol of the second half ...
  lemma DataBack(f: Field, h: Hh, invert: Mat -> Mat, val: int -> Byte, failed: nat)
    requires HhOk(h) && IsField(f) && Inverts(f, invert) && Word(f, h, val) && failed < h.k
    ensures var inv := invert(FirstRows(f, h, failed));
      Shape(inv, h.k, h.k) && val(Ix(h, D(1, failed))) == Comb(f, inv[failed], IxAll(h, FirstSyms(h, failed)), val)
  {
    var sel := FirstRows(f, h, failed);
    var inv, xs, data := invert(sel), IxAll(h, FirstSyms(h, failed)), Data(h, val, 1);
    FirstInverts(f, h, invert, failed);
    FirstColumn(f, h, val, failed);
    CombIsDot(f, inv[failed], xs, val);
    UndoAt(f, inv[failed], sel, data, failed);
  }

  // ... and any uncoupled parity of it.
  lemma ParityBack(f: Field, h: Hh, invert: Mat -> Mat, val: int -> Byte, failed: nat, p: nat)
    requires HhOk(h) && IsField(f) && Inverts(f, invert) && Word(f, h, val) && failed < h.k && GroupOk(h, p)
    ensures var inv := invert(FirstRows(f, h, failed));
      Shape(inv, h.k, h.k) &&
      val(Ix(h, U1(p))) == Comb(f, RowTimes(f, EncRow(f, h, h.k + p), inv, h.k), IxAll(h, FirstSyms(h, failed)), val)
  {
    var sel := FirstRows(f, h, failed);
    var inv, xs, data := invert(sel), IxAll(h, FirstSyms(h, failed)), Data(h, val, 1);
    var e := EncRow(f, h, h.k + p);
    FirstInverts(f, h, invert, failed);
    FirstColumn(f, h, val, failed);
    CombIsDot(f, RowTimes(f, e, inv, h.k), xs, val);
    Recover(f, inv, sel, e, data);
    assert Look(0) && ParityAt(f, h, val, 1, p);
  }

  // ---------------------------------------------------------- through the group

  // The coupled parity minus the uncoupled one is the group sum.
  lemma GroupBack(f: Field, h: Hh, val: int -> Byte, p: int)
    requires HhOk(h) && IsField(f) && Word(f, h, val) && GroupOk(h, p)
    ensures val(Ix(h, Gr(p))) == Comb(f, [1, 1], IxAll(h, [U1(p), D(1, h.k + p)]), val)
  {
    assert Look(0) && HHCode.GroupAt(f, h, val, p);
    TwoOnes(f, val, Ix(h, U1(p)), Ix(h, D(1, h.k + p)));
    assert IxAll(h, [U1(p), D(1, h.k + p)]) == [Ix(h, U1(p)), Ix(h, D(1, h.k + p))];
    Cancel(f, val(Ix(h, U1(p))), val(Ix(h, Gr(p))));
  }

  function GroupSize(h: Hh, p: int): (n: nat)
    requires HhOk(h) && GroupOk(h, p)
    ensures n >= 1
  {
    GroupRange(h, p);
    GroupEnd(h, p) - GroupStart(h, p)
  }

  // The other data of the group, and the group sum.
  function RestSyms(h: Hh, p: int, at: nat): (r: seq<Sym>)
    requires HhOk(h) && GroupOk(h, p)
    ensures |r| == GroupSize(h, p)
    ensures forall i :: 0 <= i < |r| ==> r[i] == if i < |r| - 1 then D(0, GroupStart(h, p) + Other(at, i)) else Gr(p)
  {
    var n := GroupSize(h, p);
    seq(n, (i: nat) => if i < n - 1 then D(0, GroupStart(h, p) + Other(at, i)) else Gr(p))
  }

  function GroupRows(f: Field, h: Hh, p: int, at: nat): Mat
    requires HhOk(h) && GroupOk(h, p) && at < GroupSize(h, p)
  {
    CoefsSize(f, h, p);
    Patched(GroupSize(h, p), at, GroupCoefs(f, h, p))
  }

  lemma CoefsSize(f: Field, h: Hh, p: int)
    requires HhOk(h) && GroupOk(h, p)
    ensures |GroupCoefs(f, h, p)| == GroupSize(h, p)
  {
    GroupRange(h, p);
    var a, b := GroupStart(h, p), GroupEnd(h, p);
    assert |EncRow(f, h, h.k + 1)[a..b]| == b - a;
  }

  lemma CoefIsOne(f: Field, h: Hh, j: nat)
    requires HhOk(h) && IsField(f) && j < h.k
    ensures EncRow(f, h, h.k + 1)[j] == 1
  {
    PowOfOne(f, j);
  }

  lemma GroupInverts(f: Field, h: Hh, invert: Mat -> Mat, p: int, at: nat)
    requires HhOk(h) && IsField(f) && Inverts(f, invert) && GroupOk(h, p) && at < GroupSize(h, p)
    ensures var sel := GroupRows(f, h, p, at); LeftInverse(f, invert(sel), sel, GroupSize(h, p))
  {
    var a := GroupCoefs(f, h, p);
    GroupRange(h, p);
    CoefIsOne(f, h, GroupStart(h, p) + at);
    PatchIsInverse(f, GroupSize(h, p), at, a);
  }

  lemma RestValue(f: Field, h: Hh, val: int -> Byte, p: int, at: nat, i: nat)
    requires HhOk(h) && IsField(f) && Word(f, h, val) && GroupOk(h, p) && at < GroupSize(h, p) && i < GroupSize(h, p)
    ensures |GroupData(h, val, p)| == GroupSize(h, p)
    ensures val(Ix(h, RestSyms(h, p, at)[i])) == Dot(f, GroupRows(f, h, p, at)[i], GroupData(h, val, p))
  {
    DataSize(h, val, p);
    CoefsSize(f, h, p);
    var n, data := GroupSize(h, p), GroupData(h, val, p);
    if i < n - 1 {
      DotUnit(f, data, Other(at, i));
      MemberValue(h, val, p, Other(at, i));
    } else {
      GroupValue(f, h, val, p);
    }
  }

  lemma MemberValue(h: Hh, val: int -> Byte, p: int, j: nat)
    requires HhOk(h) && GroupOk(h, p) && j < GroupSize(h, p)
    ensures |GroupData(h, val, p)| == GroupSize(h, p)
    ensures GroupData(h, val, p)[j] == val(Ix(h, D(0, GroupStart(h, p) + j)))
  {
    DataSize(h, val, p);
    GroupRange(h, p);
  }

  lemma GroupValue(f: Field, h: Hh, val: int -> Byte, p: int)
    requires HhOk(h) && Word(f, h, val) && GroupOk(h, p)
    ensures |GroupCoefs(f, h, p)| == |GroupData(h, val, p)|
    ensures val(Ix(h, Gr(p))) == Dot(f, GroupCoefs(f, h, p), GroupData(h, val, p))
  {
    DataSize(h, val, p);
    CoefsSize(f, h, p);
    assert Look(0) && HHCode.GroupAt(f, h, val, p);
  }

  lemma DataSize(h: Hh, val: int -> Byte, p: int)
    requires HhOk(h) && GroupOk(h, p)
    ensures |GroupData(h, val, p)| == GroupSize(h, p)
  {
    GroupRange(h, p);
    var a, b := GroupStart(h, p), GroupEnd(h, p);
    assert |Data(h, val, 0)[a..b]| == b - a;
  }

  lemma RestColumn(f: Field, h: Hh, val: int -> Byte, p: int, at: nat)
    requires HhOk(h) && IsField(f) && Word(f, h, val) && GroupOk(h, p) && at < GroupSize(h, p)
    ensures |GroupData(h, val, p)| == GroupSize(h, p)
    ensures ValuesOf(val, IxAll(h, RestSyms(h, p, at))) == Apply(f, GroupRows(f, h, p, at), GroupData(h, val, p))
  {
    DataSize(h, val, p);
    forall i | 0 <= i < GroupSize(h, p)
      ensures ValuesOf(val, IxAll(h, RestSyms(h, p, at)))[i] == Apply(f, GroupRows(f, h, p, at), GroupData(h, val, p))[i]
    {
      RestValue(f, h, val, p, at, i);
    }
  }

  // The lost sub-symbol of the first half, for a node in a group.
  lemma MemberBack(f: Field, h: Hh, invert: Mat -> Mat, val: int -> Byte, p: int, at: nat)
    requires HhOk(h) && IsField(f) && Inverts(f, invert) && Word(f, h, val) && GroupOk(h, p) && at < GroupSize(h, p)
    ensures var inv := invert(GroupRows(f, h, p, at));
      Shape(inv, GroupSize(h, p), GroupSize(h, p)) &&
      val(Ix(h, D(0, GroupStart(h, p) + at))) == Comb(f, inv[at], IxAll(h, RestSyms(h, p, at)), val)
  {
    GroupRange(h, p);
    var sel, data := GroupRows(f, h, p, at), GroupData(h, val, p);
    var inv, xs := invert(sel), IxAll(h, RestSyms(h, p, at));
    GroupInverts(f, h, invert, p, at);
    RestColumn(f, h, val, p, at);
    CombIsDot(f, inv[at], xs, val);
    UndoAt(f, inv[at], sel, data, at);
  }

  // ------------------------------------------------------- the last data node

  // The uncoupled parities of the second half and the parities that carry the
  // groups, pair by pair.
  function CoupleSyms(h: Hh, p: nat): (r: seq<Sym>)
    ensures |r| == 2 * p
  {
    if p == 0 then [] else CoupleSyms(h, p - 1) + [U1(p), Carrier(h, p)]
  }

  // Uncoupled parity i, and what is stored for it.
  lemma {:induction false} CoupleSymsAt(h: Hh, p: nat, i: nat)
    requires 1 <= i <= p
    ensures CoupleSyms(h, p)[2 * (i - 1)] == U1(i)
    ensures CoupleSyms(h, p)[2 * (i - 1) + 1] == if i == 1 then D(0, h.k + 1) else D(1, h.k + i)
  {
    if i < p { CoupleSymsAt(h, p - 1, i); }
  }

  function Ones(n: nat): (r: Row)
    ensures |r| == n && forall i :: 0 <= i < n ==> r[i] == 1
  {
    seq<Byte>(n, _ => 1)
  }

  // The first m terms of the row of ones over the first half.
  function Prefix(f: Field, h: Hh, val: int -> Byte, m: nat): Byte
    requires m <= h.k
  {
    Dot(f, EncRow(f, h, h.k + 1)[..m], Data(h, val, 0)[..m])
  }

  lemma {:induction false} DotSplit(f: Field, a: Row, v: Row, m: nat)
    requires IsField(f) && |a| == |v| && m <= |a|
    ensures Dot(f, a, v) == f.add(Dot(f, a[..m], v[..m]), Dot(f, a[m..], v[m..]))
  {
    var n := |a|;
    if m == n {
      assert a[..m] == a && v[..m] == v && a[m..] == [] && v[m..] == [];
      Laws(f, Dot(f, a, v), 0, 0);
    } else {
      DotSplit(f, a[..n - 1], v[..n - 1], m);
      assert a[..n - 1][..m] == a[..m] && v[..n - 1][..m] == v[..m];
      assert a[..n - 1][m..] == a[m..][..n - 1 - m] && v[..n - 1][m..] == v[m..][..n - 1 - m];
      Laws(f, Dot(f, a[..m], v[..m]), Dot(f, a[..n - 1][m..], v[..n - 1][m..]), f.mul(a[n - 1], v[n - 1]));
    }
  }

  lemma PrefixGrows(f: Field, h: Hh, val: int -> Byte, p: int)
    requires HhOk(h) && IsField(f) && Word(f, h, val) && GroupOk(h, p)
    ensures 0 <= GroupStart(h, p) <= GroupEnd(h, p) <= h.k
    ensures Prefix(f, h, val, GroupEnd(h, p)) == f.add(Prefix(f, h, val, GroupStart(h, p)), val(Ix(h, Gr(p))))
  {
    GroupRange(h, p);
    var a, b := GroupStart(h, p), GroupEnd(h, p);
    var row, data := EncRow(f, h, h.k + 1), Data(h, val, 0);
    DotSplit(f, row[..b], data[..b], a);
    assert row[..b][..a] == row[..a] && data[..b][..a] == data[..a];
    assert row[..b][a..] == row[a..b] && data[..b][a..] == data[a..b];
    assert Look(0) && HHCode.GroupAt(f, h, val, p);
  }

  lemma {:induction false} CombPair(f: Field, val: int -> Byte, xs: seq<int>, a: int, b: int)
    requires IsField(f)
    ensures Comb(f, Ones(|xs| + 2), xs + [a, b], val) == f.add(Comb(f, Ones(|xs|), xs, val), f.add(val(a), val(b)))
  {
    var n := |xs|;
    var ys := xs + [a, b];
    var x: Byte, y: Byte := val(a), val(b);
    assert ys[..n + 1] == xs + [a] && ys[..n + 1][..n] == xs;
    SameCoefs(f, Ones(n + 2), Ones(n + 1), ys[..n + 1], val);
    SameCoefs(f, Ones(n + 1), Ones(n), xs, val);
    Laws(f, x, 1, 0);
    Laws(f, 1, x, 0);
    Laws(f, y, 1, 0);
    Laws(f, 1, y, 0);
    Laws(f, Comb(f, Ones(n), xs, val), x, y);
  }

  // The sum over the first p pairs.
  function CoupleValue(f: Field, h: Hh, val: int -> Byte, p: nat): Byte {
    Comb(f, Ones(2 * p), IxAll(h, CoupleSyms(h, p)), val)
  }

  function Carrier(h: Hh, p: nat): Sym { if p == 1 then D(0, h.k + 1) else D(1, h.k + p) }

  lemma CoupleStep(f: Field, h: Hh, val: int -> Byte, p: nat)
    requires IsField(f) && p >= 1
    ensures CoupleValue(f, h, val, p)
         == f.add(CoupleValue(f, h, val, p - 1), f.add(val(Ix(h, U1(p))), val(Ix(h, Carrier(h, p)))))
  {
    var before := IxAll(h, CoupleSyms(h, p - 1));
    assert IxAll(h, CoupleSyms(h, p)) == before + [Ix(h, U1(p)), Ix(h, Carrier(h, p))];
    CombPair(f, val, before, Ix(h, U1(p)), Ix(h, Carrier(h, p)));
  }

  function PrefixTo(f: Field, h: Hh, val: int -> Byte, p: int): Byte
    requires HhOk(h) && GroupOk(h, p)
  {
    GroupRange(h, p);
    Prefix(f, h, val, GroupEnd(h, p))
  }

  lemma PrefixStep(f: Field, h: Hh, val: int -> Byte, p: int)
    requires HhOk(h) && IsField(f) && Word(f, h, val) && GroupOk(h, p) && p > 1
    ensures PrefixTo(f, h, val, p) == f.add(PrefixTo(f, h, val, p - 1), val(Ix(h, Gr(p))))
  {
    GroupRange(h, p);
    GroupRange(h, p - 1);
    PrefixGrows(f, h, val, p);
  }

  // The uncoupled parities of the second half cancel; what is left is parity 1
  // of the first half and the first p groups.
  lemma {:induction false} CoupleSum(f: Field, h: Hh, val: int -> Byte, p: nat)
    requires HhOk(h) && IsField(f) && Word(f, h, val) && GroupOk(h, p)
    ensures CoupleValue(f, h, val, p) == f.add(val(Ix(h, U0)), PrefixTo(f, h, val, p))
  {
    CoupleStep(f, h, val, p);
    if p == 1 {
      FirstPair(f, h, val);
      assert IxAll(h, CoupleSyms(h, 0)) == [];
    } else {
      CoupleSum(f, h, val, p - 1);
      PiggybackIs(f, h, val, p);
      PrefixStep(f, h, val, p);
      NextPair(f, val(Ix(h, U0)), PrefixTo(f, h, val, p - 1), val(Ix(h, U1(p))), val(Ix(h, Gr(p))));
    }
  }

  // All groups together hold every data node but the last, so the sum over all
  // pairs is the last data sub-symbol, scaled.
  lemma AllCouples(f: Field, h: Hh, val: int -> Byte)
    requires HhOk(h) && IsField(f) && Word(f, h, val)
    ensures val(Ix(h, Last)) == CoupleValue(f, h, val, Groups(h))
  {
    CoupleSum(f, h, val, Groups(h));
    ParityOneSplits(f, h, val);
    SpareLeft(f, PrefixTo(f, h, val, Groups(h)), val(Ix(h, Last)));
  }

  // Parity 1 of the first half is the sum over the groups plus the last term.
  lemma ParityOneSplits(f: Field, h: Hh, val: int -> Byte)
    requires HhOk(h) && IsField(f) && Word(f, h, val)
    ensures val(Ix(h, U0)) == f.add(PrefixTo(f, h, val, Groups(h)), val(Ix(h, Last)))
  {
    assert Look(0) && ParityAt(f, h, val, 0, 1) && SpareIs(f, h, val);
  }

  // (s + t) + s == t
  lemma SpareLeft(f: Field, s: Byte, t: Byte)
    requires IsField(f)
    ensures f.add(f.add(s, t), s) == t
  {
    Cancel(f, s, t);
    Laws(f, f.add(s, t), s, 0);
  }

  // Dividing by the coefficient gives the sub-symbol.
  lemma LastBack(f: Field, h: Hh, val: int -> Byte)
    requires HhOk(h) && IsField(f) && Word(f, h, val)
    ensures var a := EncRow(f, h, h.k + 1)[h.k - 1];
      a != 0 && val(Ix(h, D(0, h.k - 1))) == Comb(f, [f.inv(a)], [Ix(h, Last)], val)
  {
    var a := EncRow(f, h, h.k + 1)[h.k - 1];
    var d: Byte, g: Byte := val(Ix(h, D(0, h.k - 1))), f.inv(a);
    CoefIsOne(f, h, h.k - 1);
    assert Look(0) && SpareIs(f, h, val);
    assert val(Ix(h, Last)) == f.mul(a, d);
    assert [Ix(h, Last)][..0] == [];
    assert Comb(f, [g], [Ix(h, Last)], val) == f.add(0, f.mul(g, f.mul(a, d)));
    Laws(f, g, a, d);
    Laws(f, a, g, 0);
    Laws(f, d, 1, 0);
    Laws(f, 1, d, 0);
    Laws(f, 0, d, 0);
    Laws(f, d, 0, 0);
  }

  lemma PiggybackIs(f: Field, h: Hh, val: int -> Byte, p: int)
    requires HhOk(h) && Word(f, h, val) && GroupOk(h, p)
    ensures val(Ix(h, D(1, h.k + p))) == f.add(val(Ix(h, U1(p))), val(Ix(h, Gr(p))))
  {
    assert Look(0) && HHCode.GroupAt(f, h, val, p);
  }

  // (z + s) + (u + (u + g)) == z + (s + g)
  lemma NextPair(f: Field, z: Byte, s: Byte, u: Byte, g: Byte)
    requires IsField(f)
    ensures f.add(f.add(z, s), f.add(u, f.add(u, g))) == f.add(z, f.add(s, g))
  {
    Cancel(f, u, g);
    Laws(f, z, s, g);
  }

  lemma FirstPair(f: Field, h: Hh, val: int -> Byte)
    requires HhOk(h) && IsField(f) && Word(f, h, val)
    ensures GroupOk(h, 1) && GroupEnd(h, 1) <= h.k
    ensures f.add(Comb(f, Ones(0), [], val), f.add(val(Ix(h, U1(1))), val(Ix(h, D(0, h.k + 1)))))
         == f.add(val(Ix(h, U0)), PrefixTo(f, h, val, 1))
  {
    GroupRange(h, 1);
    PrefixGrows(f, h, val, 1);
    assert Look(0);
    var u, z, g: Byte := val(Ix(h, U1(1))), val(Ix(h, U0)), val(Ix(h, Gr(1)));
    Laws(f, z, u, g);
    Laws(f, u, z, f.add(u, g));
    Laws(f, z, u, f.add(u, g));
    Cancel(f, u, g);
    Laws(f, 0, f.add(z, g), 0);
    Laws(f, f.add(z, g), 0, 0);
    assert Prefix(f, h, val, 0) == 0;
    Laws(f, 0, g, 0);
    Laws(f, g, 0, 0);
  }

  // ------------------------------------------------- the same, in every word

  lemma DataGives(f: Field, h: Hh, invert: Mat -> Mat, failed: nat)
    requires HhOk(h) && IsField(f) && Inverts(f, invert) && failed < h.k
    ensures Shape(invert(FirstRows(f, h, failed)), h.k, h.k)
    ensures Gives(f, h, D(1, failed), FirstSyms(h, failed), invert(FirstRows(f, h, failed))[failed])
  {
    FirstInverts(f, h, invert, failed);
    forall val: int -> Byte {:trigger WordsOf(f, h)(val)} | WordsOf(f, h)(val)
      ensures val(Ix(h, D(1, failed))) == Comb(f, invert(FirstRows(f, h, failed))[failed], IxAll(h, FirstSyms(h, failed)), val)
    {
      DataBack(f, h, invert, val, failed);
    }
  }

  lemma ParityBackGives(f: Field, h: Hh, invert: Mat -> Mat, failed: nat, p: nat)
    requires HhOk(h) && IsField(f) && Inverts(f, invert) && failed < h.k && GroupOk(h, p)
    ensures Shape(invert(FirstRows(f, h, failed)), h.k, h.k)
    ensures Gives(f, h, U1(p), FirstSyms(h, failed), RowTimes(f, EncRow(f, h, h.k + p), invert(FirstRows(f, h, failed)), h.k))
  {
    FirstInverts(f, h, invert, failed);
    forall val: int -> Byte {:trigger WordsOf(f, h)(val)} | WordsOf(f, h)(val)
      ensures val(Ix(h, U1(p))) == Comb(f, RowTimes(f, EncRow(f, h, h.k + p), invert(FirstRows(f, h, failed)), h.k), IxAll(h, FirstSyms(h, failed)), val)
    {
      ParityBack(f, h, invert, val, failed, p);
    }
  }

  lemma GroupBackGives(f: Field, h: Hh, p: int)
    requires HhOk(h) && IsField(f) && GroupOk(h, p)
    ensures Gives(f, h, Gr(p), [U1(p), D(1, h.k + p)], [1, 1])
  {
    forall val: int -> Byte {:trigger WordsOf(f, h)(val)} | WordsOf(f, h)(val)
      ensures val(Ix(h, Gr(p))) == Comb(f, [1, 1], IxAll(h, [U1(p), D(1, h.k + p)]), val)
    {
      GroupBack(f, h, val, p);
    }
  }

  lemma MemberGives(f: Field, h: Hh, invert: Mat -> Mat, p: int, at: nat)
    requires HhOk(h) && IsField(f) && Inverts(f, invert) && GroupOk(h, p) && at < GroupSize(h, p)
    ensures Shape(invert(GroupRows(f, h, p, at)), GroupSize(h, p), GroupSize(h, p))
    ensures Gives(f, h, D(0, GroupStart(h, p) + at), RestSyms(h, p, at), invert(GroupRows(f, h, p, at))[at])
  {
    GroupInverts(f, h, invert, p, at);
    forall val: int -> Byte {:trigger WordsOf(f, h)(val)} | WordsOf(f, h)(val)
      ensures val(Ix(h, D(0, GroupStart(h, p) + at))) == Comb(f, invert(GroupRows(f, h, p, at))[at], IxAll(h, RestSyms(h, p, at)), val)
    {
      MemberBack(f, h, invert, val, p, at);
    }
  }

  lemma CouplesGive(f: Field, h: Hh)
    requires HhOk(h) && IsField(f)
    ensures Gives(f, h, Last, CoupleSyms(h, Groups(h)), Ones(2 * Groups(h)))
  {
    forall val: int -> Byte {:trigger WordsOf(f, h)(val)} | WordsOf(f, h)(val)
      ensures val(Ix(h, Last)) == Comb(f, Ones(2 * Groups(h)), IxAll(h, CoupleSyms(h, Groups(h))), val)
    {
      AllCouples(f, h, val);
    }
  }

  lemma LastGives(f: Field, h: Hh)
    requires HhOk(h) && IsField(f)
    ensures Gives(f, h, D(0, h.k - 1), [Last], [f.inv(EncRow(f, h, h.k + 1)[h.k - 1])])
  {
    assert IxAll(h, [Last]) == [Ix(h, Last)];
    forall val: int -> Byte {:trigger WordsOf(f, h)(val)} | WordsOf(f, h)(val)
      ensures val(Ix(h, D(0, h.k - 1))) == Comb(f, [f.inv(EncRow(f, h, h.k + 1)[h.k - 1])], IxAll(h, [Last]), val)
    {
      LastBack(f, h, val);
    }
  }

  // ------------------------------------------------------- everything is there

  lemma FirstReady(h: Hh, done: set<Sym>, failed: nat)
    requires HhOk(h) && failed < h.k
    ensures AllReady(h, Needed(h, failed), done, FirstSyms(h, failed)) && FirstSyms(h, failed) != []
  {
  }

  lemma SumReady(h: Hh, done: set<Sym>, p: int, failed: int)
    requires HhOk(h) && InGroup(h, p, failed) && U1(p) in done
    ensures AllReady(h, Needed(h, failed), done, [U1(p), D(1, h.k + p)])
    ensures SymOk(h, Gr(p)) && Gr(p) !in Needed(h, failed)
  {
    GroupRange(h, p);
    assert HelpsThrough(h, p, failed, D(1, h.k + p));
    assert IsNeeded(h, failed, D(1, h.k + p));
  }

  lemma RestReady(h: Hh, done: set<Sym>, p: int, at: nat)
    requires HhOk(h) && GroupOk(h, p) && at < GroupSize(h, p) && Gr(p) in done
    ensures AllReady(h, Needed(h, GroupStart(h, p) + at), done, RestSyms(h, p, at)) && RestSyms(h, p, at) != []
  {
    GroupRange(h, p);
    var s, n, a := RestSyms(h, p, at), GroupSize(h, p), GroupStart(h, p);
    forall i | 0 <= i < n ensures Ready(h, Needed(h, a + at), done, s[i]) {
      if i < n - 1 {
        assert s[i] == D(0, a + Other(at, i));
        assert HelpsThrough(h, p, a + at, s[i]);
      }
    }
  }

  // The last data node is in no group.
  lemma {:induction false} CouplesReady(h: Hh, done: set<Sym>, p: nat)
    requires HhOk(h) && p <= Groups(h)
    requires forall q {:trigger U1(q)} :: 1 <= q <= p ==> U1(q) in done
    ensures AllReady(h, Needed(h, h.k - 1), done, CoupleSyms(h, p))
  {
    if p > 0 {
      CouplesReady(h, done, p - 1);
      assert U1(p) in done;
    }
  }

  // Every data node but the last is in exactly one group.
  lemma OneGroup(h: Hh, p: int, q: int, j: int)
    requires HhOk(h) && GroupOk(h, p) && GroupOk(h, q) && p < q
    ensures GroupEnd(h, p) <= GroupStart(h, q)
    decreases q - p
  {
    GroupRange(h, p);
    if p + 1 < q {
      OneGroup(h, p + 1, q, j);
      GroupRange(h, p + 1);
    }
  }
}
