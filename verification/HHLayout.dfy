// src/ec/HHXORPlus.cc: the parameters, the groups, and the symbol tables that
// the constructor fills.
module HHLayout {
  import opened GF
  import opened Matrix
  import P = Planes
  import Patch

  // n nodes, k of them data; this is instance id of ins instances that share
  // one range of symbol numbers.
  datatype Hh = Hh(n: nat, k: nat, ins: nat, id: nat)

  // Every node holds two sub-symbols; the parity nodes but the first each get
  // a group of data nodes, and the last data node is in no group.
  predicate HhOk(h: Hh) { h.n >= h.k + 3 && h.k >= 2 * (h.n - h.k - 1) && h.id < h.ins }

  function Groups(h: Hh): int { h.n - h.k - 1 }

  function GroupStart(h: Hh, p: int): int
    requires HhOk(h)
  {
    (p - 1) * (h.k / Groups(h))
  }

  function GroupEnd(h: Hh, p: int): int
    requires HhOk(h)
  {
    if p < Groups(h) then p * (h.k / Groups(h)) else h.k - 1
  }

  predicate GroupOk(h: Hh, p: int) { 1 <= p <= Groups(h) }

  lemma GroupRange(h: Hh, p: int)
    requires HhOk(h) && GroupOk(h, p)
    ensures 0 <= GroupStart(h, p) < GroupEnd(h, p) <= h.k - 1
    ensures p < Groups(h) ==> GroupEnd(h, p) == GroupStart(h, p + 1)
    ensures p == 1 ==> GroupStart(h, p) == 0
  {
    var g := Groups(h);
    var avg := h.k / g;
    assert avg >= 2 && avg * g <= h.k by { Quotient(h.k, g); }
    assert (p - 1) * avg + avg == p * avg;
    Ordered(p, g, avg);
  }

  lemma Quotient(k: int, g: int)
    requires g >= 1 && k >= 2 * g
    ensures k / g >= 2 && (k / g) * g <= k
  {
  }

  lemma Ordered(p: int, g: int, avg: int)
    requires 1 <= p <= g && avg >= 2
    ensures 0 <= (p - 1) * avg && p * avg <= g * avg && (p < g ==> p * avg <= g * avg - avg)
  {
    P.Scale(p - 1, p, avg);
    P.Scale(p, g, avg);
    if p < g {
      P.Scale(p, g - 1, avg);
      assert (g - 1) * avg == g * avg - avg;
    }
  }

  function Range(a: int, b: int): (r: seq<int>)
    ensures a <= b ==> |r| == b - a
    ensures forall i :: 0 <= i < |r| ==> r[i] == a + i
  {
    if a <= b then seq(b - a, i => a + i) else []
  }

  // The data nodes of group p: consecutive, and the groups follow each other.
  function Group(h: Hh, p: int): seq<int>
    requires HhOk(h)
  {
    Range(GroupStart(h, p), GroupEnd(h, p))
  }

  // ------------------------------------------------------------------ symbols

  // D: sub-symbol sp of a node.  U0: the uncoupled parity 1 of the first half.
  // Gr: the sum over a group.  U1: an uncoupled parity of the second half.
  // Last: the extra symbol of the repair of the last data node.
  datatype Sym = D(sp: int, node: int) | U0 | Gr(p: int) | U1(p: int) | Last

  predicate SymOk(h: Hh, s: Sym) {
    match s
    case D(sp, node) => 0 <= sp < 2 && 0 <= node < h.n
    case U0 => true
    case Gr(p) => GroupOk(h, p)
    case U1(p) => GroupOk(h, p)
    case Last => true
  }

  function LayoutAt(h: Hh, sp: int, node: int): int { node * (2 * h.ins) + h.id * 2 + sp }

  // Additional symbols of one instance, and where those of this one start.
  function Additional(h: Hh): int { 2 * (Groups(h) + 1) }

  function Base(h: Hh): int { h.n * (2 * h.ins) + h.id * Additional(h) }

  function Ix(h: Hh, s: Sym): int {
    match s
    case D(sp, node) => LayoutAt(h, sp, node)
    case U0 => Base(h)
    case Gr(p) => Base(h) + p
    case U1(p) => Base(h) + Groups(h) + p
    case Last => Base(h) + 2 * Groups(h) + 1
  }

  lemma LayoutBelow(h: Hh, sp: int, node: int)
    requires HhOk(h) && 0 <= sp < 2 && 0 <= node < h.n
    ensures 0 <= LayoutAt(h, sp, node) < Base(h)
  {
    var w := 2 * h.ins;
    P.Scale(0, node, w);
    P.Scale(node + 1, h.n, w);
    assert (node + 1) * w == node * w + w;
    P.Scale(0, h.id, Additional(h));
  }

  lemma LayoutApart(h: Hh, a: int, x: int, b: int, y: int)
    requires HhOk(h) && 0 <= a < 2 && 0 <= b < 2 && LayoutAt(h, a, x) == LayoutAt(h, b, y)
    ensures a == b && x == y
  {
    P.DivMod(x, h.id * 2 + a, 2 * h.ins);
    P.DivMod(y, h.id * 2 + b, 2 * h.ins);
  }

  // No two symbols share a number.
  lemma IxApart(h: Hh, s: Sym, t: Sym)
    requires HhOk(h) && SymOk(h, s) && SymOk(h, t)
    ensures Ix(h, s) == Ix(h, t) <==> s == t
  {
    if s.D? { LayoutBelow(h, s.sp, s.node); }
    if t.D? { LayoutBelow(h, t.sp, t.node); }
    if s.D? && t.D? && Ix(h, s) == Ix(h, t) { LayoutApart(h, s.sp, s.node, t.sp, t.node); }
  }

  // The uncoupled parity i of half sp: for the parities that carry no group
  // it is the stored symbol.
  function Uncoupled(h: Hh, sp: int, i: int): Sym {
    if sp == 0 && i == 1 then U0 else if sp == 1 && i >= 1 then U1(i) else D(sp, h.k + i)
  }

  // ------------------------------------------------------------ coding matrix

  // Rows k and k + 1 of the generated matrix are exchanged: the row of ones is
  // the one that the groups use.
  function EncRow(f: Field, h: Hh, i: nat): (r: Row)
    ensures |r| == h.k
  {
    GeneratorRow(f, h.k, if i == h.k then h.k + 1 else if i == h.k + 1 then h.k else i)
  }

  function EncMatrix(f: Field, h: Hh): (m: Mat)
    ensures |m| == h.n && forall i :: 0 <= i < h.n ==> m[i] == EncRow(f, h, i)
  {
    seq<Row>(h.n, (i: nat) => EncRow(f, h, i))
  }

  // ------------------------------------------------------------- the constructor

  ghost predicate LayoutIs(h: Hh, layout: seq<seq<int>>, from: nat, count: nat) {
    |layout| == 2 && forall sp :: 0 <= sp < 2 ==>
      |layout[sp]| == count && forall i :: 0 <= i < count ==> layout[sp][i] == LayoutAt(h, sp, from + i)
  }

  ghost predicate UncoupledIs(h: Hh, rows: seq<seq<int>>) {
    |rows| == 2 && forall sp :: 0 <= sp < 2 ==>
      |rows[sp]| == h.n - h.k && forall i :: 0 <= i < h.n - h.k ==> rows[sp][i] == Ix(h, Uncoupled(h, sp, i))
  }

  ghost predicate GroupsAre(h: Hh, groups: map<int, seq<int>>, upto: int)
    requires HhOk(h)
  {
    (forall p :: p in groups <==> 1 <= p <= upto) && forall p :: p in groups ==> groups[p] == Group(h, p)
  }

  ghost predicate CodesAre(h: Hh, codes: map<int, int>, upto: int) {
    (forall p :: p in codes <==> 1 <= p <= upto) && forall p :: p in codes ==> codes[p] == Ix(h, Gr(p))
  }

  // Consecutive data nodes, group by group; the last group leaves one out.
  method DivideGroups(h: Hh) returns (groups: map<int, seq<int>>)
    requires HhOk(h)
    ensures GroupsAre(h, groups, Groups(h))
    ensures var count := h.n - h.k - 1; var avg := h.k / count;
      forall p :: 1 <= p <= count ==>
        && |groups[p]| == (if p < count then avg else h.k - avg * (count - 1) - 1)
        && forall i :: 0 <= i < |groups[p]| ==> groups[p][i] == (p - 1) * avg + i
  {
    groups := map[];
    var count := h.n - h.k - 1;
    var avg := h.k / count;
    var last := h.k - avg * (count - 1) - 1;
    var i, next := 0, 0;
    while i < count
      invariant 0 <= i <= count && GroupsAre(h, groups, i)
      invariant next == if i < count then GroupStart(h, i + 1) else h.k - 1
    {
      var size := if i < count - 1 then avg else last;
      GroupRange(h, i + 1);
      GroupSizes(h, i + 1);
      var group := [];
      var d := 0;
      while d < size
        invariant 0 <= d <= size && group == Range(GroupStart(h, i + 1), GroupStart(h, i + 1) + d)
        invariant next == GroupStart(h, i + 1) + d
      {
        group := group + [next];
        next := next + 1;
        d := d + 1;
      }
      groups := groups[i + 1 := group];
      i := i + 1;
    }
    forall p | 1 <= p <= count ensures |groups[p]| == if p < count then avg else h.k - avg * (count - 1) - 1 {
      GroupRange(h, p);
      GroupSizes(h, p);
    }
  }

  lemma GroupSizes(h: Hh, p: int)
    requires HhOk(h) && GroupOk(h, p)
    ensures var avg := h.k / Groups(h);
      GroupEnd(h, p) - GroupStart(h, p) == if p < Groups(h) then avg else h.k - avg * (Groups(h) - 1) - 1
  {
    var avg := h.k / Groups(h);
    assert p * avg == (p - 1) * avg + avg;
  }

  // The numbers of all instances are laid out, and those of one are kept.
  method InitLayout(h: Hh) returns (layout: seq<seq<int>>, additional: seq<int>)
    requires HhOk(h)
    ensures LayoutIs(h, layout, 0, h.n)
    ensures forall sp, node :: 0 <= sp < 2 && 0 <= node < h.n ==> layout[sp][node] == node * 2 * h.ins + h.id * 2 + sp
    ensures forall t :: 0 <= t < |additional| ==> additional[t] == h.n * 2 * h.ins + h.id * |additional| + t
    ensures |additional| == Additional(h) && forall t :: 0 <= t < |additional| ==> additional[t] == Base(h) + t
  {
    layout := [];
    var sp := 0;
    while sp < 2
      invariant 0 <= sp <= 2 && |layout| == sp
      invariant forall a :: 0 <= a < sp ==> |layout[a]| == h.n && forall i :: 0 <= i < h.n ==> layout[a][i] == LayoutAt(h, a, i)
    {
      var row := [];
      var node := 0;
      while node < h.n
        invariant 0 <= node <= h.n && |row| == node && forall i :: 0 <= i < node ==> row[i] == LayoutAt(h, sp, i)
      {
        row := row + [node * (2 * h.ins) + h.id * 2 + sp];
        node := node + 1;
      }
      layout := layout + [row];
      sp := sp + 1;
    }
    additional := Number(h);
  }

  // One counter runs through the additional symbols of all instances.
  method Number(h: Hh) returns (mine: seq<int>)
    requires HhOk(h)
    ensures |mine| == Additional(h) && forall t :: 0 <= t < |mine| ==> mine[t] == Base(h) + t
  {
    mine := [];
    var next := h.n * (2 * h.ins);
    var i := 0;
    while i < h.ins
      invariant 0 <= i <= h.ins && next == h.n * (2 * h.ins) + i * Additional(h)
      invariant i > h.id ==> |mine| == Additional(h) && forall t :: 0 <= t < |mine| ==> mine[t] == Base(h) + t
    {
      var block := [];
      var t := 0;
      while t < Additional(h)
        invariant 0 <= t <= Additional(h) && |block| == t && next == h.n * (2 * h.ins) + i * Additional(h) + t
        invariant forall a :: 0 <= a < t ==> block[a] == h.n * (2 * h.ins) + i * Additional(h) + a
      {
        block := block + [next];
        next := next + 1;
        t := t + 1;
      }
      if i == h.id { mine := block; }
      assert (i + 1) * Additional(h) == i * Additional(h) + Additional(h);
      i := i + 1;
    }
  }

  // The additional symbols in the order in which they are handed out: the one
  // uncoupled parity of the first half, the groups, and the second half.
  method AssignSymbols(h: Hh, code: seq<seq<int>>, additional: seq<int>) returns (uncoupled: seq<seq<int>>, codes: map<int, int>)
    requires HhOk(h) && LayoutIs(h, code, h.k, h.n - h.k)
    requires |additional| == Additional(h) && forall t :: 0 <= t < |additional| ==> additional[t] == Base(h) + t
    ensures UncoupledIs(h, uncoupled) && CodesAre(h, codes, Groups(h))
    ensures uncoupled[0] == code[0][1 := additional[0]] && uncoupled[1][0] == code[1][0]
    ensures forall p :: 1 <= p < h.n - h.k ==> codes[p] == additional[p] && uncoupled[1][p] == additional[h.n - h.k - 1 + p]
  {
    var first := code[0][1 := additional[0]];
    codes := map[];
    var next, p := 1, 1;
    while p <= Groups(h)
      invariant 1 <= p <= Groups(h) + 1 && next == p && CodesAre(h, codes, p - 1)
    {
      codes := codes[p := additional[next]];
      next := next + 1;
      p := p + 1;
    }
    var second := code[1];
    p := 1;
    while p <= Groups(h)
      invariant 1 <= p <= Groups(h) + 1 && next == Groups(h) + p && |second| == h.n - h.k
      invariant forall i :: 1 <= i < p ==> second[i] == Ix(h, U1(i))
      invariant second[0] == code[1][0]
    {
      second := second[p := additional[next]];
      next := next + 1;
      p := p + 1;
    }
    uncoupled := [first, second];
  }

  // Row k is multiplied on by 2, row k + 1 by 1, and every later row i by
  // i - k + 1, all of them from 1; above them is the identity.
  method MakeMatrix(f: Field, h: Hh) returns (matrix: Mat)
    requires HhOk(h)
    ensures matrix == EncMatrix(f, h)
    ensures forall i, j :: 0 <= i < h.k && 0 <= j < h.k ==> matrix[i][j] == if i == j then 1 else 0
    ensures forall i :: h.k <= i < h.n ==> matrix[i][0] == 1
    ensures forall j {:trigger matrix[h.k][j]} :: 0 < j < h.k ==> matrix[h.k][j] == f.mul(matrix[h.k][j - 1], 2)
    ensures forall j {:trigger matrix[h.k + 1][j]} :: 0 < j < h.k ==> matrix[h.k + 1][j] == f.mul(matrix[h.k + 1][j - 1], 1)
    ensures forall i, j {:trigger matrix[i][j]} :: h.k + 2 <= i < h.n && 0 < j < h.k ==>
              matrix[i][j] == f.mul(matrix[i][j - 1], (i - h.k + 1) % 256)
  {
    matrix := GenerateMatrix(f, h.n, h.k);
    var row := matrix[h.k];
    matrix := matrix[h.k := matrix[h.k + 1]];
    matrix := matrix[h.k + 1 := row];
    assert matrix == EncMatrix(f, h);
    forall i, j | h.k <= i < h.n && 0 < j < h.k ensures EncRow(f, h, i)[j] == f.mul(EncRow(f, h, i)[j - 1], RowBase(h, i) % 256) {
      PowerEntry(f, h.k, h.k - 1 + RowBase(h, i), j);
    }
  }

  // What row i is multiplied on by.
  function RowBase(h: Hh, i: nat): int { if i == h.k then 2 else if i == h.k + 1 then 1 else i - h.k + 1 }

  // The exchanged rows: powers of 2 that start with 1 and 2, and ones.
  lemma ExchangedRows(f: Field, h: Hh, j: nat)
    requires HhOk(h) && IsField(f) && j < h.k
    ensures EncRow(f, h, h.k + 1)[j] == 1
    ensures EncRow(f, h, h.k)[j] == if j == 0 then 1 else f.mul(EncRow(f, h, h.k)[j - 1], 2)
    ensures EncRow(f, h, h.k)[1] == 2
  {
    Patch.PowOfOne(f, j);
    Small(f);
    if j > 0 { PowerEntry(f, h.k, h.k + 1, j); }
    PowerEntry(f, h.k, h.k + 1, 1);
  }
}
