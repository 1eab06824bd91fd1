// Coding matrices over the field: generate_matrix, and what an inverse of
// selected rows is good for.
module Matrix {
  import opened GF

  type Row = seq<Byte>
  type Mat = seq<Row>

  predicate Shape(m: Mat, rows: nat, cols: nat) {
    |m| == rows && forall i :: 0 <= i < rows ==> |m[i]| == cols
  }

  function Dot(f: Field, a: Row, v: Row): Byte
    requires |a| == |v|
  {
    if a == [] then 0
    else
      var n := |a| - 1;
      f.add(Dot(f, a[..n], v[..n]), f.mul(a[n], v[n]))
  }

  function Plus(f: Field, a: Row, b: Row): (r: Row)
    requires |a| == |b|
    ensures |r| == |a| && forall i :: 0 <= i < |r| ==> r[i] == f.add(a[i], b[i])
  {
    seq<Byte>(|a|, i requires 0 <= i < |a| => f.add(a[i], b[i]))
  }

  function Times(f: Field, c: Byte, a: Row): (r: Row)
    ensures |r| == |a| && forall i :: 0 <= i < |r| ==> r[i] == f.mul(c, a[i])
  {
    seq<Byte>(|a|, i requires 0 <= i < |a| => f.mul(c, a[i]))
  }

  function Zeros(n: nat): (r: Row)
    ensures |r| == n && forall i :: 0 <= i < n ==> r[i] == 0
  {
    seq(n, _ => 0)
  }

  // The row vector a multiplied by the matrix m.
  function RowTimes(f: Field, a: Row, m: Mat, cols: nat): (r: Row)
    requires Shape(m, |a|, cols)
    ensures |r| == cols
  {
    if a == [] then Zeros(cols)
    else
      var n := |a| - 1;
      Plus(f, RowTimes(f, a[..n], m[..n], cols), Times(f, a[n], m[n]))
  }

  // The matrix m applied to the column v.
  function Apply(f: Field, m: Mat, v: Row): (r: Row)
    requires Shape(m, |m|, |v|)
    ensures |r| == |m| && forall i :: 0 <= i < |m| ==> r[i] == Dot(f, m[i], v)
  {
    seq(|m|, i requires 0 <= i < |m| => Dot(f, m[i], v))
  }

  function Unit(n: nat, k: int): (r: Row)
    ensures |r| == n && forall i :: 0 <= i < n ==> r[i] == if i == k then 1 else 0
  {
    seq(n, i => if i == k then 1 else 0)
  }

  // p is a left inverse of the n by n matrix m.
  ghost predicate LeftInverse(f: Field, p: Mat, m: Mat, n: nat) {
    && Shape(m, n, n) && Shape(p, n, n)
    && forall i :: 0 <= i < n ==> RowTimes(f, p[i], m, n) == Unit(n, i)
  }

  // ------------------------------------------------------------------ algebra

  lemma {:induction false} DotPlus(f: Field, a: Row, b: Row, v: Row)
    requires IsField(f) && |a| == |b| == |v|
    ensures Dot(f, Plus(f, a, b), v) == f.add(Dot(f, a, v), Dot(f, b, v))
  {
    if a == [] {
      Laws(f, 0, 0, 0);
    } else {
      var n := |a| - 1;
      DotPlus(f, a[..n], b[..n], v[..n]);
      assert Plus(f, a, b)[..n] == Plus(f, a[..n], b[..n]);
      Laws(f, v[n], a[n], b[n]);
      Laws(f, f.add(a[n], b[n]), v[n], 0);
      Laws(f, a[n], v[n], 0);
      Laws(f, b[n], v[n], 0);
      Exchange(f, Dot(f, a[..n], v[..n]), Dot(f, b[..n], v[..n]), f.mul(a[n], v[n]), f.mul(b[n], v[n]));
    }
  }

  lemma {:induction false} DotTimes(f: Field, c: Byte, a: Row, v: Row)
    requires IsField(f) && |a| == |v|
    ensures Dot(f, Times(f, c, a), v) == f.mul(c, Dot(f, a, v))
  {
    if a == [] {
      Laws(f, c, 0, 0);
    } else {
      var n := |a| - 1;
      DotTimes(f, c, a[..n], v[..n]);
      assert Times(f, c, a)[..n] == Times(f, c, a[..n]);
      Laws(f, c, a[n], v[n]);
      Laws(f, c, Dot(f, a[..n], v[..n]), f.mul(a[n], v[n]));
    }
  }

  lemma {:induction false} DotZeros(f: Field, n: nat, v: Row)
    requires IsField(f) && |v| == n
    ensures Dot(f, Zeros(n), v) == 0
  {
    if n > 0 {
      DotZeros(f, n - 1, v[..n - 1]);
      assert Zeros(n)[..n - 1] == Zeros(n - 1);
      Laws(f, v[n - 1], 0, 0);
      Laws(f, 0, v[n - 1], 0);
      Laws(f, 0, 0, 0);
    }
  }

  // (a m) v == a (m v)
  lemma {:induction false} Associate(f: Field, a: Row, m: Mat, v: Row)
    requires IsField(f) && Shape(m, |a|, |v|)
    ensures Dot(f, RowTimes(f, a, m, |v|), v) == Dot(f, a, Apply(f, m, v))
  {
    if a == [] {
      DotZeros(f, |v|, v);
    } else {
      var n := |a| - 1;
      Associate(f, a[..n], m[..n], v);
      DotPlus(f, RowTimes(f, a[..n], m[..n], |v|), Times(f, a[n], m[n]), v);
      DotTimes(f, a[n], m[n], v);
      assert Apply(f, m, v)[..n] == Apply(f, m[..n], v);
    }
  }

  lemma {:induction false} DotUnit(f: Field, v: Row, k: nat)
    requires IsField(f) && k < |v|
    ensures Dot(f, Unit(|v|, k), v) == v[k]
  {
    var n := |v| - 1;
    var u := Unit(|v|, k);
    Laws(f, v[n], 0, 0);
    Laws(f, 0, v[n], 0);
    Laws(f, 1, v[n], 0);
    Laws(f, v[n], 1, 0);
    if k == n {
      assert u[..n] == Zeros(n);
      DotZeros(f, n, v[..n]);
    } else {
      DotUnit(f, v[..n], k);
      assert u[..n] == Unit(n, k);
      Laws(f, v[k], 0, 0);
    }
  }

  // A symbol that is row e of the code is a combination of any symbols whose
  // rows have an inverse: multiply e by the inverse.
  lemma Recover(f: Field, inverse: Mat, sel: Mat, e: Row, data: Row)
    requires IsField(f) && LeftInverse(f, inverse, sel, |data|) && |e| == |data|
    ensures Dot(f, RowTimes(f, e, inverse, |data|), Apply(f, sel, data)) == Dot(f, e, data)
  {
    var s := Apply(f, sel, data);
    Associate(f, e, inverse, s);
    forall i | 0 <= i < |data| ensures Apply(f, inverse, s)[i] == data[i] {
      UndoAt(f, inverse[i], sel, data, i);
    }
    DotAgrees(f, e, Apply(f, inverse, s), data);
  }

  // The same for any column s with those values.
  lemma RecoverFrom(f: Field, inverse: Mat, sel: Mat, e: Row, data: Row, s: Row)
    requires IsField(f) && LeftInverse(f, inverse, sel, |data|) && |e| == |data| == |s|
    requires forall i :: 0 <= i < |s| ==> s[i] == Dot(f, sel[i], data)
    ensures Dot(f, RowTimes(f, e, inverse, |data|), s) == Dot(f, e, data)
  {
    Recover(f, inverse, sel, e, data);
    DotAgrees(f, RowTimes(f, e, inverse, |data|), s, Apply(f, sel, data));
  }

  lemma {:induction false} DotAgrees(f: Field, a: Row, u: Row, v: Row)
    requires |a| == |u| == |v| && forall i :: 0 <= i < |u| ==> u[i] == v[i]
    ensures Dot(f, a, u) == Dot(f, a, v)
  {
    if a != [] {
      var n := |a| - 1;
      DotAgrees(f, a[..n], u[..n], v[..n]);
    }
  }

  lemma UndoAt(f: Field, row: Row, sel: Mat, data: Row, i: nat)
    requires IsField(f) && Shape(sel, |data|, |data|) && |row| == |data| && i < |data|
    requires RowTimes(f, row, sel, |data|) == Unit(|data|, i)
    ensures Dot(f, row, Apply(f, sel, data)) == data[i]
  {
    Associate(f, row, sel, data);
    DotUnit(f, data, i);
  }

  // ------------------------------------------------------ combinations in a DAG

  function ValuesOf(val: int -> Byte, xs: seq<int>): (r: Row)
    ensures |r| == |xs| && forall i :: 0 <= i < |xs| ==> r[i] == val(xs[i])
  {
    seq(|xs|, i requires 0 <= i < |xs| => val(xs[i]))
  }

  lemma {:induction false} CombIsDot(f: Field, cs: Row, xs: seq<int>, val: int -> Byte)
    requires |cs| == |xs|
    ensures Comb(f, cs, xs, val) == Dot(f, cs, ValuesOf(val, xs))
  {
    if xs != [] {
      var n := |xs| - 1;
      CombIsDot(f, cs[..n], xs[..n], val);
      SameCoefs(f, cs, cs[..n], xs[..n], val);
      assert ValuesOf(val, xs)[..n] == ValuesOf(val, xs[..n]);
    }
  }

  lemma {:induction false} SameCoefs(f: Field, a: seq<int>, b: seq<int>, xs: seq<int>, val: int -> Byte)
    requires forall i :: 0 <= i < |xs| ==> CoefAt(a, i) == CoefAt(b, i)
    ensures Comb(f, a, xs, val) == Comb(f, b, xs, val)
  {
    if xs != [] { SameCoefs(f, a, b, xs[..|xs| - 1], val); }
  }

  // -------------------------------------------------------- the coding matrix

  function FieldPow(f: Field, a: Byte, e: nat): Byte {
    if e == 0 then 1 else f.mul(FieldPow(f, a, e - 1), a)
  }

  // Identity on top, powers of 1, 2, 3, ... below.
  function Generator(f: Field, rows: nat, cols: nat): (m: Mat)
    ensures Shape(m, rows, cols)
    ensures forall i :: 0 <= i < rows ==> m[i] == GeneratorRow(f, cols, i)
  {
    seq(rows, (i: nat) => GeneratorRow(f, cols, i))
  }

  function GeneratorRow(f: Field, cols: nat, i: nat): (r: Row)
    ensures |r| == cols
    ensures i < cols ==> r == Unit(cols, i)
  {
    if i < cols then Unit(cols, i) else seq(cols, (j: nat) => FieldPow(f, Cast(i - cols + 1), j))
  }

  // generate_matrix. Entry by entry: the identity on top; below, each row
  // starts with 1 and is multiplied on by 1, 2, 3, ... from entry to entry.
  method GenerateMatrix(f: Field, rows: nat, cols: nat) returns (matrix: Mat)
    requires cols <= rows
    ensures matrix == Generator(f, rows, cols)
    ensures |matrix| == rows && forall i :: 0 <= i < rows ==> |matrix[i]| == cols
    ensures forall i, j :: 0 <= i < cols && 0 <= j < cols ==> matrix[i][j] == if i == j then 1 else 0
    ensures forall i :: cols <= i < rows && cols > 0 ==> matrix[i][0] == 1
    ensures forall i, j {:trigger matrix[i][j]} :: cols <= i < rows && 0 < j < cols ==>
              matrix[i][j] == f.mul(matrix[i][j - 1], (i - cols + 1) % 256)
  {
    matrix := [];
    var i := 0;
    while i < cols
      invariant 0 <= i <= cols && matrix == Generator(f, i, cols)
    {
      matrix := matrix + [Unit(cols, i)];
      i := i + 1;
    }
    var a := 1;
    i := 0;
    while i < rows - cols
      invariant 0 <= i <= rows - cols && a == i + 1 && matrix == Generator(f, cols + i, cols)
    {
      var row: Row := [];
      var tmp: Byte := 1;
      var j := 0;
      while j < cols
        invariant 0 <= j <= cols && tmp == FieldPow(f, Cast(a), j)
        invariant row == seq(j, (l: nat) => FieldPow(f, Cast(a), l))
      {
        row := row + [tmp];
        tmp := f.mul(tmp, Cast(a));
        j := j + 1;
      }
      matrix := matrix + [row];
      a := a + 1;
      i := i + 1;
    }
    forall i, j | cols <= i < rows && 0 < j < cols
      ensures matrix[i][j] == f.mul(matrix[i][j - 1], (i - cols + 1) % 256)
    {
      PowerEntry(f, cols, i, j);
    }
  }

  lemma PowerEntry(f: Field, cols: nat, i: nat, j: nat)
    requires cols <= i && 0 < j < cols
    ensures GeneratorRow(f, cols, i)[j] == f.mul(GeneratorRow(f, cols, i)[j - 1], (i - cols + 1) % 256)
  {
  }

  // ------------------------------------------------------------- the inverter

  // Whatever the library does, it inverts what can be inverted.
  ghost predicate Inverts(f: Field, invert: Mat -> Mat) {
    forall m: Mat, p: Mat, n: nat {:trigger LeftInverse(f, p, m, n)} ::
      LeftInverse(f, p, m, n) ==> LeftInverse(f, invert(m), m, n)
  }

  function Select(m: Mat, lines: seq<int>): (r: Mat)
    requires forall i :: 0 <= i < |lines| ==> 0 <= lines[i] < |m|
    ensures |r| == |lines| && forall i :: 0 <= i < |lines| ==> r[i] == m[lines[i]]
  {
    seq(|lines|, i requires 0 <= i < |lines| => m[lines[i]])
  }

  // The four rows of the pairwise transform, and for each pair of them that
  // the code solves, an inverse.
  function PairMatrix(f: Field): Mat { Generator(f, 4, 2) }

  lemma PairRows(f: Field)
    requires IsField(f)
    ensures PairMatrix(f) == [[1, 0], [0, 1], [1, 1], [1, 2]]
  {
    Laws(f, 1, 1, 0);
    Laws(f, 1, 2, 0);
    Laws(f, 2, 1, 0);
    var m := PairMatrix(f);
    assert m[0] == [1, 0] && m[1] == [0, 1];
    assert FieldPow(f, Cast(1), 1) == f.mul(FieldPow(f, Cast(1), 0), 1);
    assert FieldPow(f, Cast(2), 1) == f.mul(FieldPow(f, Cast(2), 0), 2);
    assert m[2] == [1, 1] && m[3] == [1, 2];
  }

  lemma TwoByTwo(f: Field, a: Row, m: Mat)
    requires IsField(f) && |a| == 2 && Shape(m, 2, 2)
    ensures RowTimes(f, a, m, 2) == [f.add(f.mul(a[0], m[0][0]), f.mul(a[1], m[1][0])),
                                     f.add(f.mul(a[0], m[0][1]), f.mul(a[1], m[1][1]))]
  {
    var b := a[..1];
    var k := m[..1];
    assert b[..0] == [] && k[..0] == [];
    assert RowTimes(f, b[..0], k[..0], 2) == Zeros(2);
    assert RowTimes(f, b, k, 2) == Plus(f, Zeros(2), Times(f, b[0], k[0]));
    assert RowTimes(f, a, m, 2) == Plus(f, RowTimes(f, b, k, 2), Times(f, a[1], m[1]));
    Laws(f, 0, f.mul(a[0], m[0][0]), 0);
    Laws(f, f.mul(a[0], m[0][0]), 0, 0);
    Laws(f, 0, f.mul(a[0], m[0][1]), 0);
    Laws(f, f.mul(a[0], m[0][1]), 0, 0);
  }

  lemma Small(f: Field)
    requires IsField(f)
    ensures f.mul(0, 0) == 0 && f.mul(0, 1) == 0 && f.mul(1, 0) == 0 && f.mul(1, 1) == 1
    ensures f.mul(1, 2) == 2 && f.mul(2, 1) == 2 && f.mul(2, 0) == 0 && f.mul(0, 2) == 0
    ensures f.add(0, 0) == 0 && f.add(0, 1) == 1 && f.add(1, 0) == 1 && f.add(1, 1) == 0 && f.add(2, 2) == 0
    ensures f.add(0, 2) == 2 && f.add(1, 2) == f.add(2, 1) && f.add(2, 1) != 0
  {
    Laws(f, 0, 1, 0);
    Laws(f, 1, 0, 1);
    Laws(f, 1, 1, 0);
    Laws(f, 0, 0, 0);
    Laws(f, 1, 2, 0);
    Laws(f, 2, 1, 1);
    Laws(f, 2, 0, 0);
    Laws(f, 0, 2, 0);
    Laws(f, 2, 2, 0);
  }

  lemma {:induction false} PairInverse(f: Field, invert: Mat -> Mat, a: int, b: int)
    requires IsField(f) && Inverts(f, invert)
    requires (a == 0 && b == 2) || (a == 1 && b == 2) || (a == 0 && b == 3) || (a == 1 && b == 3) || (a == 2 && b == 3)
    ensures var sel := Select(PairMatrix(f), [a, b]); LeftInverse(f, invert(sel), sel, 2)
  {
    PairRows(f);
    Small(f);
    var sel := Select(PairMatrix(f), [a, b]);
    var h, g := f.inv(2), f.inv(f.add(2, 1));
    var p: Mat;
    if a == 0 && b == 2 { p := [[1, 0], [1, 1]]; }
    else if a == 1 && b == 2 { p := [[1, 1], [1, 0]]; }
    else if a == 0 {
      Laws(f, h, 1, 0);
      Laws(f, 2, h, 0);
      Laws(f, h, 2, 0);
      Laws(f, h, h, 0);
      p := [[1, 0], [h, h]];
    }
    else if a == 1 { p := [[2, 1], [1, 0]]; }
    else {
      var g2 := f.mul(g, 2);
      Laws(f, g, 2, 1);
      Laws(f, g, 1, 2);
      Laws(f, g2, 1, 0);
      Laws(f, f.add(2, 1), g, 0);
      Laws(f, g, f.add(2, 1), 0);
      Laws(f, g, 1, 0);
      Laws(f, g2, g2, 0);
      Laws(f, g, g, 0);
      p := [[g2, g], [g, g]];
    }
    forall i | 0 <= i < 2 ensures RowTimes(f, p[i], sel, 2) == Unit(2, i) {
      TwoByTwo(f, p[i], sel);
    }
    assert LeftInverse(f, p, sel, 2);
  }
}
