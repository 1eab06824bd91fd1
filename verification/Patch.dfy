// The matrices that a single repair inverts: the rows of all symbols but one,
// in order, and one parity row.  They have an inverse when the parity row
// does not vanish at the missing symbol.
module Patch {
  import opened GF
  import opened Matrix

  // The i-th index other than miss, and the place of an index among those.
  function Other(miss: int, i: int): int { if i < miss then i else i + 1 }

  function PlaceOf(miss: int, r: int): int { if r < miss then r else r - 1 }

  function PatchedRow(n: nat, miss: nat, a: Row, i: nat): (r: Row)
    ensures |a| == n ==> |r| == n
  {
    if i < n - 1 then Unit(n, Other(miss, i)) else a
  }

  function Patched(n: nat, miss: nat, a: Row): (m: Mat)
    requires miss < n && |a| == n
    ensures Shape(m, n, n)
    ensures forall i :: 0 <= i < n ==> m[i] == if i < n - 1 then Unit(n, Other(miss, i)) else a
  {
    seq<Row>(n, (i: nat) => PatchedRow(n, miss, a, i))
  }

  // Column c of a matrix.
  function ColumnAt(m: Mat, cols: nat, c: nat): (r: Row)
    requires Shape(m, |m|, cols) && c < cols
    ensures |r| == |m| && forall i :: 0 <= i < |m| ==> r[i] == m[i][c]
  {
    seq(|m|, i requires 0 <= i < |m| => m[i][c])
  }

  lemma {:induction false} RowTimesAt(f: Field, a: Row, m: Mat, cols: nat, c: nat)
    requires Shape(m, |a|, cols) && c < cols
    ensures RowTimes(f, a, m, cols)[c] == Dot(f, a, ColumnAt(m, cols, c))
  {
    if a != [] {
      var n := |a| - 1;
      RowTimesAt(f, a[..n], m[..n], cols, c);
      assert ColumnAt(m, cols, c)[..n] == ColumnAt(m[..n], cols, c);
    }
  }

  lemma {:induction false} DotWithUnit(f: Field, a: Row, k: int)
    requires IsField(f)
    ensures Dot(f, a, Unit(|a|, k)) == if 0 <= k < |a| then a[k] else 0
  {
    if a != [] {
      var n := |a| - 1;
      assert Unit(|a|, k)[..n] == Unit(n, k);
      DotWithUnit(f, a[..n], k);
      Laws(f, a[n], 0, 0);
      Laws(f, 0, a[n], 0);
      Laws(f, 0, 0, 0);
      if 0 <= k < n { Laws(f, a[k], 0, 0); }
    }
  }

  // The row that gives the missing symbol: the parity minus all others,
  // divided by the coefficient of the missing one.
  function PatchAt(f: Field, miss: nat, a: Row, i: nat): Byte
    requires miss < |a| && i < |a|
  {
    var g: Byte := f.inv(a[miss]);
    if i < |a| - 1 then f.mul(g, a[Other(miss, i)]) else g
  }

  function PatchRow(f: Field, miss: nat, a: Row): (r: Row)
    requires miss < |a|
    ensures |r| == |a| && forall i :: 0 <= i < |a| ==> r[i] == PatchAt(f, miss, a, i)
  {
    seq<Byte>(|a|, i requires 0 <= i < |a| => PatchAt(f, miss, a, i))
  }

  function PatchInverseRow(f: Field, miss: nat, a: Row, r: nat): (p: Row)
    requires miss < |a|
    ensures |p| == |a|
  {
    if r == miss then PatchRow(f, miss, a) else Unit(|a|, PlaceOf(miss, r))
  }

  function PatchInverse(f: Field, miss: nat, a: Row): (p: Mat)
    requires miss < |a|
    ensures Shape(p, |a|, |a|)
    ensures forall r :: 0 <= r < |a| ==> p[r] == PatchInverseRow(f, miss, a, r)
  {
    seq<Row>(|a|, r requires 0 <= r < |a| => PatchInverseRow(f, miss, a, r))
  }

  lemma PatchColumn(n: nat, miss: nat, a: Row, c: nat)
    requires miss < n && |a| == n && c < n
    ensures var v := ColumnAt(Patched(n, miss, a), n, c);
      v[..n - 1] == Unit(n - 1, if c == miss then -1 else PlaceOf(miss, c)) && v[n - 1] == a[c]
  {
    var v := ColumnAt(Patched(n, miss, a), n, c);
    forall i | 0 <= i < n - 1 ensures v[i] == Unit(n - 1, if c == miss then -1 else PlaceOf(miss, c))[i] {
      assert v[i] == Unit(n, Other(miss, i))[c];
    }
  }

  lemma PatchRowGives(f: Field, n: nat, miss: nat, a: Row, c: nat)
    requires IsField(f) && miss < n && |a| == n && c < n && a[miss] != 0
    ensures Dot(f, PatchRow(f, miss, a), ColumnAt(Patched(n, miss, a), n, c)) == if c == miss then 1 else 0
  {
    var b, v, g := PatchRow(f, miss, a), ColumnAt(Patched(n, miss, a), n, c), f.inv(a[miss]);
    PatchColumn(n, miss, a, c);
    DotWithUnit(f, b[..n - 1], if c == miss then -1 else PlaceOf(miss, c));
    Laws(f, a[miss], g, 0);
    Laws(f, g, a[miss], 0);
    if c == miss {
      Laws(f, 0, f.mul(g, a[c]), 0);
      Laws(f, f.mul(g, a[c]), 0, 0);
    } else {
      assert b[PlaceOf(miss, c)] == f.mul(g, a[c]);
      Laws(f, f.mul(g, a[c]), 0, 0);
    }
  }

  lemma PatchIsInverse(f: Field, n: nat, miss: nat, a: Row)
    requires IsField(f) && miss < n && |a| == n && a[miss] != 0
    ensures LeftInverse(f, PatchInverse(f, miss, a), Patched(n, miss, a), n)
  {
    var p, m := PatchInverse(f, miss, a), Patched(n, miss, a);
    forall r | 0 <= r < n ensures RowTimes(f, p[r], m, n) == Unit(n, r) {
      forall c | 0 <= c < n ensures RowTimes(f, p[r], m, n)[c] == Unit(n, r)[c] {
        RowTimesAt(f, p[r], m, n, c);
        if r == miss {
          PatchRowGives(f, n, miss, a, c);
        } else {
          DotUnit(f, ColumnAt(m, n, c), PlaceOf(miss, r));
          assert m[PlaceOf(miss, r)] == Unit(n, r);
        }
      }
    }
  }

  // Powers of a field element other than 0 are not 0.
  lemma {:induction false} PowNonzero(f: Field, a: Byte, e: nat)
    requires IsField(f) && a != 0
    ensures FieldPow(f, a, e) != 0
  {
    if e > 0 {
      var p := FieldPow(f, a, e - 1);
      PowNonzero(f, a, e - 1);
      Laws(f, p, a, f.inv(a));
      Laws(f, a, f.inv(a), 0);
      Laws(f, p, 0, 0);
      Laws(f, 0, f.inv(a), 0);
      Laws(f, f.inv(a), 0, 0);
    }
  }

  lemma {:induction false} PowOfOne(f: Field, e: nat)
    requires IsField(f)
    ensures FieldPow(f, 1, e) == 1
  {
    if e > 0 {
      PowOfOne(f, e - 1);
      Laws(f, 1, 0, 0);
    }
  }
}
