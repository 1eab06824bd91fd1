// How many losses the coding matrix bears: the rows of all symbols but two and
// two parity rows have an inverse exactly when the powers of 2 at the two
// symbols differ.
module TwoLost {
  import opened GF
  import opened Matrix
  import opened Patch
  import P = Planes
  import opened ClayIndex
  import opened ClayCode
  import opened ClayJoin
  import opened ClayEncode

  // The i-th index other than a and b, and the place of an index among those.
  function Skip(a: int, b: int, i: int): int
    requires a < b
  {
    if i < a then i else if i + 1 < b then i + 1 else i + 2
  }

  function SkipPlace(a: int, b: int, r: int): int
    requires a < b
  {
    if r < a then r else if r < b then r - 1 else r - 2
  }

  // All unit rows but a and b, then the parity rows u and w.
  function TwoRows(n: nat, a: nat, b: nat, u: Row, w: Row): (m: Mat)
    requires a < b < n && |u| == |w| == n
    ensures Shape(m, n, n)
    ensures forall i :: 0 <= i < n ==> m[i] == if i < n - 2 then Unit(n, Skip(a, b, i)) else if i == n - 2 then u else w
  {
    seq<Row>(n, (i: nat) => if i < n - 2 then Unit(n, Skip(a, b, i)) else if i == n - 2 then u else w)
  }

  function Minor(f: Field, a: nat, b: nat, u: Row, w: Row): Byte
    requires a < |u| == |w| && b < |u|
  {
    f.add(f.mul(u[a], w[b]), f.mul(u[b], w[a]))
  }

  // The row that gives symbol a: x and y are the coefficients of the two
  // parities, and every other symbol is taken out of both.
  function SolveAt(f: Field, a: nat, b: nat, u: Row, w: Row, x: Byte, y: Byte, i: nat): Byte
    requires a < b < |u| == |w| && i < |u|
  {
    if i < |u| - 2 then f.add(f.mul(x, u[Skip(a, b, i)]), f.mul(y, w[Skip(a, b, i)]))
    else if i == |u| - 2 then x else y
  }

  function SolveRow(f: Field, a: nat, b: nat, u: Row, w: Row, x: Byte, y: Byte): (r: Row)
    requires a < b < |u| == |w|
    ensures |r| == |u| && forall i :: 0 <= i < |u| ==> r[i] == SolveAt(f, a, b, u, w, x, y, i)
  {
    seq<Byte>(|u|, i requires 0 <= i < |u| => SolveAt(f, a, b, u, w, x, y, i))
  }

  lemma TwoColumn(n: nat, a: nat, b: nat, u: Row, w: Row, c: nat)
    requires a < b < n && |u| == |w| == n && c < n
    ensures var v := ColumnAt(TwoRows(n, a, b, u, w), n, c);
      && v[..n - 2] == Unit(n - 2, if c == a || c == b then -1 else SkipPlace(a, b, c))
      && v[n - 2] == u[c] && v[n - 1] == w[c]
  {
    var v := ColumnAt(TwoRows(n, a, b, u, w), n, c);
    forall i | 0 <= i < n - 2 ensures v[i] == Unit(n - 2, if c == a || c == b then -1 else SkipPlace(a, b, c))[i] {
      assert v[i] == Unit(n, Skip(a, b, i))[c];
    }
  }

  // The row times column c of the matrix.
  lemma SolveGives(f: Field, n: nat, a: nat, b: nat, u: Row, w: Row, x: Byte, y: Byte, c: nat)
    requires IsField(f) && a < b < n && |u| == |w| == n && c < n
    ensures Dot(f, SolveRow(f, a, b, u, w, x, y), ColumnAt(TwoRows(n, a, b, u, w), n, c))
         == if c == a || c == b then f.add(f.mul(x, u[c]), f.mul(y, w[c])) else 0
  {
    var s, v := SolveRow(f, a, b, u, w, x, y), ColumnAt(TwoRows(n, a, b, u, w), n, c);
    TwoColumn(n, a, b, u, w, c);
    var k := if c == a || c == b then -1 else SkipPlace(a, b, c);
    DotWithUnit(f, s[..n - 2], k);
    LastTwo(f, s, v, n);
    Cancels(f, f.mul(x, u[c]), f.mul(y, w[c]));
    assert c != a && c != b ==> s[k] == f.add(f.mul(x, u[c]), f.mul(y, w[c]));
  }

  lemma Cancels(f: Field, p: Byte, q: Byte)
    requires IsField(f)
    ensures f.add(f.add(0, p), q) == f.add(p, q)
    ensures f.add(f.add(f.add(p, q), p), q) == 0
  {
    Laws(f, 0, p, 0);
    Laws(f, p, 0, 0);
    Laws(f, f.add(p, q), p, q);
    Laws(f, f.add(p, q), 0, 0);
  }

  lemma LastTwo(f: Field, s: Row, v: Row, n: nat)
    requires |s| == |v| == n && n >= 2
    ensures Dot(f, s, v) == f.add(f.add(Dot(f, s[..n - 2], v[..n - 2]), f.mul(s[n - 2], v[n - 2])), f.mul(s[n - 1], v[n - 1]))
  {
    assert s[..n - 1][..n - 2] == s[..n - 2] && v[..n - 1][..n - 2] == v[..n - 2];
  }

  // x u + y w at both symbols, with x and y as the other symbol's entries
  // divided by the minor.
  lemma Solution(f: Field, ua: Byte, ub: Byte, wa: Byte, wb: Byte)
    requires IsField(f) && f.add(f.mul(ua, wb), f.mul(ub, wa)) != 0
    ensures var g := f.inv(f.add(f.mul(ua, wb), f.mul(ub, wa)));
      && f.add(f.mul(f.mul(g, wb), ua), f.mul(f.mul(g, ub), wa)) == 1
      && f.add(f.mul(f.mul(g, wb), ub), f.mul(f.mul(g, ub), wb)) == 0
  {
    var d := f.add(f.mul(ua, wb), f.mul(ub, wa));
    var g := f.inv(d);
    Laws(f, g, wb, ua);
    Laws(f, g, ub, wa);
    Laws(f, wb, ua, 0);
    Laws(f, ub, wa, 0);
    Laws(f, ua, wb, 0);
    Laws(f, g, f.mul(ua, wb), f.mul(ub, wa));
    Laws(f, d, g, 0);
    Laws(f, g, d, 0);
    Laws(f, g, wb, ub);
    Laws(f, g, ub, wb);
    Laws(f, wb, ub, 0);
    Laws(f, f.mul(g, f.mul(ub, wb)), 0, 0);
  }

  function TwoInverseRow(f: Field, a: nat, b: nat, u: Row, w: Row, r: nat): (p: Row)
    requires a < b < |u| == |w|
    ensures |p| == |u|
  {
    var g: Byte := f.inv(Minor(f, a, b, u, w));
    if r == a then SolveRow(f, a, b, u, w, f.mul(g, w[b]), f.mul(g, u[b]))
    else if r == b then SolveRow(f, a, b, u, w, f.mul(g, w[a]), f.mul(g, u[a]))
    else Unit(|u|, SkipPlace(a, b, r))
  }

  function TwoInverse(f: Field, a: nat, b: nat, u: Row, w: Row): (p: Mat)
    requires a < b < |u| == |w|
    ensures Shape(p, |u|, |u|) && forall r :: 0 <= r < |u| ==> p[r] == TwoInverseRow(f, a, b, u, w, r)
  {
    seq<Row>(|u|, r requires 0 <= r < |u| => TwoInverseRow(f, a, b, u, w, r))
  }

  lemma SolvesA(f: Field, n: nat, a: nat, b: nat, u: Row, w: Row, c: nat)
    requires IsField(f) && a < b < n && |u| == |w| == n && c < n && Minor(f, a, b, u, w) != 0
    ensures Dot(f, TwoInverseRow(f, a, b, u, w, a), ColumnAt(TwoRows(n, a, b, u, w), n, c)) == if c == a then 1 else 0
  {
    var g := f.inv(Minor(f, a, b, u, w));
    SolveGives(f, n, a, b, u, w, f.mul(g, w[b]), f.mul(g, u[b]), c);
    Solution(f, u[a], u[b], w[a], w[b]);
  }

  lemma SolvesB(f: Field, n: nat, a: nat, b: nat, u: Row, w: Row, c: nat)
    requires IsField(f) && a < b < n && |u| == |w| == n && c < n && Minor(f, a, b, u, w) != 0
    ensures Dot(f, TwoInverseRow(f, a, b, u, w, b), ColumnAt(TwoRows(n, a, b, u, w), n, c)) == if c == b then 1 else 0
  {
    var g := f.inv(Minor(f, a, b, u, w));
    Laws(f, f.mul(u[a], w[b]), f.mul(u[b], w[a]), 0);
    SolveGives(f, n, a, b, u, w, f.mul(g, w[a]), f.mul(g, u[a]), c);
    Solution(f, u[b], u[a], w[b], w[a]);
  }

  lemma TwoIsInverse(f: Field, n: nat, a: nat, b: nat, u: Row, w: Row)
    requires IsField(f) && a < b < n && |u| == |w| == n && Minor(f, a, b, u, w) != 0
    ensures LeftInverse(f, TwoInverse(f, a, b, u, w), TwoRows(n, a, b, u, w), n)
  {
    var p, m := TwoInverse(f, a, b, u, w), TwoRows(n, a, b, u, w);
    forall r | 0 <= r < n ensures RowTimes(f, p[r], m, n) == Unit(n, r) {
      forall c | 0 <= c < n ensures RowTimes(f, p[r], m, n)[c] == Unit(n, r)[c] {
        RowTimesAt(f, p[r], m, n, c);
        if r == a {
          SolvesA(f, n, a, b, u, w, c);
        } else if r == b {
          SolvesB(f, n, a, b, u, w, c);
        } else {
          DotUnit(f, ColumnAt(m, n, c), SkipPlace(a, b, r));
          assert m[SkipPlace(a, b, r)] == Unit(n, r);
        }
      }
    }
  }

  // A matrix with two equal columns has no inverse.
  lemma EqualColumns(f: Field, p: Mat, m: Mat, n: nat, a: nat, b: nat)
    requires Shape(m, n, n) && a < b < n && ColumnAt(m, n, a) == ColumnAt(m, n, b)
    ensures !LeftInverse(f, p, m, n)
  {
    var e := Unit(n, a);
    assert e[a] == 1 && e[b] == 0;
    if LeftInverse(f, p, m, n) {
      RowTimesAt(f, p[a], m, n, a);
      RowTimesAt(f, p[a], m, n, b);
    }
  }

  function PowerOfTwo(f: Field, j: nat): Byte { if j == 0 then 1 else f.mul(PowerOfTwo(f, j - 1), 2) }

  // The first parity row is all ones, the second one the powers of 2.
  lemma {:induction false} ParityRows(f: Field, k: nat, j: nat)
    requires IsField(f) && j < k
    ensures GeneratorRow(f, k, k)[j] == 1 && GeneratorRow(f, k, k + 1)[j] == PowerOfTwo(f, j)
  {
    PowOfOne(f, j);
    if j > 0 {
      ParityRows(f, k, j - 1);
      PowerEntry(f, k, k + 1, j);
    }
  }

  lemma {:induction false} PowerNonzero(f: Field, k: nat, j: nat)
    requires IsField(f) && j < k
    ensures PowerOfTwo(f, j) != 0
  {
    ParityRows(f, k, j);
    PowNonzero(f, 2, j);
  }

  ghost predicate Invertible(f: Field, m: Mat, n: nat) { exists p :: LeftInverse(f, p, m, n) }

  // The first two parity nodes make up for the data nodes a and b exactly when
  // the powers of 2 at a and b differ.
  lemma TwoDataLost(f: Field, k: nat, a: nat, b: nat)
    requires IsField(f) && a < b < k
    ensures Invertible(f, TwoRows(k, a, b, GeneratorRow(f, k, k), GeneratorRow(f, k, k + 1)), k)
       <==> PowerOfTwo(f, a) != PowerOfTwo(f, b)
  {
    var u, w := GeneratorRow(f, k, k), GeneratorRow(f, k, k + 1);
    var x, y := PowerOfTwo(f, a), PowerOfTwo(f, b);
    var m := TwoRows(k, a, b, u, w);
    ParityRows(f, k, a);
    ParityRows(f, k, b);
    if x == y {
      TwoColumn(k, a, b, u, w, a);
      TwoColumn(k, a, b, u, w, b);
      var v, t := ColumnAt(m, k, a), ColumnAt(m, k, b);
      assert v == v[..k - 2] + [v[k - 2]] + [v[k - 1]] && t == t[..k - 2] + [t[k - 2]] + [t[k - 1]];
      forall p ensures !LeftInverse(f, p, m, k) { EqualColumns(f, p, m, k, a, b); }
    } else {
      Laws(f, 1, x, 0);
      Laws(f, x, 1, 0);
      Laws(f, 1, y, 0);
      Laws(f, y, 1, 0);
      SumOfTwo(f, y, x);
      TwoIsInverse(f, k, a, b, u, w);
    }
  }

  // In characteristic 2 a sum vanishes only when both are the same.
  lemma SumOfTwo(f: Field, x: Byte, y: Byte)
    requires IsField(f)
    ensures f.add(x, y) == 0 <==> x == y
  {
    Laws(f, x, x, y);
    Laws(f, x, y, y);
    Laws(f, 0, y, 0);
    Laws(f, y, 0, 0);
    Laws(f, x, 0, 0);
  }

  // ------------------------------------------------- what a Clay code assumes

  // Of the data nodes but a and b, and the two parity nodes.
  lemma {:induction false} TwoSurvive(a: nat, b: nat, k: nat, n: nat)
    requires a < b < k && n <= k + 2
    ensures |Survivors([a, b], n)| == n - (if a < n then 1 else 0) - (if b < n then 1 else 0)
    ensures forall i :: 0 <= i < |Survivors([a, b], n)| ==> Survivors([a, b], n)[i] == Skip(a, b, i)
  {
    if n > 0 { TwoSurvive(a, b, k, n - 1); }
  }

  lemma SolvableData(cd: Code, a: nat, b: nat)
    requires CodeOk(cd) && Parity(cd.g) == 2 && a < b < Data(cd.g)
    ensures Solvable(cd, [a, b]) <==> PowerOfTwo(cd.f, a) != PowerOfTwo(cd.f, b)
  {
    var k := Data(cd.g);
    var u, w := GeneratorRow(cd.f, k, k), GeneratorRow(cd.f, k, k + 1);
    TwoSurvive(a, b, k, k + 2);
    var sel, m := SurvivorRows(cd, [a, b]), TwoRows(k, a, b, u, w);
    assert Nodes(cd.g) == k + 2;
    forall i | 0 <= i < k ensures sel[i] == m[i] {
      assert Survivors([a, b], k + 2)[i] == Skip(a, b, i);
    }
    assert sel == m;
    TwoDataLost(cd.f, k, a, b);
  }

  // Of the data nodes but a, and the parity node that is not e.
  lemma {:induction false} OneSurvives(a: nat, e: nat, k: nat, n: nat)
    requires a < k <= e < k + 2 && n <= k + 2
    ensures |Survivors([a, e], n)| == n - (if a < n then 1 else 0) - (if e < n then 1 else 0)
    ensures forall i :: 0 <= i < |Survivors([a, e], n)| ==>
              Survivors([a, e], n)[i] == if i < k - 1 then Other(a, i) else 2 * k + 1 - e
  {
    if n > 0 { OneSurvives(a, e, k, n - 1); }
  }

  lemma SolvableMixed(cd: Code, a: nat, e: nat)
    requires CodeOk(cd) && Parity(cd.g) == 2 && a < Data(cd.g) <= e < Nodes(cd.g)
    ensures Solvable(cd, [a, e])
  {
    var k := Data(cd.g);
    assert Nodes(cd.g) == k + 2;
    var u := GeneratorRow(cd.f, k, 2 * k + 1 - e);
    OneSurvives(a, e, k, k + 2);
    ParityRows(cd.f, k, a);
    PowerNonzero(cd.f, k, a);
    var sel, m := SurvivorRows(cd, [a, e]), Patched(k, a, u);
    forall i | 0 <= i < k ensures sel[i] == m[i] {
      assert Survivors([a, e], k + 2)[i] == if i < k - 1 then Other(a, i) else 2 * k + 1 - e;
    }
    assert sel == m;
    PatchIsInverse(cd.f, k, a, u);
  }

  lemma {:induction false} SameSurvivors(a: seq<int>, b: seq<int>, n: nat)
    requires forall x :: x in a <==> x in b
    ensures Survivors(a, n) == Survivors(b, n)
  {
    if n > 0 { SameSurvivors(a, b, n - 1); }
  }

  // A Clay code with two parity nodes bears the loss of any two nodes, but for
  // two data nodes at which the powers of 2 are the same.
  lemma SolvableTwo(cd: Code, a: nat, b: nat, erased: seq<int>)
    requires CodeOk(cd) && Parity(cd.g) == 2 && a < b < Nodes(cd.g) && forall x :: x in erased <==> x == a || x == b
    ensures Solvable(cd, erased) <==> b >= Data(cd.g) || PowerOfTwo(cd.f, a) != PowerOfTwo(cd.f, b)
  {
    var k := Data(cd.g);
    SameSurvivors(erased, [a, b], Nodes(cd.g));
    assert SurvivorRows(cd, erased) == SurvivorRows(cd, [a, b]);
    if b < k {
      SolvableData(cd, a, b);
    } else if a < k {
      SolvableMixed(cd, a, b);
    } else {
      assert Parities(cd.g) == [k, k + 1];
      DataSolve(cd);
    }
  }
}
