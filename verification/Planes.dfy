// src/ec/Clay.cc, arithmetic of planes: a plane z of q^t is a vector of t
// base-q digits, and the companion of z at group y replaces digit y.
module Planes {
  import opened Util

  function Pow(q: int, e: nat): int { if e == 0 then 1 else q * Pow(q, e - 1) }

  lemma {:induction false} PowPos(q: int, e: nat)
    requires q >= 1
    ensures Pow(q, e) >= 1
  {
    if e > 0 { PowPos(q, e - 1); }
  }

  lemma {:induction false} PowAdd(q: int, a: nat, b: nat)
    ensures Pow(q, a + b) == Pow(q, a) * Pow(q, b)
  {
    if a > 0 {
      PowAdd(q, a - 1, b);
      MulAssoc(q, Pow(q, a - 1), Pow(q, b));
    }
  }

  lemma MulAssoc(a: int, b: int, c: int)
    ensures (a * b) * c == a * (b * c)
  {
  }

  lemma {:induction false} PowSquare(a: int, e: nat)
    ensures Pow(a * a, e) == Pow(a, 2 * e)
  {
    if e > 0 {
      PowSquare(a, e - 1);
      MulAssoc(a, a, Pow(a, 2 * e - 2));
    }
  }

  // Square and multiply.
  method PowInt(a: int, x: nat) returns (power: int)
    ensures power == Pow(a, x)
  {
    power := 1;
    var b, e := a, x;
    while e != 0
      invariant power * Pow(b, e) == Pow(a, x)
      decreases e
    {
      PowSquare(b, e / 2);
      if e % 2 == 1 {
        MulAssoc(power, b, Pow(b, e - 1));
        power := power * b;
      }
      e := e / 2;
      b := b * b;
    }
  }

  // ------------------------------------------------------------------- vectors

  function Vec(q: int, t: nat, z: int): (v: seq<int>)
    requires q >= 1
    ensures |v| == t && forall i :: 0 <= i < t ==> 0 <= v[i] < q
  {
    if t == 0 then [] else Vec(q, t - 1, z / q) + [z % q]
  }

  function Num(q: int, v: seq<int>): int {
    if v == [] then 0 else Num(q, v[..|v| - 1]) * q + v[|v| - 1]
  }

  predicate Digits(q: int, v: seq<int>) { forall i :: 0 <= i < |v| ==> 0 <= v[i] < q }

  // A vector names a plane ...
  lemma {:induction false} NumRange(q: int, v: seq<int>)
    requires q >= 1 && Digits(q, v)
    ensures 0 <= Num(q, v) < Pow(q, |v|)
  {
    if v != [] {
      var u := v[..|v| - 1];
      NumRange(q, u);
      Scale(Num(q, u), Pow(q, |u|) - 1, q);
      assert (Pow(q, |u|) - 1) * q == q * Pow(q, |u|) - q;
    }
  }

  lemma Scale(a: int, b: int, q: int)
    requires 0 <= a <= b && q >= 1
    ensures 0 <= a * q <= b * q
  {
  }

  lemma DivMod(a: int, r: int, q: int)
    requires 0 <= r < q
    ensures (a * q + r) / q == a && (a * q + r) % q == r
  {
    var n := a * q + r;
    var d, m := n / q, n % q;
    Euclid(n, q);
    assert (a - d) * q == a * q - d * q;
    if a > d { Scale(1, a - d, q); }
    if a < d {
      assert (d - a) * q == d * q - a * q;
      Scale(1, d - a, q);
    }
  }

  lemma Euclid(n: int, q: int)
    requires q >= 1
    ensures n == (n / q) * q + n % q && 0 <= n % q < q
  {
  }

  // ... and the plane gives back the vector: the expansion is exact in both
  // directions.
  lemma {:induction false} VecNum(q: int, v: seq<int>)
    requires q >= 1 && Digits(q, v)
    ensures Vec(q, |v|, Num(q, v)) == v
  {
    if v != [] {
      var n := |v| - 1;
      VecNum(q, v[..n]);
      DivMod(Num(q, v[..n]), v[n], q);
      assert v == v[..n] + [v[n]];
    }
  }

  lemma {:induction false} NumVec(q: int, t: nat, z: int)
    requires q >= 1 && 0 <= z < Pow(q, t)
    ensures Num(q, Vec(q, t, z)) == z
  {
    if t > 0 {
      DivBelow(z, Pow(q, t - 1), q);
      NumVec(q, t - 1, z / q);
      var v := Vec(q, t, z);
      assert v[..t - 1] == Vec(q, t - 1, z / q);
    }
  }

  // Digit i is worth q^(t-1-i): the first one counts most.
  lemma {:induction false} VecAt(q: int, t: nat, z: int, i: nat)
    requires q >= 1 && z >= 0 && i < t
    ensures Pow(q, t - 1 - i) >= 1 && Vec(q, t, z)[i] == z / Pow(q, t - 1 - i) % q
  {
    PowPos(q, t - 1 - i);
    if i < t - 1 {
      Euclid(z, q);
      QuotientNat(z, q);
      VecAt(q, t - 1, z / q, i);
      DivTwice(z, q, Pow(q, t - 2 - i));
    }
  }

  lemma QuotientNat(z: int, q: int)
    requires q >= 1 && z >= 0
    ensures z / q >= 0
  {
    Euclid(z, q);
  }

  lemma DivTwice(z: int, q: int, p: int)
    requires q >= 1 && p >= 1 && z >= 0
    ensures q * p >= 1 && z / q / p == z / (q * p)
  {
    var a, b := z / q, z / q / p;
    Scale(1, p, q);
    Euclid(z, q);
    Euclid(a, p);
    var r := (a % p) * q + z % q;
    assert z == b * (q * p) + r by {
      assert a * q == (b * p + a % p) * q;
      MulAssoc(b, p, q);
    }
    Scale(a % p, p - 1, q);
    assert (p - 1) * q == p * q - q;
    Scale(0, a % p, q);
    DivMod(b, r, q * p);
  }

  lemma DivBelow(z: int, p: int, q: int)
    requires q >= 1 && 0 <= z < q * p
    ensures 0 <= z / q < p && z == (z / q) * q + z % q
  {
    if z / q >= p { Scale(p, z / q, q); }
  }

  // get_plane_vector fills the array from the last digit to the first.
  method GetPlaneVector(q: int, t: nat, z: int) returns (v: seq<int>)
    requires q >= 1 && z >= 0
    ensures v == Vec(q, t, z)
  {
    var vec := new int[t];
    var rest := z;
    var i := 0;
    while i < t
      invariant 0 <= i <= t && rest >= 0
      invariant Vec(q, t, z) == Vec(q, t - i, rest) + vec[t - i..]
    {
      vec[t - 1 - i] := rest % q;
      assert vec[t - 1 - i..] == [rest % q] + vec[t - i..];
      Euclid(rest, q);
      DivMod(rest / q, 0, q);
      assert Vec(q, t - i, rest) == Vec(q, t - i - 1, rest / q) + [rest % q];
      rest := (rest - vec[t - 1 - i]) / q;
      i := i + 1;
    }
    v := vec[..];
  }

  // ------------------------------------------------------------- companions

  // The plane that agrees with z except that digit y is x.
  function Swap(q: int, t: nat, z: int, y: nat, x: int): int
    requires q >= 1 && y < t
  {
    Num(q, Vec(q, t, z)[y := x])
  }

  lemma {:induction false} NumUpdate(q: int, v: seq<int>, y: nat, x: int)
    requires y < |v|
    ensures Num(q, v[y := x]) == Num(q, v) + (x - v[y]) * Pow(q, |v| - 1 - y)
  {
    var n := |v| - 1;
    if y == n {
      assert v[y := x][..n] == v[..n];
    } else {
      NumUpdate(q, v[..n], y, x);
      assert v[y := x][..n] == v[..n][y := x];
      var d, p := x - v[y], Pow(q, n - 1 - y);
      assert d * p * q == d * (q * p);
      assert (Num(q, v[..n]) + d * p) * q == Num(q, v[..n]) * q + d * p * q;
    }
  }

  // The expression the code computes is that plane.
  lemma SwapIs(q: int, t: nat, z: int, y: nat, x: int)
    requires q >= 1 && y < t && 0 <= z < Pow(q, t)
    ensures Swap(q, t, z, y, x) == z + (x - Vec(q, t, z)[y]) * Pow(q, t - 1 - y)
  {
    NumUpdate(q, Vec(q, t, z), y, x);
    NumVec(q, t, z);
  }

  // It is a plane, differs in digit y only, lies below z when the digit gets
  // smaller, and swapping back restores z.
  lemma SwapFacts(q: int, t: nat, z: int, y: nat, x: int)
    requires q >= 1 && y < t && 0 <= z < Pow(q, t) && 0 <= x < q
    ensures var s := Swap(q, t, z, y, x);
      && 0 <= s < Pow(q, t)
      && Vec(q, t, s) == Vec(q, t, z)[y := x]
      && (x < Vec(q, t, z)[y] ==> s < z)
      && (x > Vec(q, t, z)[y] ==> s > z)
      && Swap(q, t, s, y, Vec(q, t, z)[y]) == z
  {
    var v := Vec(q, t, z);
    var u := v[y := x];
    NumRange(q, u);
    VecNum(q, u);
    SwapIs(q, t, z, y, x);
    PowPos(q, t - 1 - y);
    Sign(x - v[y], Pow(q, t - 1 - y));
    assert u[y := v[y]] == v;
    NumVec(q, t, z);
  }

  lemma Sign(d: int, p: int)
    requires p >= 1
    ensures (d < 0 ==> d * p < 0) && (d > 0 ==> d * p > 0)
  {
  }

  // ------------------------------------------- the planes read for a repair

  lemma {:induction false} DigitIs(q: int, t: nat, z: int, y: nat)
    requires q >= 1 && y < t && z >= 0
    ensures Pow(q, t - 1 - y) >= 1
    ensures Vec(q, t, z)[y] == (z / Pow(q, t - 1 - y)) % q
  {
    PowPos(q, t - 1 - y);
    if y < t - 1 {
      DigitIs(q, t - 1, z / q, y);
      DivDiv(z, q, Pow(q, t - 2 - y));
    }
  }

  lemma DivDiv(z: int, a: int, b: int)
    requires z >= 0 && a >= 1 && b >= 1
    ensures a * b >= 1 && (z / a) / b == z / (a * b)
  {
    var h := (z / a) / b;
    var r := (z / a) % b;
    var s := z % a;
    assert z == (h * b + r) * a + s;
    assert z == h * (a * b) + (r * a + s) by {
      assert (h * b + r) * a == h * b * a + r * a;
      assert h * b * a == h * (a * b);
    }
    Scale(r, b - 1, a);
    assert (b - 1) * a == a * b - a;
    DivMod(h, r * a + s, a * b);
  }

  // get_repair_subchunks: runs <first plane, number of planes>.
  method GetRepairSubchunks(q: int, t: nat, lost: nat) returns (runs: seq<(int, int)>)
    requires q >= 1 && lost / q < t
    ensures runs == Runs(q, t, lost / q, lost % q)
  {
    var y, x := lost / q, lost % q;
    var count := PowInt(q, t - 1 - y);
    var num := PowInt(q, y);
    PowPos(q, y);
    var index := x * count;
    runs := [];
    var i := 0;
    while i < num
      invariant 0 <= i <= num && index == x * count + i * (q * count)
      invariant runs == seq(i, s => (x * count + s * (q * count), count))
    {
      runs := runs + [(index, count)];
      index := index + q * count;
      i := i + 1;
    }
  }

  function Runs(q: int, t: nat, y: nat, x: int): (r: seq<(int, int)>)
    requires q >= 1 && y < t
    ensures forall i :: 0 <= i < |r| ==> r[i].1 == Pow(q, t - 1 - y) && r[i].1 >= 1
  {
    PowPos(q, t - 1 - y);
    PowPos(q, y);
    var count := Pow(q, t - 1 - y);
    seq(Pow(q, y), s => (x * count + s * (q * count), count))
  }

  // The planes of a run list, in order.
  function Listed(runs: seq<(int, int)>): seq<int> {
    if runs == [] then []
    else Listed(runs[..|runs| - 1]) + Range(runs[|runs| - 1].0, runs[|runs| - 1].1)
  }

  function Range(a: int, n: int): (r: seq<int>)
    ensures |r| == if n > 0 then n else 0
    ensures forall i :: 0 <= i < |r| ==> r[i] == a + i
  {
    if n <= 0 then [] else Range(a, n - 1) + [a + n - 1]
  }

  predicate Ascending(s: seq<int>) { forall i, j :: 0 <= i < j < |s| ==> s[i] < s[j] }

  function OneRun(q: int, c: int, x: int, s: int): (int, int) { (x * c + s * (q * c), c) }

  predicate HasDigit(q: int, c: int, x: int, z: int)
    requires q >= 1 && c >= 1
  {
    (z / c) % q == x
  }

  lemma {:induction false} ListedFacts(q: int, c: int, x: int, n: nat)
    requires q >= 1 && c >= 1 && 0 <= x < q
    ensures var r := Listed(seq(n, s => OneRun(q, c, x, s)));
      && |r| == n * c && Ascending(r)
      && (forall z :: z in r <==> 0 <= z < n * (q * c) && HasDigit(q, c, x, z))
  {
    var runs := seq(n, s => OneRun(q, c, x, s));
    if n > 0 {
      ListedFacts(q, c, x, n - 1);
      LastRunOf(q, c, x, n);
      var from, to, low := RunBounds(q, c, x, n);
      forall z | from <= z < to ensures HasDigit(q, c, x, z) <==> low <= z < low + c {
        InLastRun(q, c, x, n, z);
      }
      OneMoreRun(Listed(runs[..n - 1]), from, to, low, c, z => HasDigit(q, c, x, z));
    } else {
      assert runs == [];
    }
  }

  lemma LastRunOf(q: int, c: int, x: int, n: nat)
    requires n > 0
    ensures var runs := seq(n, s => OneRun(q, c, x, s));
      && runs[..n - 1] == seq(n - 1, s => OneRun(q, c, x, s))
      && Listed(runs) == Listed(runs[..n - 1]) + Range(x * c + (n - 1) * (q * c), c)
  {
  }

  lemma RunBounds(q: int, c: int, x: int, n: nat) returns (from: int, to: int, low: int)
    requires q >= 1 && c >= 1 && 0 <= x < q && n > 0
    ensures from == (n - 1) * (q * c) && to == n * (q * c) && low == x * c + (n - 1) * (q * c)
    ensures 0 <= from <= low && low + c <= to && (n - 1) * c + c == n * c
  {
    from, to, low := (n - 1) * (q * c), n * (q * c), x * c + (n - 1) * (q * c);
    assert (n - 1) * (q * c) + q * c == n * (q * c);
    Scale(0, n - 1, q * c);
    Scale(x, q - 1, c);
    Scale(0, x, c);
    assert (q - 1) * c == q * c - c;
  }

  // A run behind everything listed so far.
  lemma OneMoreRun(a: seq<int>, from: int, to: int, low: int, c: int, p: int -> bool)
    requires Ascending(a) && 0 <= from <= low && low + c <= to && c >= 1
    requires forall z :: z in a <==> 0 <= z < from && p(z)
    requires forall z :: from <= z < to ==> (p(z) <==> low <= z < low + c)
    ensures Ascending(a + Range(low, c))
    ensures forall z :: z in a + Range(low, c) <==> 0 <= z < to && p(z)
  {
    var b := Range(low, c);
    forall i | 0 <= i < |a| ensures a[i] < from { assert a[i] in a; }
    forall z ensures z in b <==> low <= z < low + c {
      if low <= z < low + c { assert b[z - low] == z; }
    }
    forall z ensures z in a + b <==> z in a || z in b { }
  }

  lemma InLastRun(q: int, c: int, x: int, n: nat, z: int)
    requires q >= 1 && c >= 1 && 0 <= x < q && n > 0
    requires (n - 1) * (q * c) <= z < n * (q * c)
    ensures HasDigit(q, c, x, z) <==> x * c + (n - 1) * (q * c) <= z < x * c + (n - 1) * (q * c) + c
  {
    var h := z - (n - 1) * (q * c);
    assert n * (q * c) == (n - 1) * (q * c) + q * c;
    var g, l := h / c, h % c;
    DivBelow(h, q, c);
    Shifted(q, c, n - 1, g, l);
    assert z == (n - 1) * (q * c) + (g * c + l);
    Window(g, x, l, c);
  }

  lemma Shifted(q: int, c: int, m: int, g: int, l: int)
    requires q >= 1 && c >= 1 && 0 <= g < q && 0 <= l < c
    ensures ((m * (q * c) + (g * c + l)) / c) % q == g
  {
    assert m * (q * c) == (m * q) * c;
    assert (m * q + g) * c == (m * q) * c + g * c;
    DivMod(m * q + g, l, c);
    DivMod(m, g, q);
  }

  lemma Window(g: int, x: int, l: int, c: int)
    requires c >= 1 && 0 <= l < c
    ensures g == x <==> x * c <= g * c + l < x * c + c
  {
    assert (g - x) * c == g * c - x * c;
    Sign(g - x, c);
    if g > x { assert (g - x - 1) * c == (g - x) * c - c; Sign(g - x - 1, c); }
    if g < x { assert (g - x + 1) * c == (g - x) * c + c; Sign(g - x + 1, c); }
  }

  // The runs list exactly the planes whose digit y is x, once each, in
  // increasing order: q^(t-1) of the q^t planes.
  lemma RepairPlanes(q: int, t: nat, y: nat, x: int)
    requires q >= 1 && y < t && 0 <= x < q
    ensures var r := Listed(Runs(q, t, y, x));
      && Ascending(r) && |r| == Pow(q, t - 1)
      && (forall z :: z in r <==> 0 <= z < Pow(q, t) && Vec(q, t, z)[y] == x)
  {
    var c := Pow(q, t - 1 - y);
    PowPos(q, t - 1 - y);
    PowPos(q, y);
    ListedFacts(q, c, x, Pow(q, y));
    assert Runs(q, t, y, x) == seq(Pow(q, y), s => OneRun(q, c, x, s));
    PowAdd(q, y, t - 1 - y);
    PowAdd(q, y, t - y);
    forall z | 0 <= z < Pow(q, t) ensures Vec(q, t, z)[y] == x <==> HasDigit(q, c, x, z) { DigitIs(q, t, z, y); }
  }
}
