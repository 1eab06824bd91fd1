// Clay::get_repair_sub_chunk_count: the product formula counts the planes in
// which a lost node is unpaired.
module PlaneCount {
  import opened Util
  import opened Planes

  // Plane z meets a set of digits per group when one of its digits is in the
  // set of that group.
  predicate Avoids(q: int, t: nat, xs: seq<set<int>>, z: int)
    requires q >= 1 && |xs| >= t
  {
    forall y :: 0 <= y < t ==> Vec(q, t, z)[y] !in xs[y]
  }

  function Free(q: int, t: nat, xs: seq<set<int>>): set<int>
    requires q >= 1 && |xs| >= t
  {
    set z | 0 <= z < Pow(q, t) && Avoids(q, t, xs, z)
  }

  function Product(q: int, w: seq<int>, t: nat): int
    requires t <= |w|
  {
    if t == 0 then 1 else Product(q, w, t - 1) * (q - w[t - 1])
  }

  // The numbers h * q + l for h in a.
  function Shift(q: int, a: set<int>, l: int): set<int> { set h | h in a :: h * q + l }

  lemma ShiftMembers(q: int, a: set<int>, l: int)
    requires 0 <= l < q
    ensures forall z :: z in Shift(q, a, l) <==> z / q in a && z % q == l
  {
    forall z ensures z in Shift(q, a, l) <==> z / q in a && z % q == l {
      Euclid(z, q);
      if z in Shift(q, a, l) {
        var h :| h in a && z == h * q + l;
        DivMod(h, l, q);
      }
    }
  }

  lemma {:induction false} ShiftSize(q: int, a: set<int>, l: int)
    requires 0 <= l < q
    ensures |Shift(q, a, l)| == |a|
    decreases |a|
  {
    if a == {} {
      assert Shift(q, a, l) == {};
    } else {
      NonEmpty(a);
      var e :| e in a;
      ShiftSize(q, a - {e}, l);
      ShiftMinus(q, a, l, e);
    }
  }

  lemma ShiftMinus(q: int, a: set<int>, l: int, e: int)
    requires 0 <= l < q && e in a
    ensures |Shift(q, a, l)| == |Shift(q, a - {e}, l)| + 1
  {
    var v := e * q + l;
    ShiftMembers(q, a, l);
    ShiftMembers(q, a - {e}, l);
    DivMod(e, l, q);
    forall z | z in Shift(q, a, l) && z != v ensures z in Shift(q, a - {e}, l) {
      Euclid(z, q);
      Euclid(v, q);
    }
    assert Shift(q, a, l) == Shift(q, a - {e}, l) + {v};
  }

  function Below(x: set<int>, l: int): set<int> { set d | d in x && 0 <= d < l }

  lemma BelowStep(x: set<int>, l: nat)
    ensures |Below(x, l + 1)| == |Below(x, l)| + if l in x then 1 else 0
    ensures |Below(x, 0)| == 0
  {
    assert Below(x, 0) == {};
    assert Below(x, l + 1) == if l in x then Below(x, l) + {l} else Below(x, l);
  }

  // The planes of t + 1 digits whose upper digits are in a and whose last
  // digit is below l and not in x.
  function Part(q: int, a: set<int>, x: set<int>, l: nat): set<int> {
    if l == 0 then {}
    else Part(q, a, x, l - 1) + if l - 1 in x then {} else Shift(q, a, l - 1)
  }

  lemma {:induction false} PartMembers(q: int, a: set<int>, x: set<int>, l: nat)
    requires 0 <= l <= q && q >= 1
    ensures forall z :: z in Part(q, a, x, l) <==> z / q in a && z % q < l && z % q !in x
  {
    if l > 0 {
      PartMembers(q, a, x, l - 1);
      ShiftMembers(q, a, l - 1);
      forall z ensures z in Part(q, a, x, l) <==> z / q in a && z % q < l && z % q !in x { Euclid(z, q); }
    } else {
      forall z ensures z % q >= 0 { Euclid(z, q); }
    }
  }

  // a for every number below l that is not in x.
  function Tally(a: int, x: set<int>, l: nat): int {
    if l == 0 then 0 else Tally(a, x, l - 1) + if l - 1 in x then 0 else a
  }

  lemma {:induction false} TallyIs(a: int, x: set<int>, l: nat)
    ensures Tally(a, x, l) == a * (l - |Below(x, l)|)
  {
    if l == 0 {
      BelowStep(x, 0);
    } else {
      TallyIs(a, x, l - 1);
      BelowStep(x, l - 1);
      Spread(a, l - 1, |Below(x, l - 1)|);
    }
  }

  lemma Spread(a: int, l: int, b: int)
    ensures a * (l - b) + a == a * (l + 1 - b)
  {
  }

  lemma {:induction false} PartSize(q: int, a: set<int>, x: set<int>, l: nat)
    requires 0 <= l <= q && q >= 1
    ensures |Part(q, a, x, l)| == Tally(|a|, x, l)
  {
    if l > 0 {
      PartSize(q, a, x, l - 1);
      if l - 1 !in x { PartGrows(q, a, x, l); }
    }
  }

  lemma PartGrows(q: int, a: set<int>, x: set<int>, l: nat)
    requires 0 < l <= q && l - 1 !in x
    ensures |Part(q, a, x, l)| == |Part(q, a, x, l - 1)| + |a|
  {
    PartApart(q, a, x, l);
    ShiftSize(q, a, l - 1);
    DisjointSizes(Part(q, a, x, l - 1), Shift(q, a, l - 1));
  }

  lemma PartApart(q: int, a: set<int>, x: set<int>, l: nat)
    requires 0 < l <= q
    ensures Part(q, a, x, l - 1) !! Shift(q, a, l - 1)
  {
    PartMembers(q, a, x, l - 1);
    ShiftMembers(q, a, l - 1);
  }

  lemma DisjointSizes(a: set<int>, b: set<int>)
    requires a !! b
    ensures |a + b| == |a| + |b|
  {
  }

  predicate InRange(q: int, x: set<int>) { forall d :: d in x ==> 0 <= d < q }

  lemma NoDigits(q: int, xs: seq<set<int>>)
    requires q >= 1
    ensures |Free(q, 0, xs)| == 1
  {
    forall z ensures z in Free(q, 0, xs) <==> z == 0 {
      assert Avoids(q, 0, xs, z);
    }
    assert Free(q, 0, xs) == {0};
  }

  lemma {:induction false} FreeSize(q: int, t: nat, xs: seq<set<int>>, w: seq<int>)
    requires q >= 1 && t <= |xs| == |w|
    requires forall y :: 0 <= y < t ==> w[y] == |xs[y]| && InRange(q, xs[y])
    ensures |Free(q, t, xs)| == Product(q, w, t)
  {
    if t == 0 {
      NoDigits(q, xs);
    } else {
      FreeSize(q, t - 1, xs, w);
      FreeSplits(q, t, xs);
    }
  }

  lemma FreeSplits(q: int, t: nat, xs: seq<set<int>>)
    requires q >= 1 && 0 < t <= |xs| && InRange(q, xs[t - 1])
    ensures |Free(q, t, xs)| == |Free(q, t - 1, xs)| * (q - |xs[t - 1]|)
  {
    var a, x := Free(q, t - 1, xs), xs[t - 1];
    PartSize(q, a, x, q);
    TallyIs(|a|, x, q);
    PartMembers(q, a, x, q);
    assert Below(x, q) == x;
    forall z ensures z in Free(q, t, xs) <==> z in Part(q, a, x, q) {
      FreeStep(q, t, xs, z);
      Euclid(z, q);
    }
    assert Free(q, t, xs) == Part(q, a, x, q);
  }

  lemma FreeStep(q: int, t: nat, xs: seq<set<int>>, z: int)
    requires q >= 1 && 0 < t <= |xs|
    ensures z in Free(q, t, xs) <==> z / q in Free(q, t - 1, xs) && z % q !in xs[t - 1]
  {
    Euclid(z, q);
    if 0 <= z < Pow(q, t) { DivBelow(z, Pow(q, t - 1), q); }
    if 0 <= z / q < Pow(q, t - 1) {
      Scale(z / q, Pow(q, t - 1) - 1, q);
      assert (Pow(q, t - 1) - 1) * q == Pow(q, t) - q;
    }
    var u, v := Vec(q, t - 1, z / q), Vec(q, t, z);
    assert v == u + [z % q];
  }

  // ------------------------------------------------------------- lost nodes

  // Node i stands in group i / q at place i % q.
  function Places(q: int, nodes: seq<int>, y: int): set<int>
    requires q >= 1
  {
    set i | 0 <= i < |nodes| && nodes[i] / q == y :: nodes[i] % q
  }

  function Weight(q: int, nodes: seq<int>, y: int): nat
    requires q >= 1
  {
    if nodes == [] then 0
    else Weight(q, nodes[..|nodes| - 1], y) + if nodes[|nodes| - 1] / q == y then 1 else 0
  }

  lemma PlacesMembers(q: int, nodes: seq<int>, y: int, d: int)
    requires q >= 1
    ensures d in Places(q, nodes, y) <==> 0 <= d < q && y * q + d in nodes
  {
    if d in Places(q, nodes, y) {
      var i :| 0 <= i < |nodes| && nodes[i] / q == y && nodes[i] % q == d;
      Euclid(nodes[i], q);
      assert nodes[i] in nodes;
    }
    if 0 <= d < q && y * q + d in nodes {
      DivMod(y, d, q);
      var i :| 0 <= i < |nodes| && nodes[i] == y * q + d;
    }
  }

  lemma {:induction false} WeightIs(q: int, nodes: seq<int>, y: int)
    requires q >= 1 && NoDup(nodes)
    ensures |Places(q, nodes, y)| == Weight(q, nodes, y)
  {
    if nodes == [] {
      assert Places(q, nodes, y) == {};
    } else {
      var n := |nodes| - 1;
      WeightIs(q, nodes[..n], y);
      OneNodeMore(q, nodes, y);
    }
  }

  lemma OneNodeMore(q: int, nodes: seq<int>, y: int)
    requires q >= 1 && NoDup(nodes) && nodes != []
    ensures var n := |nodes| - 1;
      |Places(q, nodes, y)| == |Places(q, nodes[..n], y)| + if nodes[n] / q == y then 1 else 0
  {
    var n := |nodes| - 1;
    var last := nodes[n];
    assert nodes == nodes[..n] + [last] && last !in nodes[..n];
    Euclid(last, q);
    var a, b := Places(q, nodes[..n], y), Places(q, nodes, y);
    forall d ensures d in b <==> d in a || (last / q == y && d == last % q) {
      PlacesMembers(q, nodes, y, d);
      PlacesMembers(q, nodes[..n], y, d);
      if 0 <= d < q && y * q + d == last { DivMod(y, d, q); }
    }
    if last / q == y {
      PlacesMembers(q, nodes[..n], y, last % q);
      assert b == a + {last % q};
    } else {
      assert b == a;
    }
  }

  // Some lost node is unpaired in plane z.
  predicate Touched(q: int, t: nat, nodes: seq<int>, z: int)
    requires q >= 1 && forall i :: 0 <= i < |nodes| ==> 0 <= nodes[i] / q < t
  {
    exists i :: 0 <= i < |nodes| && Vec(q, t, z)[nodes[i] / q] == nodes[i] % q
  }

  method GetRepairSubChunkCount(q: int, t: nat, nodes: seq<int>) returns (count: int)
    requires q >= 1 && NoDup(nodes) && forall i :: 0 <= i < |nodes| ==> 0 <= nodes[i] / q < t
    ensures count == |set z | 0 <= z < Pow(q, t) && Touched(q, t, nodes, z)|
  {
    var weight := Weights(q, t, nodes);
    var product := 1;
    var y := 0;
    while y < t
      invariant 0 <= y <= t && product == Product(q, weight, y)
    {
      product := product * (q - weight[y]);
      y := y + 1;
    }
    var all := PowInt(q, t);
    count := all - product;
    CountTouched(q, t, nodes, weight);
  }

  method Weights(q: int, t: nat, nodes: seq<int>) returns (weight: seq<int>)
    requires q >= 1 && forall i :: 0 <= i < |nodes| ==> 0 <= nodes[i] / q < t
    ensures |weight| == t && forall y :: 0 <= y < t ==> weight[y] == Weight(q, nodes, y)
  {
    weight := seq(t, _ => 0);
    var i := 0;
    while i < |nodes|
      invariant 0 <= i <= |nodes| && |weight| == t
      invariant forall y :: 0 <= y < t ==> weight[y] == Weight(q, nodes[..i], y)
    {
      assert nodes[..i + 1][..i] == nodes[..i];
      var y := nodes[i] / q;
      weight := weight[y := weight[y] + 1];
      i := i + 1;
    }
    assert nodes[..|nodes|] == nodes;
  }

  lemma CountTouched(q: int, t: nat, nodes: seq<int>, weight: seq<int>)
    requires q >= 1 && NoDup(nodes) && forall i :: 0 <= i < |nodes| ==> 0 <= nodes[i] / q < t
    requires |weight| == t && forall y :: 0 <= y < t ==> weight[y] == Weight(q, nodes, y)
    ensures |set z | 0 <= z < Pow(q, t) && Touched(q, t, nodes, z)| == Pow(q, t) - Product(q, weight, t)
  {
    var xs := AllPlaces(q, t, nodes);
    forall y | 0 <= y < t ensures weight[y] == |xs[y]| && InRange(q, xs[y]) {
      WeightIs(q, nodes, y);
      forall d | d in xs[y] ensures 0 <= d < q { PlacesMembers(q, nodes, y, d); }
    }
    FreeSize(q, t, xs, weight);
    TouchedIsRest(q, t, nodes);
  }

  function AllPlaces(q: int, t: nat, nodes: seq<int>): (xs: seq<set<int>>)
    requires q >= 1
    ensures |xs| == t && forall y :: 0 <= y < t ==> xs[y] == Places(q, nodes, y)
  {
    seq(t, y => Places(q, nodes, y))
  }

  lemma TouchedIsRest(q: int, t: nat, nodes: seq<int>)
    requires q >= 1 && forall i :: 0 <= i < |nodes| ==> 0 <= nodes[i] / q < t
    ensures |set z | 0 <= z < Pow(q, t) && Touched(q, t, nodes, z)| == Pow(q, t) - |Free(q, t, AllPlaces(q, t, nodes))|
  {
    var xs := AllPlaces(q, t, nodes);
    PowPos(q, t);
    forall z | 0 <= z < Pow(q, t) ensures Touched(q, t, nodes, z) <==> !Avoids(q, t, xs, z) {
      TouchedMeets(q, t, nodes, xs, z);
    }
    Complement(Pow(q, t), Free(q, t, xs), set z | 0 <= z < Pow(q, t) && Touched(q, t, nodes, z));
  }

  lemma Complement(n: nat, a: set<int>, b: set<int>)
    requires forall z :: z in a ==> 0 <= z < n
    requires forall z :: z in b <==> 0 <= z < n && z !in a
    ensures |b| == n - |a|
  {
    assert UpTo(n) == a + b && a * b == {};
  }

  lemma TouchedMeets(q: int, t: nat, nodes: seq<int>, xs: seq<set<int>>, z: int)
    requires q >= 1 && forall i :: 0 <= i < |nodes| ==> 0 <= nodes[i] / q < t
    requires |xs| == t && forall y :: 0 <= y < t ==> xs[y] == Places(q, nodes, y)
    ensures Touched(q, t, nodes, z) <==> !Avoids(q, t, xs, z)
  {
    if i :| 0 <= i < |nodes| && Vec(q, t, z)[nodes[i] / q] == nodes[i] % q {
      assert nodes[i] % q in xs[nodes[i] / q];
    }
    if !Avoids(q, t, xs, z) {
      var y :| 0 <= y < t && Vec(q, t, z)[y] in xs[y];
      var i :| 0 <= i < |nodes| && nodes[i] / q == y && nodes[i] % q == Vec(q, t, z)[y];
    }
  }

  function UpTo(n: nat): (r: set<int>)
    ensures |r| == n && forall z :: z in r <==> 0 <= z < n
  {
    if n == 0 then {} else UpTo(n - 1) + {n - 1}
  }
}
