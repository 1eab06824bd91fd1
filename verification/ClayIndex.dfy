// src/ec/Clay.cc: the parameters of a Clay code, its symbols, and the index
// maps that the constructor fills.
module ClayIndex {
  import opened Util
  import opened Planes

  // q columns and t rows of nodes; nu of them are shortened (all zero).
  datatype Geo = Geo(n: nat, k: nat, q: nat, t: nat, nu: nat)

  predicate GeoOk(g: Geo) {
    g.q >= 1 && g.t >= 1 && 1 <= g.k < g.n && g.nu < g.q && g.q * g.t == g.n + g.nu
  }

  // Nodes, parity nodes, data nodes (shortened ones included), planes.
  function Nodes(g: Geo): nat { g.n + g.nu }
  function Parity(g: Geo): int { g.n - g.k }
  function Data(g: Geo): nat { g.k + g.nu }
  function SubChunks(g: Geo): int { Pow(g.q, g.t) }

  predicate NodeOk(g: Geo, i: int) { 0 <= i < Nodes(g) }
  predicate PlaneOk(g: Geo, z: int) { 0 <= z < SubChunks(g) }

  lemma PlanesPos(g: Geo)
    requires GeoOk(g)
    ensures SubChunks(g) >= 1
  {
    PowPos(g.q, g.t);
  }

  // Node i stands at place i % q of group i / q.
  lemma PlaceOk(g: Geo, i: int)
    requires GeoOk(g) && NodeOk(g, i)
    ensures 0 <= i / g.q < g.t && 0 <= i % g.q < g.q && i == (i / g.q) * g.q + i % g.q
  {
    assert g.q * g.t == g.t * g.q;
    DivBelow(i, g.t, g.q);
    Euclid(i, g.q);
  }

  lemma NodeAt(g: Geo, y: int, x: int)
    requires GeoOk(g) && 0 <= y < g.t && 0 <= x < g.q
    ensures NodeOk(g, y * g.q + x) && (y * g.q + x) / g.q == y && (y * g.q + x) % g.q == x
  {
    DivMod(y, x, g.q);
    Scale(y, g.t - 1, g.q);
    assert (g.t - 1) * g.q == g.q * g.t - g.q;
  }

  // ------------------------------------------------------------------ symbols

  // The coupled and the uncoupled symbol of a node in a plane.
  datatype Sym = C(node: int, z: int) | U(node: int, z: int)

  predicate SymOk(g: Geo, s: Sym) { NodeOk(g, s.node) && PlaneOk(g, s.z) }

  function Digit(g: Geo, z: int, y: int): int
    requires GeoOk(g) && 0 <= y < g.t
  {
    Vec(g.q, g.t, z)[y]
  }

  // The two symbols of an unpaired node are the same.
  predicate Unpaired(g: Geo, i: int, z: int)
    requires GeoOk(g) && NodeOk(g, i)
  {
    PlaceOk(g, i);
    Digit(g, z, i / g.q) == i % g.q
  }

  function Canon(g: Geo, s: Sym): Sym
    requires GeoOk(g) && SymOk(g, s)
  {
    if s.U? && Unpaired(g, s.node, s.z) then C(s.node, s.z) else s
  }

  // ------------------------------------------------------------------- indices

  function Half(g: Geo): int { Nodes(g) * SubChunks(g) }

  function Short(g: Geo, s: Sym): int {
    s.node * SubChunks(g) + s.z + if s.U? then Half(g) else 0
  }

  // Where a node is stored: data, then parity, then the shortened nodes.
  function RealNode(g: Geo, i: int): int {
    if i < g.k then i else if i < g.k + g.nu then g.n + (i - g.k) else i - g.nu
  }

  function RealOf(g: Geo, idx: int): int
    requires GeoOk(g)
  {
    PlanesPos(g);
    var h := if idx >= Half(g) then Half(g) else 0;
    RealNode(g, (idx - h) / SubChunks(g)) * SubChunks(g) + (idx - h) % SubChunks(g) + h
  }

  // The DAG index of a symbol.
  function Ix(g: Geo, s: Sym): int
    requires GeoOk(g) && SymOk(g, s)
  {
    RealOf(g, Short(g, Canon(g, s)))
  }

  lemma ShortRange(g: Geo, s: Sym)
    requires GeoOk(g) && SymOk(g, s)
    ensures Half(g) >= 1
    ensures var h := if s.U? then Half(g) else 0;
      h <= Short(g, s) < h + Half(g) && RealOf(g, Short(g, s)) == RealNode(g, s.node) * SubChunks(g) + s.z + h
    ensures var h := if s.U? then Half(g) else 0;
      h <= RealOf(g, Short(g, s)) < h + Half(g)
  {
    PlanesPos(g);
    var w := SubChunks(g);
    Scale(s.node, Nodes(g) - 1, w);
    assert (Nodes(g) - 1) * w == Nodes(g) * w - w;
    Scale(RealNode(g, s.node), Nodes(g) - 1, w);
    DivMod(s.node, s.z, w);
  }

  // The nodes that store something take the blocks 0 to n - 1 in their own
  // order; the shortened ones come behind all of them.
  lemma StoredInOrder(g: Geo, i: int, j: int)
    requires GeoOk(g) && NodeOk(g, i) && NodeOk(g, j) && i < j
    ensures RealNode(g, i) < g.n <==> !(g.k <= i < Data(g))
    ensures RealNode(g, j) < g.n <==> !(g.k <= j < Data(g))
    ensures 0 <= RealNode(g, i) < Nodes(g) && 0 <= RealNode(g, j) < Nodes(g) && RealNode(g, i) != RealNode(g, j)
    ensures (RealNode(g, i) < g.n) == (RealNode(g, j) < g.n) ==> RealNode(g, i) < RealNode(g, j)
  {
  }

  lemma SamePlace(a: int, r: int, b: int, s: int, w: int)
    requires 0 <= r < w && 0 <= s < w && a * w + r == b * w + s
    ensures a == b && r == s
  {
    DivMod(a, r, w);
    DivMod(b, s, w);
  }

  // Different symbols have different indices.
  lemma IxApart(g: Geo, s: Sym, u: Sym)
    requires GeoOk(g) && SymOk(g, s) && SymOk(g, u)
    ensures Ix(g, s) == Ix(g, u) <==> Canon(g, s) == Canon(g, u)
  {
    var a, b := Canon(g, s), Canon(g, u);
    ShortRange(g, a);
    ShortRange(g, b);
    if Ix(g, s) == Ix(g, u) {
      assert a.U? == b.U?;
      SamePlace(RealNode(g, a.node), a.z, RealNode(g, b.node), b.z, SubChunks(g));
    }
  }

  // ---------------------------------------------------------- the index maps

  class IndexMaps {
    const g: Geo
    const w: int
    var short2real: map<int, int>
    var real2short: map<int, int>
    var identical: map<int, int>

    // Whatever is in the maps is right ...
    ghost predicate Right()
      reads this
    {
      && GeoOk(g) && w == SubChunks(g) && w >= 1
      && (forall s :: s in short2real ==> short2real[s] == RealOf(g, s))
      && (forall r :: r in real2short ==> RealOf(g, real2short[r]) == r && 0 <= real2short[r] < 2 * Half(g))
      && (forall p :: p in identical ==> identical[p] == p - Half(g) && IsPair(p))
    }

    ghost predicate IsPair(p: int)
      requires GeoOk(g)
    {
      exists i, z :: SymOk(g, U(i, z)) && p == Short(g, U(i, z)) && Unpaired(g, i, z)
    }

    // ... and the symbols of node i in plane z are in them.
    ghost predicate Mapped(i: int, z: int)
      requires GeoOk(g)
      reads `short2real, `real2short
    {
      && Short(g, C(i, z)) in short2real && Short(g, U(i, z)) in short2real
      && RealOf(g, Short(g, C(i, z))) in real2short && RealOf(g, Short(g, U(i, z))) in real2short
    }

    ghost predicate Listed(i: int, z: int)
      requires GeoOk(g) && NodeOk(g, i)
      reads `identical
    {
      Unpaired(g, i, z) ==> Short(g, U(i, z)) in identical
    }

    ghost predicate Valid()
      reads this
    {
      && Right()
      && (forall i, z {:trigger Mapped(i, z)} :: SymOk(g, C(i, z)) ==> Mapped(i, z))
      && (forall i, z {:trigger Listed(i, z)} :: SymOk(g, C(i, z)) ==> Listed(i, z))
    }

    // d helpers repair one node: q = d - k + 1, and enough shortened nodes
    // are added to fill the last group.
    constructor (n: nat, k: nat, d: nat)
      requires 1 <= k <= d < n
      ensures Valid() && g.n == n && g.k == k && g.q == d - k + 1
    {
      var q := d - k + 1;
      var nu := if n % q != 0 then q - n % q else 0;
      var t := (n + nu) / q;
      var sub := PowInt(q, t);
      GeoFits(n, k, q, t, nu);
      PowPos(q, t);
      g, w := Geo(n, k, q, t, nu), sub;
      short2real, real2short, identical := map[], map[], map[];
      new;
      MapNodes(0, k, 0);
      MapNodes(k, nu, n);
      MapNodes(k + nu, n - k, k);
      FillPairs();
    }

    // The symbols of count nodes from first on, stored from place on.
    method MapNodes(first: nat, count: nat, place: nat)
      requires Right() && first + count <= Nodes(g)
      requires forall i :: first <= i < first + count ==> RealNode(g, i) == place + (i - first)
      requires identical == map[]
      modifies `short2real, `real2short
      ensures Right()
      ensures forall i, z {:trigger Mapped(i, z)} :: old(Mapped(i, z)) ==> Mapped(i, z)
      ensures forall i, z {:trigger Mapped(i, z)} :: first <= i < first + count && 0 <= z < w ==> Mapped(i, z)
    {
      var i := 0;
      while i < count
        invariant 0 <= i <= count && Right()
        invariant forall a, z {:trigger Mapped(a, z)} :: old(Mapped(a, z)) ==> Mapped(a, z)
        invariant forall a, z {:trigger Mapped(a, z)} :: first <= a < first + i && 0 <= z < w ==> Mapped(a, z)
      {
        MapNode(first + i, place + i);
        i := i + 1;
      }
    }

    method MapNode(node: nat, place: nat)
      requires Right() && NodeOk(g, node) && RealNode(g, node) == place
      modifies `short2real, `real2short
      ensures Right()
      ensures forall i, z {:trigger Mapped(i, z)} :: old(Mapped(i, z)) ==> Mapped(i, z)
      ensures forall z {:trigger Mapped(node, z)} :: 0 <= z < w ==> Mapped(node, z)
    {
      var j := 0;
      while j < w
        invariant 0 <= j <= w && Right()
        invariant forall a, z {:trigger Mapped(a, z)} :: old(Mapped(a, z)) ==> Mapped(a, z)
        invariant forall z {:trigger Mapped(node, z)} :: 0 <= z < j ==> Mapped(node, z)
      {
        MapSymbols(node, place, j);
        j := j + 1;
      }
    }

    method MapSymbols(node: nat, place: nat, j: nat)
      requires Right() && NodeOk(g, node) && RealNode(g, node) == place && j < w
      modifies `short2real, `real2short
      ensures Right() && Mapped(node, j)
      ensures forall i, z {:trigger Mapped(i, z)} :: old(Mapped(i, z)) ==> Mapped(i, z)
    {
      var short, spot := node * w + j, place * w + j;
      var half := (g.n + g.nu) * w;
      ShortRange(g, C(node, j));
      ShortRange(g, U(node, j));
      Put(short, spot);
      Put(short + half, spot + half);
    }

    method Put(short: int, spot: int)
      requires Right() && RealOf(g, short) == spot && 0 <= short < 2 * Half(g)
      modifies `short2real, `real2short
      ensures Right()
      ensures short2real == old(short2real)[short := spot] && real2short == old(real2short)[spot := short]
    {
      short2real := short2real[short := spot];
      real2short := real2short[spot := short];
    }

    method FillPairs()
      requires Right()
      requires forall i, z {:trigger Mapped(i, z)} :: SymOk(g, C(i, z)) ==> Mapped(i, z)
      modifies `identical
      ensures Valid()
    {
      var y := 0;
      while y < g.t
        invariant 0 <= y <= g.t && Right()
        invariant forall i, z {:trigger Listed(i, z)} :: InRow(g, i, z, y) ==> Listed(i, z)
      {
        FillRow(y);
        y := y + 1;
      }
      forall i, z | SymOk(g, C(i, z)) ensures Listed(i, z) {
        PlaceOk(g, i);
        assert InRow(g, i, z, g.t);
      }
    }

    method FillRow(y: nat)
      requires Right() && y < g.t
      modifies `identical
      ensures Right()
      ensures forall i, z {:trigger Listed(i, z)} :: NodeOk(g, i) && old(Listed(i, z)) ==> Listed(i, z)
      ensures forall i, z {:trigger Listed(i, z)} :: SymOk(g, C(i, z)) && i / g.q == y ==> Listed(i, z)
    {
      var x := 0;
      while x < g.q
        invariant 0 <= x <= g.q && Right()
        invariant forall i, z {:trigger Listed(i, z)} :: NodeOk(g, i) && old(Listed(i, z)) ==> Listed(i, z)
        invariant forall i, z {:trigger Listed(i, z)} :: InPart(g, i, z, y, x) ==> Listed(i, z)
      {
        NodeAt(g, y, x);
        FillNode(y, x);
        OnlyNode(g, y, x);
        x := x + 1;
      }
      forall i, z | SymOk(g, C(i, z)) && i / g.q == y ensures Listed(i, z) {
        PlaceOk(g, i);
        assert InPart(g, i, z, y, g.q);
      }
    }

    method FillNode(y: nat, x: nat)
      requires Right() && y < g.t && x < g.q && NodeOk(g, y * g.q + x)
      requires (y * g.q + x) / g.q == y && (y * g.q + x) % g.q == x
      modifies `identical
      ensures Right()
      ensures forall i, z {:trigger Listed(i, z)} :: NodeOk(g, i) && old(Listed(i, z)) ==> Listed(i, z)
      ensures forall z {:trigger Listed(y * g.q + x, z)} :: 0 <= z < w ==> Listed(y * g.q + x, z)
    {
      ghost var node := y * g.q + x;
      var z := 0;
      while z < w
        invariant 0 <= z <= w && Right()
        invariant forall i, a {:trigger Listed(i, a)} :: NodeOk(g, i) && old(Listed(i, a)) ==> Listed(i, a)
        invariant forall a {:trigger Listed(node, a)} :: 0 <= a < z ==> Listed(node, a)
      {
        FillPair(y, x, z);
        z := z + 1;
      }
    }

    method FillPair(y: nat, x: nat, z: nat)
      requires Right() && y < g.t && x < g.q && z < w && NodeOk(g, y * g.q + x)
      requires (y * g.q + x) / g.q == y && (y * g.q + x) % g.q == x
      modifies `identical
      ensures Right() && Listed(y * g.q + x, z)
      ensures forall i, a {:trigger Listed(i, a)} :: NodeOk(g, i) && old(Listed(i, a)) ==> Listed(i, a)
    {
      var vec := GetPlaneVector(g.q, g.t, z);
      var idx := (y * g.q + x) * w + z;
      var pidx := idx + (g.n + g.nu) * w;
      assert pidx == Short(g, U(y * g.q + x, z));
      if vec[y] == x {
        if pidx !in identical { identical := identical[pidx := idx]; }
      }
    }

    // get_real_from_short and get_short_from_real: an index that is in no map
    // stands for itself.
    method GetRealFromShort(idx: int) returns (r: int)
      requires Valid()
      ensures r == if idx in short2real then RealOf(g, idx) else idx
      ensures forall s: Sym :: SymOk(g, s) && idx == Short(g, s) ==> idx in short2real
    {
      r := if idx in short2real then short2real[idx] else idx;
      forall s: Sym | SymOk(g, s) && idx == Short(g, s) ensures idx in short2real { assert Mapped(s.node, s.z); }
    }

    // The index of a symbol, the unpaired ones folded into one.
    method IndexOf(s: Sym) returns (r: int)
      requires Valid() && SymOk(g, s)
      ensures r == Ix(g, s)
    {
      var idx := s.node * w + s.z + if s.U? then (g.n + g.nu) * w else 0;
      assert idx == Short(g, s);
      assert Listed(s.node, s.z);
      ghost var c := Canon(g, s);
      if idx in identical {
        PairIs(s);
        idx := identical[idx];
      }
      assert idx == Short(g, c);
      r := GetRealFromShort(idx);
    }

    lemma PairIs(s: Sym)
      requires Right() && SymOk(g, s) && Short(g, s) in identical
      ensures s.U? && Unpaired(g, s.node, s.z)
    {
      var i, z :| SymOk(g, U(i, z)) && Short(g, s) == Short(g, U(i, z)) && Unpaired(g, i, z);
      ShortRange(g, s);
      ShortRange(g, U(i, z));
      SamePlace(s.node, s.z, i, z, w);
    }

    // The two maps are each other's inverse on the symbols of the code: there
    // and back is the index one started from.
    lemma RoundTrip(s: Sym)
      requires Valid() && SymOk(g, s)
      ensures Short(g, s) in short2real && short2real[Short(g, s)] in real2short
      ensures real2short[short2real[Short(g, s)]] == Short(g, s)
    {
      assert Mapped(s.node, s.z);
      ShortRange(g, s);
      RealApart(g, Short(g, s), real2short[short2real[Short(g, s)]]);
    }
  }

  lemma RealApart(g: Geo, a: int, b: int)
    requires GeoOk(g) && 0 <= a < 2 * Half(g) && 0 <= b < 2 * Half(g) && RealOf(g, a) == RealOf(g, b)
    ensures a == b
  {
    var s, t := SymAt(g, a), SymAt(g, b);
    ShortRange(g, s);
    ShortRange(g, t);
    SamePlace(RealNode(g, s.node), s.z, RealNode(g, t.node), t.z, SubChunks(g));
  }

  // Every index of the code is that of a symbol.
  ghost function SymAt(g: Geo, a: int): (s: Sym)
    requires GeoOk(g) && 0 <= a < 2 * Half(g)
    ensures SymOk(g, s) && Short(g, s) == a
  {
    PlanesPos(g);
    var w := SubChunks(g);
    var r := if a >= Half(g) then a - Half(g) else a;
    assert Half(g) == w * Nodes(g);
    DivBelow(r, Nodes(g), w);
    Euclid(r, w);
    if a >= Half(g) then U(r / w, r % w) else C(r / w, r % w)
  }

  // Node i lies in a group below y; or in group y at a place below x.
  predicate InRow(g: Geo, i: int, z: int, y: int)
    requires GeoOk(g)
  {
    SymOk(g, C(i, z)) && i / g.q < y
  }

  predicate InPart(g: Geo, i: int, z: int, y: int, x: int)
    requires GeoOk(g)
  {
    SymOk(g, C(i, z)) && i / g.q == y && i % g.q < x
  }

  lemma OnlyNode(g: Geo, y: int, x: int)
    requires GeoOk(g)
    ensures forall i :: NodeOk(g, i) && i / g.q == y && i % g.q == x ==> i == y * g.q + x
  {
    forall i | NodeOk(g, i) && i / g.q == y && i % g.q == x ensures i == y * g.q + x { PlaceOk(g, i); }
  }

  lemma GeoFits(n: nat, k: nat, q: nat, t: nat, nu: nat)
    requires 1 <= k < n && q >= 1
    requires nu == (if n % q != 0 then q - n % q else 0) && t == (n + nu) / q
    ensures GeoOk(Geo(n, k, q, t, nu))
  {
    Euclid(n, q);
    var full := if n % q != 0 then n / q + 1 else n / q;
    assert (n / q + 1) * q == (n / q) * q + q;
    assert n + nu == full * q + 0;
    DivMod(full, 0, q);
    assert q * t == t * q;
    if t < 1 { Scale(t, 0, q); }
  }
}
