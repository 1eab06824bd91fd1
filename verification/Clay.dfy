// src/ec/Clay.cc: the symbols of a Clay code, the pairwise transform, and the
// step that every decoder is made of.
module ClayCode {
  import opened Util
  import opened GF
  import opened Dag
  import opened Join
  import opened EcDag
  import opened Decoding
  import opened Matrix
  import P = Planes
  import opened ClayIndex

  datatype Code = Code(g: Geo, f: Field, invert: Mat -> Mat)

  ghost predicate CodeOk(cd: Code) {
    GeoOk(cd.g) && IsField(cd.f) && Inverts(cd.f, cd.invert)
  }

  // ------------------------------------------------------------------ partners

  // The companion of node i in plane z, for a paired node.
  function MateNode(g: Geo, i: int, z: int): int
    requires GeoOk(g) && NodeOk(g, i)
  {
    PlaceOk(g, i);
    (i / g.q) * g.q + Digit(g, z, i / g.q)
  }

  function MatePlane(g: Geo, i: int, z: int): int
    requires GeoOk(g) && NodeOk(g, i)
  {
    PlaceOk(g, i);
    P.Swap(g.q, g.t, z, i / g.q, i % g.q)
  }

  // The digit of z in the group of i, and the place of i in that group.
  function DigitAt(g: Geo, i: int, z: int): int
    requires GeoOk(g) && NodeOk(g, i)
  {
    PlaceOk(g, i);
    Digit(g, z, i / g.q)
  }

  // Node i stands above the digit: it is partner 0 of its pair.
  predicate Upper(g: Geo, i: int, z: int)
    requires GeoOk(g) && NodeOk(g, i)
  {
    DigitAt(g, i, z) < i % g.q
  }

  ghost predicate MateOk(g: Geo, i: int, z: int)
    requires GeoOk(g) && NodeOk(g, i) && PlaneOk(g, z)
  {
    var j, u := MateNode(g, i, z), MatePlane(g, i, z);
    && NodeOk(g, j) && PlaneOk(g, u) && !Unpaired(g, j, u)
    && MateNode(g, j, u) == i && MatePlane(g, j, u) == z
    && (Upper(g, j, u) <==> !Upper(g, i, z))
    && (!Upper(g, i, z) ==> u < z)
    && (Upper(g, i, z) ==> u > z)
    && j / g.q == i / g.q && j != i && Unpaired(g, j, z) && Unpaired(g, i, u)
    && (forall y :: 0 <= y < g.t && y != i / g.q ==> Digit(g, u, y) == Digit(g, z, y))
  }

  // Being companions is mutual: it swaps node and digit.
  lemma Mates(g: Geo, i: int, z: int)
    requires GeoOk(g) && NodeOk(g, i) && PlaneOk(g, z) && !Unpaired(g, i, z)
    ensures MateOk(g, i, z)
  {
    PlaceOk(g, i);
    var y, x := i / g.q, i % g.q;
    NodeAt(g, y, Digit(g, z, y));
    P.SwapFacts(g.q, g.t, z, y, x);
  }

  // --------------------------------------------------------------- code words

  // The values of the data symbols of plane z.
  ghost function DataOf(cd: Code, val: int -> Byte, z: int): (r: Row)
    requires GeoOk(cd.g) && PlaneOk(cd.g, z)
    ensures |r| == Data(cd.g)
  {
    DataIsNodes(cd.g);
    seq<Byte>(Data(cd.g), i requires 0 <= i < Data(cd.g) => val(Ix(cd.g, U(i, z))))
  }

  lemma DataIsNodes(g: Geo)
    requires GeoOk(g)
    ensures Data(g) <= Nodes(g)
  {
  }

  ghost predicate PairAt(cd: Code, val: int -> Byte, i: int, z: int)
    requires GeoOk(cd.g) && SymOk(cd.g, C(i, z)) && !Unpaired(cd.g, i, z)
  {
    Mates(cd.g, i, z);
    var j, u := MateNode(cd.g, i, z), MatePlane(cd.g, i, z);
    var c0, c1 := val(Ix(cd.g, C(i, z))), val(Ix(cd.g, C(j, u)));
    && val(Ix(cd.g, U(i, z))) == cd.f.add(c0, c1)
    && val(Ix(cd.g, U(j, u))) == cd.f.add(c0, cd.f.mul(2, c1))
  }

  ghost predicate RowAt(cd: Code, val: int -> Byte, i: int, z: int)
    requires GeoOk(cd.g) && SymOk(cd.g, U(i, z))
  {
    val(Ix(cd.g, U(i, z))) == Dot(cd.f, Generator(cd.f, Nodes(cd.g), Data(cd.g))[i], DataOf(cd, val, z))
  }

  // An assignment of values is a code word when all pairs satisfy the
  // pairwise rows and all parity nodes the rows of the MDS code, per plane.
  ghost predicate Word(cd: Code, val: int -> Byte)
    requires GeoOk(cd.g)
  {
    && (forall i, z {:trigger PairAt(cd, val, i, z)} ::
          SymOk(cd.g, C(i, z)) && !Unpaired(cd.g, i, z) && Upper(cd.g, i, z) ==> PairAt(cd, val, i, z))
    && (forall i, z {:trigger RowAt(cd, val, i, z)} ::
          SymOk(cd.g, U(i, z)) && i >= Data(cd.g) ==> RowAt(cd, val, i, z))
  }

  // The pairs in numbers: in group y, the node at place x above the digit d of
  // plane z, and the node at place d in the plane that has x there.
  lemma PairEquations(cd: Code, val: int -> Byte, y: nat, d: nat, x: nat, z: int)
    requires CodeOk(cd) && Word(cd, val) && y < cd.g.t && d < x < cd.g.q && PlaneOk(cd.g, z) && Digit(cd.g, z, y) == d
    ensures var i, j, u := y * cd.g.q + x, y * cd.g.q + d, z + (x - d) * P.Pow(cd.g.q, cd.g.t - 1 - y);
      && SymOk(cd.g, C(i, z)) && SymOk(cd.g, C(j, u))
      && val(Ix(cd.g, U(i, z))) == cd.f.add(val(Ix(cd.g, C(i, z))), val(Ix(cd.g, C(j, u))))
      && val(Ix(cd.g, U(j, u))) == cd.f.add(val(Ix(cd.g, C(i, z))), cd.f.mul(2, val(Ix(cd.g, C(j, u)))))
  {
    var i := y * cd.g.q + x;
    NodeAt(cd.g, y, x);
    P.SwapIs(cd.g.q, cd.g.t, z, y, x);
    Mates(cd.g, i, z);
    assert PairAt(cd, val, i, z);
  }

  // Data nodes satisfy their (unit) rows anyway.
  lemma EveryRow(cd: Code, val: int -> Byte, i: int, z: int)
    requires CodeOk(cd) && Word(cd, val) && SymOk(cd.g, U(i, z))
    ensures RowAt(cd, val, i, z)
  {
    if i < Data(cd.g) { DotUnit(cd.f, DataOf(cd, val, z), i); }
  }

  // ------------------------------------------------------- the pairwise rows

  // The four symbols of a pair, by their number in the transform.
  function Pick(i: int, z: int, j: int, u: int, k: int): Sym {
    if k == 0 then C(i, z) else if k == 1 then C(j, u) else if k == 2 then U(i, z) else U(j, u)
  }

  function PairSym(g: Geo, i: int, z: int, k: int): Sym
    requires GeoOk(g) && NodeOk(g, i)
  {
    Pick(i, z, MateNode(g, i, z), MatePlane(g, i, z), k)
  }

  ghost function PairData(cd: Code, val: int -> Byte, i: int, z: int): (r: Row)
    requires GeoOk(cd.g) && SymOk(cd.g, C(i, z)) && !Unpaired(cd.g, i, z)
    ensures |r| == 2
  {
    Mates(cd.g, i, z);
    [val(Ix(cd.g, PairSym(cd.g, i, z, 0))), val(Ix(cd.g, PairSym(cd.g, i, z, 1)))]
  }

  lemma PairSymOk(g: Geo, i: int, z: int, k: int)
    requires GeoOk(g) && SymOk(g, C(i, z)) && !Unpaired(g, i, z)
    ensures SymOk(g, PairSym(g, i, z, k)) && Canon(g, PairSym(g, i, z, k)) == PairSym(g, i, z, k)
  {
    Mates(g, i, z);
  }

  lemma DotTwo(f: Field, a: Row, c: Row)
    requires IsField(f) && |a| == 2 && |c| == 2
    ensures Dot(f, a, c) == f.add(f.mul(a[0], c[0]), f.mul(a[1], c[1]))
  {
    assert a[..1][..0] == [] && c[..1][..0] == [];
    assert Dot(f, a[..1], c[..1]) == f.add(0, f.mul(a[0], c[0]));
    Laws(f, 0, f.mul(a[0], c[0]), 0);
    Laws(f, f.mul(a[0], c[0]), 0, 0);
  }

  // Symbol k of a pair is row k of the transform applied to its two coupled
  // symbols.
  lemma PairRow(cd: Code, val: int -> Byte, i: int, z: int, k: int)
    requires CodeOk(cd) && Word(cd, val) && SymOk(cd.g, C(i, z)) && !Unpaired(cd.g, i, z) && Upper(cd.g, i, z)
    requires 0 <= k < 4
    ensures SymOk(cd.g, PairSym(cd.g, i, z, k))
    ensures val(Ix(cd.g, PairSym(cd.g, i, z, k))) == Dot(cd.f, PairMatrix(cd.f)[k], PairData(cd, val, i, z))
  {
    PairSymOk(cd.g, i, z, k);
    PairRows(cd.f);
    var d := PairData(cd, val, i, z);
    DotTwo(cd.f, PairMatrix(cd.f)[k], d);
    Laws(cd.f, 1, d[0], 0);
    Laws(cd.f, d[0], 1, 0);
    Laws(cd.f, 1, d[1], 0);
    Laws(cd.f, d[1], 1, 0);
    Laws(cd.f, 0, d[0], 0);
    Laws(cd.f, d[0], 0, 0);
    Laws(cd.f, 0, d[1], 0);
    Laws(cd.f, d[1], 0, 0);
    assert PairAt(cd, val, i, z);
  }

  // The coefficients with which two symbols of a pair give a third.
  function PairCoefs(cd: Code, a: int, b: int, k: int): (r: Row)
    requires CodeShape(cd, a, b) && 0 <= k < 4
    ensures |r| == 2
  {
    RowTimes(cd.f, PairMatrix(cd.f)[k], cd.invert(Select(PairMatrix(cd.f), [a, b])), 2)
  }

  predicate CodeShape(cd: Code, a: int, b: int) {
    0 <= a < 4 && 0 <= b < 4 && Shape(cd.invert(Select(PairMatrix(cd.f), [a, b])), 2, 2)
  }

  predicate Solved(a: int, b: int) {
    (a == 0 && b == 2) || (a == 1 && b == 2) || (a == 0 && b == 3) || (a == 1 && b == 3) || (a == 2 && b == 3)
  }

  lemma PairIdentity(cd: Code, val: int -> Byte, i: int, z: int, a: int, b: int, k: int)
    requires CodeOk(cd) && Word(cd, val) && SymOk(cd.g, C(i, z)) && !Unpaired(cd.g, i, z) && Upper(cd.g, i, z)
    requires Solved(a, b) && 0 <= k < 4
    ensures CodeShape(cd, a, b)
    ensures SymOk(cd.g, PairSym(cd.g, i, z, k)) && SymOk(cd.g, PairSym(cd.g, i, z, a)) && SymOk(cd.g, PairSym(cd.g, i, z, b))
    ensures var xs := [Ix(cd.g, PairSym(cd.g, i, z, a)), Ix(cd.g, PairSym(cd.g, i, z, b))];
      val(Ix(cd.g, PairSym(cd.g, i, z, k))) == Comb(cd.f, PairCoefs(cd, a, b, k), xs, val)
  {
    PairInverse(cd.f, cd.invert, a, b);
    PairRow(cd, val, i, z, a);
    PairRow(cd, val, i, z, b);
    PairRow(cd, val, i, z, k);
    SolveTwo(cd, PairData(cd, val, i, z), a, b, k, val,
             [Ix(cd.g, PairSym(cd.g, i, z, a)), Ix(cd.g, PairSym(cd.g, i, z, b))]);
  }

  lemma SolveTwo(cd: Code, data: Row, a: int, b: int, k: int, val: int -> Byte, xs: seq<int>)
    requires IsField(cd.f) && |data| == 2 && |xs| == 2 && 0 <= a < 4 && 0 <= b < 4 && 0 <= k < 4
    requires var sel := Select(PairMatrix(cd.f), [a, b]); LeftInverse(cd.f, cd.invert(sel), sel, 2)
    requires val(xs[0]) == Dot(cd.f, PairMatrix(cd.f)[a], data) && val(xs[1]) == Dot(cd.f, PairMatrix(cd.f)[b], data)
    ensures CodeShape(cd, a, b)
    ensures Comb(cd.f, PairCoefs(cd, a, b, k), xs, val) == Dot(cd.f, PairMatrix(cd.f)[k], data)
  {
    var sel := Select(PairMatrix(cd.f), [a, b]);
    var s := ValuesOf(val, xs);
    assert |s| == 2 && sel == [PairMatrix(cd.f)[a], PairMatrix(cd.f)[b]];
    assert s[0] == Dot(cd.f, sel[0], data) && s[1] == Dot(cd.f, sel[1], data);
    RecoverFrom(cd.f, cd.invert(sel), sel, PairMatrix(cd.f)[k], data, s);
    CombIsDot(cd.f, PairCoefs(cd, a, b, k), xs, val);
  }

  // ----------------------------------------------------------- the DAG so far

  ghost function WordsOf(cd: Code): Words
    requires GeoOk(cd.g)
  {
    (val: int -> Byte) => GeoOk(cd.g) && Word(cd, val)
  }

  // The indices of a set of symbols that are symbols of their own.
  ghost function Ixs(g: Geo, ss: set<Sym>): (r: set<int>)
    requires GeoOk(g)
    ensures forall s :: s in ss && SymOk(g, s) && Canon(g, s) == s ==> Ix(g, s) in r
  {
    set s | s in ss && SymOk(g, s) && Canon(g, s) == s :: Ix(g, s)
  }

  lemma IxIn(g: Geo, ss: set<Sym>, t: Sym)
    requires GeoOk(g) && SymOk(g, t)
    ensures Ix(g, t) in Ixs(g, ss) <==> Canon(g, t) in ss
  {
    if Ix(g, t) in Ixs(g, ss) {
      var s :| s in ss && SymOk(g, s) && Canon(g, s) == s && Ix(g, s) == Ix(g, t);
      IxApart(g, s, t);
    }
  }

  lemma IxsAdd(g: Geo, ss: set<Sym>, t: Sym)
    requires GeoOk(g) && SymOk(g, t)
    ensures Ixs(g, ss + {Canon(g, t)}) == Ixs(g, ss) + {Ix(g, t)}
  {
    assert Ix(g, Canon(g, t)) == Ix(g, t);
  }

  // known: the symbols a decoder may read.  done: the symbols it has joined,
  // each by one call.
  ghost predicate Decoded(cd: Code, known: set<Sym>, done: set<Sym>, nodes: Graph, joins: multiset<int>)
    requires GeoOk(cd.g)
  {
    Progress(cd.f, WordsOf(cd), Ixs(cd.g, known), Ixs(cd.g, done), nodes, joins)
  }

  predicate AllOk(g: Geo, ss: seq<Sym>) { forall i :: 0 <= i < |ss| ==> SymOk(g, ss[i]) }

  function IxAll(g: Geo, ss: seq<Sym>): (r: seq<int>)
    requires GeoOk(g) && AllOk(g, ss)
    ensures |r| == |ss| && forall i :: 0 <= i < |ss| ==> r[i] == Ix(g, ss[i])
  {
    seq(|ss|, i requires 0 <= i < |ss| => Ix(g, ss[i]))
  }

  // A symbol that may be used: known, or joined before.
  predicate Ready(g: Geo, known: set<Sym>, done: set<Sym>, s: Sym)
    requires GeoOk(g)
  {
    SymOk(g, s) && (Canon(g, s) in known || Canon(g, s) in done)
  }

  predicate Fresh(g: Geo, known: set<Sym>, done: set<Sym>, s: Sym)
    requires GeoOk(g)
  {
    SymOk(g, s) && Canon(g, s) !in known && Canon(g, s) !in done
  }

  lemma ReadyThere(g: Geo, known: set<Sym>, done: set<Sym>, srcs: seq<Sym>)
    requires GeoOk(g) && AllOk(g, srcs) && forall i :: 0 <= i < |srcs| ==> Ready(g, known, done, srcs[i])
    ensures AllThere(Ixs(g, known), Ixs(g, done), IxAll(g, srcs))
  {
    forall i | 0 <= i < |srcs| ensures IxAll(g, srcs)[i] in Ixs(g, known) || IxAll(g, srcs)[i] in Ixs(g, done) {
      IxIn(g, known, srcs[i]);
      IxIn(g, done, srcs[i]);
    }
  }

  lemma FreshAway(g: Geo, known: set<Sym>, done: set<Sym>, t: Sym)
    requires GeoOk(g) && Fresh(g, known, done, t)
    ensures Ix(g, t) !in Ixs(g, known) && Ix(g, t) !in Ixs(g, done)
  {
    IxIn(g, known, t);
    IxIn(g, done, t);
  }

  // Whoever evaluates the DAG from the known symbols of a word gets the value
  // of every joined symbol.
  lemma SymbolIsRight(cd: Code, val: int -> Byte, known: set<Sym>, done: set<Sym>, nodes: Graph, joins: multiset<int>,
                      rank: map<int, nat>, leaf: int -> Byte, t: Sym)
    requires GeoOk(cd.g) && Word(cd, val) && Decoded(cd, known, done, nodes, joins) && Ranked(nodes, rank)
    requires forall s :: s in known && SymOk(cd.g, s) ==> leaf(Ix(cd.g, s)) == val(Ix(cd.g, s))
    requires SymOk(cd.g, t) && Canon(cd.g, t) in done
    ensures Ix(cd.g, t) in nodes && nodes[Ix(cd.g, t)].children != []
    ensures Value(cd.f, nodes, rank, leaf, Ix(cd.g, t)) == val(Ix(cd.g, t))
  {
    IxIn(cd.g, done, t);
    JoinedIsRight(cd.f, WordsOf(cd), Ixs(cd.g, known), Ixs(cd.g, done), nodes, joins, rank, val, leaf, Ix(cd.g, t));
  }
}
