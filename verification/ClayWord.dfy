// Every choice of data extends to a code word of the Clay code, so that what
// Clay::Encode computes is defined for all data.
module ClayWord {
  import opened GF
  import opened Dag
  import opened Decoding
  import opened Matrix
  import opened ClayIndex
  import opened ClayCode
  import opened ClayJoin
  import opened ClayLayered
  import opened ClayDecode
  import opened ClayEncode

  // What the data nodes store: node and plane to value.
  type Content = (int, int) -> Byte

  // A parity node counts for the score of the planes in which it is unpaired.
  function ParityScore(g: Geo, z: int): nat
    requires GeoOk(g)
  {
    Score(g, Parities(g), z)
  }

  // In a group that holds both kinds of nodes, what a data node needs of a
  // parity node lies in a plane of lower score.
  lemma MixedDescends(g: Geo, i: int, z: int)
    requires GeoOk(g) && SymOk(g, C(i, z)) && i < Data(g) && !Unpaired(g, i, z) && MateNode(g, i, z) >= Data(g)
    ensures MateOk(g, i, z) && ParityScore(g, MatePlane(g, i, z)) < ParityScore(g, z)
  {
    Mates(g, i, z);
    ParitiesErased(g);
    MateScore(g, Parities(g), i, z);
  }

  // One uncoupled symbol of a pair: upper or lower, own and other coupled one.
  function Uncoupled(f: Field, upper: bool, own: Byte, other: Byte): Byte {
    if upper then f.add(own, other) else f.add(other, f.mul(2, own))
  }

  // The upper node of a pair is the later one: with both kinds in a pair, it
  // is the parity node.
  lemma UpperIsLater(g: Geo, i: int, z: int)
    requires GeoOk(g) && NodeOk(g, i) && !Unpaired(g, i, z)
    ensures Upper(g, i, z) <==> MateNode(g, i, z) < i
  {
    PlaceOk(g, i);
  }

  function DataU(cd: Code, d: Content, i: int, z: int): Byte
    requires GeoOk(cd.g) && SymOk(cd.g, C(i, z)) && i < Data(cd.g)
    decreases ParityScore(cd.g, z), 1
  {
    if Unpaired(cd.g, i, z) then d(i, z)
    else Uncoupled(cd.f, Upper(cd.g, i, z), d(i, z), CompanionC(cd, d, i, z))
  }

  // The coupled symbol of the companion of a data node; of a parity node it is
  // its uncoupled symbol plus what the data node stores.
  function CompanionC(cd: Code, d: Content, i: int, z: int): Byte
    requires GeoOk(cd.g) && SymOk(cd.g, C(i, z)) && i < Data(cd.g) && !Unpaired(cd.g, i, z)
    decreases ParityScore(cd.g, z), 0
  {
    var j, u := MateNode(cd.g, i, z), MatePlane(cd.g, i, z);
    if j < Data(cd.g) then d(j, u)
    else
      MixedDescends(cd.g, i, z);
      cd.f.add(ParityU(cd, d, j, u), d(i, z))
  }

  function DataRow(cd: Code, d: Content, z: int): (r: Row)
    requires GeoOk(cd.g) && PlaneOk(cd.g, z)
    ensures |r| == Data(cd.g) && forall i :: 0 <= i < |r| ==> r[i] == DataU(cd, d, i, z)
    decreases ParityScore(cd.g, z), 2
  {
    seq<Byte>(Data(cd.g), i requires 0 <= i < Data(cd.g) => DataU(cd, d, i, z))
  }

  function ParityU(cd: Code, d: Content, e: int, z: int): Byte
    requires GeoOk(cd.g) && SymOk(cd.g, U(e, z))
    decreases ParityScore(cd.g, z), 3
  {
    Dot(cd.f, Generator(cd.f, Nodes(cd.g), Data(cd.g))[e], DataRow(cd, d, z))
  }

  // The lower coupled symbol of a pair with uncoupled symbols a and b.
  function Lower(f: Field, a: Byte, b: Byte): Byte { f.mul(f.inv(f.add(1, 2)), f.add(a, b)) }

  function ParityC(cd: Code, d: Content, e: int, z: int): Byte
    requires GeoOk(cd.g) && SymOk(cd.g, C(e, z))
  {
    if Unpaired(cd.g, e, z) then ParityU(cd, d, e, z)
    else
      Mates(cd.g, e, z);
      var j, u := MateNode(cd.g, e, z), MatePlane(cd.g, e, z);
      if j < Data(cd.g) then cd.f.add(ParityU(cd, d, e, z), d(j, u))
      else
        var a, b := ParityU(cd, d, e, z), ParityU(cd, d, j, u);
        if Upper(cd.g, e, z) then cd.f.add(a, Lower(cd.f, a, b)) else Lower(cd.f, b, a)
  }

  function SymValue(cd: Code, d: Content, s: Sym): Byte
    requires GeoOk(cd.g) && SymOk(cd.g, s)
  {
    if s.node < Data(cd.g) then (if s.C? then d(s.node, s.z) else DataU(cd, d, s.node, s.z))
    else if s.C? then ParityC(cd, d, s.node, s.z)
    else ParityU(cd, d, s.node, s.z)
  }

  // Both symbols of an unpaired node have one value, as they have one index.
  lemma CanonValue(cd: Code, d: Content, s: Sym)
    requires GeoOk(cd.g) && SymOk(cd.g, s)
    ensures SymOk(cd.g, Canon(cd.g, s)) && SymValue(cd, d, Canon(cd.g, s)) == SymValue(cd, d, s)
  {
  }

  ghost predicate Stands(g: Geo, s: Sym, ix: int)
    requires GeoOk(g)
  {
    SymOk(g, s) && Ix(g, s) == ix
  }

  ghost predicate Taken(g: Geo, ix: int)
    requires GeoOk(g)
  {
    exists s :: Stands(g, s, ix)
  }

  ghost function SymAt(g: Geo, ix: int): (s: Sym)
    requires GeoOk(g) && Taken(g, ix)
    ensures Stands(g, s, ix)
  {
    var s :| Stands(g, s, ix);
    s
  }

  ghost function ValueAt(cd: Code, d: Content, ix: int): Byte
    requires GeoOk(cd.g)
  {
    if Taken(cd.g, ix) then SymValue(cd, d, SymAt(cd.g, ix)) else 0
  }

  ghost function WordOf(cd: Code, d: Content): (int -> Byte)
    requires GeoOk(cd.g)
  {
    ix => ValueAt(cd, d, ix)
  }

  lemma WordAt(cd: Code, d: Content, s: Sym)
    requires GeoOk(cd.g) && SymOk(cd.g, s)
    ensures WordOf(cd, d)(Ix(cd.g, s)) == SymValue(cd, d, s)
  {
    var ix := Ix(cd.g, s);
    assert Stands(cd.g, s, ix);
    var u := SymAt(cd.g, ix);
    IxApart(cd.g, s, u);
    CanonValue(cd, d, s);
    CanonValue(cd, d, u);
  }

  lemma Solves(f: Field, a: Byte, b: Byte)
    requires IsField(f)
    ensures var c := Lower(f, a, b); var h := f.add(a, c);
      f.add(h, c) == a && f.add(h, f.mul(2, c)) == b
  {
    var t, c := f.add(1, 2), Lower(f, a, b);
    Small(f);
    Laws(f, 1, 2, 0);
    Laws(f, a, c, c);
    Laws(f, a, 0, 0);
    Laws(f, c, c, 0);
    // 3 c = a + b
    Laws(f, t, f.inv(t), f.add(a, b));
    Laws(f, t, 0, 0);
    Laws(f, f.add(a, b), 1, 0);
    Laws(f, 1, f.add(a, b), 0);
    assert f.mul(t, c) == f.add(a, b);
    // c + 2 c = 3 c
    Laws(f, c, 1, 2);
    Laws(f, c, t, 0);
    Laws(f, c, 2, 0);
    assert f.add(c, f.mul(2, c)) == f.mul(t, c);
    Laws(f, a, c, f.mul(2, c));
    Laws(f, a, a, b);
    Laws(f, 0, b, 0);
    Laws(f, b, 0, 0);
  }

  lemma PairOfWord(cd: Code, d: Content, i: int, z: int)
    requires CodeOk(cd) && SymOk(cd.g, C(i, z)) && !Unpaired(cd.g, i, z) && Upper(cd.g, i, z)
    ensures PairAt(cd, WordOf(cd, d), i, z)
  {
    var g := cd.g;
    Mates(g, i, z);
    var j, u := MateNode(g, i, z), MatePlane(g, i, z);
    WordAt(cd, d, C(i, z));
    WordAt(cd, d, C(j, u));
    WordAt(cd, d, U(i, z));
    WordAt(cd, d, U(j, u));
    UpperIsLater(g, i, z);
    if i < Data(g) { DataPair(cd, d, i, z, j, u); }
    else if j < Data(g) { MixedPair(cd, d, i, z, j, u); }
    else { ParityPair(cd, d, i, z, j, u); }
  }

  // The four symbols of a pair meet its two rows, whichever nodes hold data.
  ghost predicate Solved(cd: Code, d: Content, i: int, z: int, j: int, u: int)
    requires GeoOk(cd.g) && SymOk(cd.g, C(i, z)) && SymOk(cd.g, C(j, u))
  {
    var c0, c1 := SymValue(cd, d, C(i, z)), SymValue(cd, d, C(j, u));
    && SymValue(cd, d, U(i, z)) == cd.f.add(c0, c1)
    && SymValue(cd, d, U(j, u)) == cd.f.add(c0, cd.f.mul(2, c1))
  }

  ghost predicate IsPair(g: Geo, i: int, z: int, j: int, u: int) {
    && GeoOk(g) && SymOk(g, C(i, z)) && !Unpaired(g, i, z) && Upper(g, i, z)
    && MateOk(g, i, z) && j == MateNode(g, i, z) && u == MatePlane(g, i, z) && j < i
  }

  lemma DataPair(cd: Code, d: Content, i: int, z: int, j: int, u: int)
    requires CodeOk(cd) && IsPair(cd.g, i, z, j, u) && i < Data(cd.g)
    ensures Solved(cd, d, i, z, j, u)
  {
    assert DataU(cd, d, i, z) == cd.f.add(d(i, z), d(j, u));
    assert DataU(cd, d, j, u) == cd.f.add(d(i, z), cd.f.mul(2, d(j, u)));
  }

  lemma ParityPair(cd: Code, d: Content, i: int, z: int, j: int, u: int)
    requires CodeOk(cd) && IsPair(cd.g, i, z, j, u) && j >= Data(cd.g)
    ensures Solved(cd, d, i, z, j, u)
  {
    var a, b := ParityU(cd, d, i, z), ParityU(cd, d, j, u);
    Solves(cd.f, a, b);
    assert ParityC(cd, d, i, z) == cd.f.add(a, Lower(cd.f, a, b)) && ParityC(cd, d, j, u) == Lower(cd.f, a, b);
  }

  lemma MixedPair(cd: Code, d: Content, i: int, z: int, j: int, u: int)
    requires CodeOk(cd) && IsPair(cd.g, i, z, j, u) && i >= Data(cd.g) && j < Data(cd.g)
    ensures Solved(cd, d, i, z, j, u)
  {
    var p := ParityU(cd, d, i, z);
    Laws(cd.f, p, d(j, u), d(j, u));
    Laws(cd.f, d(j, u), d(j, u), p);
    Laws(cd.f, p, 0, 0);
    assert ParityC(cd, d, i, z) == cd.f.add(p, d(j, u));
    assert DataU(cd, d, j, u) == cd.f.add(cd.f.add(p, d(j, u)), cd.f.mul(2, d(j, u)));
  }

  lemma RowOfWord(cd: Code, d: Content, i: int, z: int)
    requires CodeOk(cd) && SymOk(cd.g, U(i, z)) && i >= Data(cd.g)
    ensures RowAt(cd, WordOf(cd, d), i, z)
  {
    var g := cd.g;
    WordAt(cd, d, U(i, z));
    var row := DataOf(cd, WordOf(cd, d), z);
    forall k | 0 <= k < Data(g) ensures row[k] == DataRow(cd, d, z)[k] {
      WordAt(cd, d, U(k, z));
    }
    DotAgrees(cd.f, Generator(cd.f, Nodes(g), Data(g))[i], row, DataRow(cd, d, z));
  }

  // Whatever the data nodes store, there is a code word with these data, also
  // when a group holds data and parity nodes.
  lemma WordExists(cd: Code, d: Content)
    requires CodeOk(cd)
    ensures Word(cd, WordOf(cd, d))
    ensures forall s {:trigger s in Stored(cd.g, Parities(cd.g))} ::
              s in Stored(cd.g, Parities(cd.g)) ==> WordOf(cd, d)(Ix(cd.g, s)) == d(s.node, s.z)
  {
    var g, val := cd.g, WordOf(cd, d);
    forall i, z | SymOk(g, C(i, z)) && !Unpaired(g, i, z) && Upper(g, i, z) ensures PairAt(cd, val, i, z) {
      PairOfWord(cd, d, i, z);
    }
    forall i, z | SymOk(g, U(i, z)) && i >= Data(g) ensures RowAt(cd, val, i, z) {
      RowOfWord(cd, d, i, z);
    }
    ParitiesErased(g);
    forall s | s in Stored(g, Parities(g)) ensures val(Ix(g, s)) == d(s.node, s.z) {
      WordAt(cd, d, s);
    }
  }

  // One DAG serves all data: evaluated on whatever the data nodes store, it
  // gives the parity symbols of the code word with these data.
  lemma StripeIsWord(cd: Code, d: Content, done: set<Sym>, nodes: Graph, joins: multiset<int>, rank: map<int, nat>,
                     leaf: int -> Byte, e: int, z: int)
    requires CodeOk(cd) && Ranked(nodes, rank)
    requires Decoded(cd, Stored(cd.g, Parities(cd.g)), done, nodes, joins)
    requires forall s {:trigger s in done} :: s in done <==> Proper(cd.g, Parities(cd.g), s)
    requires forall s :: s in Stored(cd.g, Parities(cd.g)) ==> leaf(Ix(cd.g, s)) == d(s.node, s.z)
    requires SymOk(cd.g, C(e, z)) && e >= Data(cd.g)
    ensures Word(cd, WordOf(cd, d)) && Ix(cd.g, C(e, z)) in nodes
    ensures Value(cd.f, nodes, rank, leaf, Ix(cd.g, C(e, z))) == WordOf(cd, d)(Ix(cd.g, C(e, z)))
  {
    WordExists(cd, d);
    ParitiesErased(cd.g);
    ErasedRecovered(cd, WordOf(cd, d), Parities(cd.g), done, nodes, joins, rank, leaf, e, z);
  }
}
