// Clay::Encode: the parity nodes take the place of the erased ones, and the
// second pass treats only pairs of two parity nodes.
module ClayEncode {
  import opened Util
  import opened GF
  import opened Dag
  import opened EcDag
  import opened Decoding
  import opened Matrix
  import P = Planes
  import opened ClayIndex
  import opened ClayCode
  import opened ClayJoin
  import opened ClayLayered
  import opened ClayDecode

  // ------------------------------------------------------------ parity nodes

  function Parities(g: Geo): (r: seq<int>)
    requires GeoOk(g)
    ensures |r| == Parity(g) && forall i :: 0 <= i < |r| ==> r[i] == Data(g) + i
  {
    seq(Parity(g), i requires 0 <= i < Parity(g) => Data(g) + i)
  }

  lemma ParitiesErased(g: Geo)
    requires GeoOk(g)
    ensures Erasure(g, Parities(g))
    ensures forall e {:trigger e in Parities(g)} :: e in Parities(g) <==> Data(g) <= e < Nodes(g)
  {
    forall e | Data(g) <= e < Nodes(g) ensures e in Parities(g) { assert Parities(g)[e - Data(g)] == e; }
  }

  lemma {:induction false} DataSurvive(g: Geo, n: nat)
    requires GeoOk(g) && n <= Nodes(g)
    ensures |Survivors(Parities(g), n)| == if n < Data(g) then n else Data(g)
    ensures forall i :: 0 <= i < |Survivors(Parities(g), n)| ==> Survivors(Parities(g), n)[i] == i
  {
    ParitiesErased(g);
    if n > 0 { DataSurvive(g, n - 1); }
  }

  lemma {:induction false} UnitTimes(f: Field, len: nat, k: nat, m: Mat, cols: nat)
    requires IsField(f) && Shape(m, len, cols) && forall i :: 0 <= i < len ==> m[i] == Unit(cols, i)
    ensures RowTimes(f, Unit(len, k), m, cols) == if k < len then Unit(cols, k) else Zeros(cols)
  {
    if len > 0 {
      var n := len - 1;
      UnitTimes(f, n, k, m[..n], cols);
      assert Unit(len, k)[..n] == Unit(n, k);
      Small(f);
    }
  }

  // The data nodes have unit rows, so encoding can always be solved.
  lemma DataSolve(cd: Code)
    requires CodeOk(cd)
    ensures Solvable(cd, Parities(cd.g))
  {
    var n := Data(cd.g);
    DataSurvive(cd.g, Nodes(cd.g));
    var sel := SurvivorRows(cd, Parities(cd.g));
    forall i | 0 <= i < n ensures RowTimes(cd.f, sel[i], sel, n) == Unit(n, i) {
      UnitTimes(cd.f, n, i, sel, n);
    }
    assert LeftInverse(cd.f, sel, sel, n);
  }

  // ------------------------------------------------ groups and parity nodes

  // No group holds both data and parity nodes: as q = d - k + 1, this is so
  // with d = n - 1, and otherwise when n - k is a multiple of q.
  predicate Whole(g: Geo)
    requires GeoOk(g)
  {
    Parity(g) % g.q == 0
  }

  // The group of the first parity node begins with it exactly when Whole.
  lemma FirstParity(g: Geo)
    requires GeoOk(g)
    ensures NodeOk(g, Data(g)) && (Whole(g) <==> Data(g) % g.q == 0)
  {
    if Data(g) % g.q == 0 { Multiples(Data(g), Parity(g), g.q, g.t); }
    if Whole(g) { Multiples(Parity(g), Data(g), g.q, g.t); }
  }

  lemma Multiples(a: int, b: int, q: int, t: int)
    requires q >= 1 && a + b == q * t && a % q == 0
    ensures b % q == 0
  {
    P.Euclid(a, q);
    P.DivMod(t - a / q, 0, q);
    assert (t - a / q) * q == t * q - (a / q) * q && q * t == t * q;
  }

  lemma WholeGroups(g: Geo, i: int, z: int)
    requires GeoOk(g) && Whole(g) && NodeOk(g, i) && PlaneOk(g, z) && !Unpaired(g, i, z)
    ensures i >= Data(g) <==> MateNode(g, i, z) >= Data(g)
  {
    FirstParity(g);
    Mates(g, i, z);
    FromGroup(g, Data(g), i);
    FromGroup(g, Data(g), MateNode(g, i, z));
  }

  lemma FromGroup(g: Geo, a: int, i: int)
    requires GeoOk(g) && NodeOk(g, a) && NodeOk(g, i) && a % g.q == 0
    ensures i >= a <==> i / g.q >= a / g.q
  {
    PlaceOk(g, a);
    PlaceOk(g, i);
    var y := a / g.q;
    if i / g.q >= y { P.Scale(y, i / g.q, g.q); } else { P.Scale(i / g.q + 1, y, g.q); }
  }

  lemma {:induction false} ZeroDigits(q: int, t: nat, y: nat)
    requires q >= 1 && y < t
    ensures P.Vec(q, t, 0)[y] == 0
  {
    if y < t - 1 { ZeroDigits(q, t - 1, y); }
  }

  // --------------------------------------------------- the pair that is missed

  // In plane 0 the first parity node is paired with the first node of its
  // group; when the group is split, that is a data node, and its uncoupled
  // symbol is this one.
  function Missed(g: Geo): Sym
    requires GeoOk(g)
  {
    FirstParity(g);
    U(MateNode(g, Data(g), 0), MatePlane(g, Data(g), 0))
  }

  lemma MissedFacts(g: Geo)
    requires GeoOk(g) && !Whole(g)
    ensures NodeOk(g, Data(g)) && PlaneOk(g, 0) && !Unpaired(g, Data(g), 0) && Upper(g, Data(g), 0)
    ensures SymOk(g, Missed(g)) && Canon(g, Missed(g)) == Missed(g) && Missed(g).node < Data(g)
  {
    FirstParity(g);
    PlanesPos(g);
    PlaceOk(g, Data(g));
    ZeroDigits(g.q, g.t, Data(g) / g.q);
    Mates(g, Data(g), 0);
  }

  // A parity node that is unpaired in plane 0 stands first in its group, so
  // the whole group is parity.
  lemma HitAbove(g: Geo, z: int, e: int)
    requires GeoOk(g) && PlaneOk(g, z) && e in Hits(g, Parities(g), 0)
    ensures e / g.q in Rows(g, Hits(g, Parities(g), z))
  {
    var y := e / g.q;
    ParitiesErased(g);
    PlaceOk(g, e);
    ZeroDigits(g.q, g.t, y);
    NodeAt(g, y, Digit(g, z, y));
    var h := y * g.q + Digit(g, z, y);
    assert h in Parities(g);
    assert h in Hits(g, Parities(g), z);
  }

  // No plane has a lower score than plane 0.
  lemma ScoreOfZero(g: Geo, z: int)
    requires GeoOk(g) && PlaneOk(g, z)
    ensures PlaneOk(g, 0) && Score(g, Parities(g), 0) <= Score(g, Parities(g), z)
  {
    var erased := Parities(g);
    ParitiesErased(g);
    PlanesPos(g);
    var a, b := Hits(g, erased, 0), Hits(g, erased, z);
    RowsOfHits(g, erased, 0, a);
    RowsOfHits(g, erased, z, b);
    forall y | y in Rows(g, a) ensures y in Rows(g, b) {
      var e :| e in a && e / g.q == y;
      HitAbove(g, z, e);
    }
    Smaller(Rows(g, a), Rows(g, b));
  }

  // Its plane comes later than plane 0, so the second pass over plane 0 asks
  // for a symbol that has not been joined.
  lemma MissedLater(g: Geo)
    requires GeoOk(g) && !Whole(g)
    ensures SymOk(g, Missed(g)) && PlaneOk(g, 0)
    ensures Score(g, Parities(g), Missed(g).z) == Score(g, Parities(g), 0) + 1
  {
    MissedFacts(g);
    ParitiesErased(g);
    MateScore(g, Parities(g), Data(g), 0);
  }

  lemma MissedAbsent(clay: Clay, dag: ECDAG, done: set<Sym>)
    requires clay.Valid() && !Whole(clay.code.g)
    requires var g, hm := clay.code.g, Score(clay.code.g, Parities(clay.code.g), 0);
      DoneIs(g, Parities(g), Passed(g, Parities(g), hm, SubChunks(g)), Passed(g, Parities(g), hm, 0), done)
    requires clay.Valid() && clay.Holds(dag, Stored(clay.code.g, Parities(clay.code.g)), done)
    ensures SymOk(clay.code.g, Missed(clay.code.g)) && Ix(clay.code.g, Missed(clay.code.g)) !in dag.nodes
    ensures clay.Keeps(dag, Stored(clay.code.g, Parities(clay.code.g)), done, false)
  {
    var g, s := clay.code.g, Missed(clay.code.g);
    MissedFacts(g);
    MissedLater(g);
    ParitiesErased(g);
    Mates(g, Data(g), 0);
    assert s !in done;
    clay.Open(dag, Stored(g, Parities(g)), done, true);
    FreshAway(g, Stored(g, Parities(g)), done, s);
  }

  // If that symbol was not there before, it came as a leaf.
  ghost predicate MissedBorn(g: Geo, before: Graph, after: Graph)
    requires GeoOk(g)
  {
    !Whole(g) ==> SymOk(g, Missed(g)) && BornLeaf(before, after, Ix(g, Missed(g)))
  }

  lemma BornStays(g: Geo, start: Graph, before: Graph, after: Graph)
    requires GeoOk(g) && Extends(before, after)
    ensures MissedBorn(g, start, before) ==> MissedBorn(g, start, after)
  {
  }

  // ------------------------------------------------------------ the second pass

  // One parity node of one plane: only the upper node of a pair acts, and it
  // does not ask whether its companion is a parity node.
  method CoupleNode(clay: Clay, dag: ECDAG, e: int, z: int, ghost first: set<int>, ghost second: set<int>,
                    ghost seen: seq<int>, ghost done: set<Sym>, ghost sure: bool)
    returns (ghost after: set<Sym>)
    requires clay.Valid() && clay.Keeps(dag, Stored(clay.code.g, Parities(clay.code.g)), done, sure)
    requires PlaneOk(clay.code.g, z) && Data(clay.code.g) <= e < Nodes(clay.code.g)
    requires sure ==> Whole(clay.code.g) && z !in second && e !in seen
    requires sure ==> ReadyErased(clay.code.g, Parities(clay.code.g), first, e, z)
    requires sure ==> MidCIs(clay.code.g, Parities(clay.code.g), first, second, z, seen, done)
    modifies dag
    ensures clay.Keeps(dag, Stored(clay.code.g, Parities(clay.code.g)), after, sure)
    ensures Extends(old(dag.nodes), dag.nodes)
    ensures sure ==> after == done + MakesC(clay.code.g, Parities(clay.code.g), e, z)
    ensures e == Data(clay.code.g) && z == 0 ==> MissedBorn(clay.code.g, old(dag.nodes), dag.nodes)
  {
    ghost var g, erased := clay.code.g, Parities(clay.code.g);
    ParitiesErased(g);
    var x, y := e % clay.code.g.q, e / clay.code.g.q;
    PlaceOk(g, e);
    var i, j, u := clay.Companion(x, y, z);
    var vec := P.GetPlaneVector(clay.code.g.q, clay.code.g.t, z);
    assert DigitAt(g, e, z) == vec[y];
    after := done;
    if !Whole(g) { MissedFacts(g); }
    if vec[y] < x {
      Mates(g, e, z);
      if sure { WholeGroups(g, e, z); }
      after := DecodeBoth(clay, dag, erased, e, z, j, u, first, second, seen, done, sure);
    } else if sure && vec[y] != x {
      Mates(g, e, z);
      WholeGroups(g, e, z);
    }
  }

  ghost predicate ReadyToCouple(g: Geo, erased: seq<int>, first: set<int>, z: int)
    requires GeoOk(g)
  {
    forall e {:trigger ReadyErased(g, erased, first, e, z)} :: NodeOk(g, e) ==> ReadyErased(g, erased, first, e, z)
  }

  lemma PlaneCanCouple(g: Geo, erased: seq<int>, z: int)
    requires GeoOk(g) && PlaneOk(g, z)
    ensures ReadyToCouple(g, erased, Passed(g, erased, Score(g, erased, z), SubChunks(g)), z)
  {
    var first := Passed(g, erased, Score(g, erased, z), SubChunks(g));
    forall e | NodeOk(g, e) ensures ReadyErased(g, erased, first, e, z) { SecondPassReady(g, erased, z, e); }
  }

  method CouplePlane(clay: Clay, dag: ECDAG, erased: seq<int>, z: int, ghost first: set<int>, ghost second: set<int>,
                     ghost done: set<Sym>, ghost sure: bool)
    returns (ghost after: set<Sym>)
    requires clay.Valid() && clay.Keeps(dag, Stored(clay.code.g, erased), done, sure)
    requires erased == Parities(clay.code.g) && PlaneOk(clay.code.g, z)
    requires sure ==> Whole(clay.code.g) && z !in second && DoneIs(clay.code.g, erased, first, second, done)
    requires sure ==> ReadyToCouple(clay.code.g, erased, first, z)
    modifies dag
    ensures clay.Keeps(dag, Stored(clay.code.g, erased), after, sure)
    ensures Extends(old(dag.nodes), dag.nodes)
    ensures sure ==> DoneIs(clay.code.g, erased, first, second + {z}, after)
    ensures z == 0 ==> MissedBorn(clay.code.g, old(dag.nodes), dag.nodes)
  {
    ghost var g := clay.code.g;
    ParitiesErased(g);
    after := done;
    var i := 0;
    while i < |erased|
      invariant 0 <= i <= |erased| && clay.Keeps(dag, Stored(g, erased), after, sure)
      invariant Extends(old(dag.nodes), dag.nodes)
      invariant sure ==> MidCIs(g, erased, first, second, z, erased[..i], after)
      invariant i == 0 ==> dag.nodes == old(dag.nodes)
      invariant z == 0 && i > 0 ==> MissedBorn(g, old(dag.nodes), dag.nodes)
    {
      ghost var nodes := dag.nodes;
      var e := erased[i];
      assert e !in erased[..i] && erased[..i + 1] == erased[..i] + [e];
      ghost var before := after;
      if sure { assert e in erased && ReadyErased(g, erased, first, e, z); }
      after := CoupleNode(clay, dag, e, z, first, second, erased[..i], before, sure);
      BornStays(g, old(dag.nodes), nodes, dag.nodes);
      if sure { MidCStep(g, erased, first, second, z, erased[..i], e, before, after); }
      i := i + 1;
    }
    assert erased[..|erased|] == erased;
    if sure { SecondPassDone(g, erased, first, second, z, after); }
  }

  method CouplePass(clay: Clay, dag: ECDAG, erased: seq<int>, hm: int, order: seq<int>,
                    ghost done: set<Sym>, ghost sure: bool)
    returns (ghost after: set<Sym>)
    requires clay.Valid() && clay.Keeps(dag, Stored(clay.code.g, erased), done, sure)
    requires erased == Parities(clay.code.g) && |order| == SubChunks(clay.code.g)
    requires forall z :: 0 <= z < |order| ==> order[z] == Score(clay.code.g, erased, z)
    requires sure ==> DoneIs(clay.code.g, erased, Passed(clay.code.g, erased, hm, SubChunks(clay.code.g)),
                             Passed(clay.code.g, erased, hm, 0), done)
    requires sure ==> Whole(clay.code.g) || forall z :: 0 <= z < |order| ==> order[z] != hm
    modifies dag
    ensures clay.Keeps(dag, Stored(clay.code.g, erased), after, sure)
    ensures Extends(old(dag.nodes), dag.nodes)
    ensures sure ==> DoneIs(clay.code.g, erased, Passed(clay.code.g, erased, hm, SubChunks(clay.code.g)),
                            Passed(clay.code.g, erased, hm, SubChunks(clay.code.g)), after)
    ensures |order| > 0 && order[0] == hm ==> MissedBorn(clay.code.g, old(dag.nodes), dag.nodes)
  {
    ghost var g := clay.code.g;
    ghost var first := Passed(g, erased, hm, SubChunks(g));
    after := done;
    var z := 0;
    while z < |order|
      invariant 0 <= z <= |order| && clay.Keeps(dag, Stored(g, erased), after, sure)
      invariant Extends(old(dag.nodes), dag.nodes)
      invariant sure ==> DoneIs(g, erased, first, Passed(g, erased, hm, z), after)
      invariant z == 0 ==> dag.nodes == old(dag.nodes)
      invariant z > 0 && order[0] == hm ==> MissedBorn(g, old(dag.nodes), dag.nodes)
    {
      ghost var nodes := dag.nodes;
      NextPlane(g, erased, hm, z);
      if order[z] == hm {
        PlaneCanCouple(g, erased, z);
        after := CouplePlane(clay, dag, erased, z, first, Passed(g, erased, hm, z), after, sure);
        BornStays(g, old(dag.nodes), nodes, dag.nodes);
      }
      z := z + 1;
    }
  }

  // Both passes over the planes of one score. From the lowest score on, a
  // split group makes the result doubtful.
  method EncodeScore(clay: Clay, dag: ECDAG, erased: seq<int>, hm: int, order: seq<int>,
                     ghost done: set<Sym>, ghost sure: bool)
    returns (ghost after: set<Sym>, ghost still: bool)
    requires clay.Valid() && clay.Keeps(dag, Stored(clay.code.g, erased), done, sure)
    requires erased == Parities(clay.code.g) && Solvable(clay.code, erased) && |order| == SubChunks(clay.code.g) && |order| > 0
    requires forall z :: 0 <= z < |order| ==> order[z] == Score(clay.code.g, erased, z)
    requires sure == (Whole(clay.code.g) || hm <= order[0])
    requires sure ==>
               DoneIs(clay.code.g, erased, Passed(clay.code.g, erased, hm, 0), Passed(clay.code.g, erased, hm, 0), done)
    requires !sure ==> MissedIsLeaf(clay.code.g, dag.nodes)
    modifies dag
    ensures still == (Whole(clay.code.g) || hm < order[0])
    ensures clay.Keeps(dag, Stored(clay.code.g, erased), after, still)
    ensures still ==> DoneIs(clay.code.g, erased, Passed(clay.code.g, erased, hm + 1, 0),
                             Passed(clay.code.g, erased, hm + 1, 0), after)
    ensures !still ==> MissedIsLeaf(clay.code.g, dag.nodes)
  {
    ghost var g := clay.code.g;
    ParitiesErased(g);
    after := FirstPass(clay, dag, erased, hm, order, done, sure);
    still := sure;
    if !Whole(g) && hm == order[0] {
      MissedAbsent(clay, dag, after);
      still := false;
    }
    if hm < order[0] {
      forall z | 0 <= z < |order| ensures order[z] != hm { ScoreOfZero(g, z); }
    }
    after := CouplePass(clay, dag, erased, hm, order, after, still);
    NextScore(g, erased, hm);
  }

  // ------------------------------------------------------------------ encoding

  // Every leaf is a stored symbol of a data node.
  ghost predicate ReadsDataOnly(g: Geo, nodes: Graph)
    requires GeoOk(g)
  {
    forall v :: v in nodes && nodes[v].children == [] ==> v in Ixs(g, Stored(g, Parities(g)))
  }

  // The DAG for the parity nodes reads nothing but the data exactly when no
  // group holds both data and parity nodes; and then every symbol of a parity
  // node is joined, each once and by an identity of the code.
  method Encode(clay: Clay) returns (dag: ECDAG, ghost done: set<Sym>)
    requires clay.Valid()
    ensures fresh(dag) && dag.Valid()
    ensures ReadsDataOnly(clay.code.g, dag.nodes) <==> Whole(clay.code.g)
    ensures Whole(clay.code.g) ==>
              && Decoded(clay.code, Stored(clay.code.g, Parities(clay.code.g)), done, dag.nodes, dag.joins)
              && (forall s {:trigger s in done} :: s in done <==> Proper(clay.code.g, Parities(clay.code.g), s))
    ensures Whole(clay.code.g) ==> forall s {:trigger s in done} :: s in done ==>
              Ruled(clay.code.g, Stored(clay.code.g, Parities(clay.code.g)), dag.nodes, s)
  {
    ghost var g := clay.code.g;
    dag := new ECDAG();
    var erased := ParityNodes(clay);
    ParitiesErased(g);
    DataSolve(clay.code);
    var maxWeight := HammingWeight(clay.code.g, erased);
    var order := SetPlanesOrder(clay, erased);
    PlanesPos(g);
    done := {};
    var hm := 0;
    ghost var sure := true;
    NothingPassed(g, erased);
    clay.Start(dag, Stored(g, erased));
    while hm <= maxWeight
      invariant 0 <= hm <= maxWeight + 1 && fresh(dag) && clay.Keeps(dag, Stored(g, erased), done, sure)
      invariant sure == (Whole(g) || hm <= order[0])
      invariant sure ==> DoneIs(g, erased, Passed(g, erased, hm, 0), Passed(g, erased, hm, 0), done)
      invariant !sure ==> MissedIsLeaf(g, dag.nodes)
    {
      done, sure := EncodeScore(clay, dag, erased, hm, order, done, sure);
      hm := hm + 1;
    }
    clay.Open(dag, Stored(g, erased), done, sure);
    if sure {
      EverythingDone(g, erased, maxWeight, done);
      OpenRuled(g, Stored(g, erased), done, dag.nodes);
    }
    EncodeEnds(clay.code, done, dag.nodes, dag.joins);
  }

  lemma EncodeEnds(cd: Code, done: set<Sym>, nodes: Graph, joins: multiset<int>)
    requires GeoOk(cd.g) && (Whole(cd.g) ==> Decoded(cd, Stored(cd.g, Parities(cd.g)), done, nodes, joins))
    requires !Whole(cd.g) ==> MissedIsLeaf(cd.g, nodes)
    ensures ReadsDataOnly(cd.g, nodes) <==> Whole(cd.g)
  {
    if Whole(cd.g) { OnlyDataRead(cd, done, nodes, joins); } else { MissedNotStored(cd.g, nodes); }
  }

  lemma OnlyDataRead(cd: Code, done: set<Sym>, nodes: Graph, joins: multiset<int>)
    requires GeoOk(cd.g) && Decoded(cd, Stored(cd.g, Parities(cd.g)), done, nodes, joins)
    ensures ReadsDataOnly(cd.g, nodes)
  {
  }

  ghost predicate MissedIsLeaf(g: Geo, nodes: Graph)
    requires GeoOk(g)
  {
    SymOk(g, Missed(g)) && Ix(g, Missed(g)) in nodes && nodes[Ix(g, Missed(g))].children == []
  }

  lemma MissedNotStored(g: Geo, nodes: Graph)
    requires GeoOk(g) && !Whole(g) && MissedIsLeaf(g, nodes)
    ensures !ReadsDataOnly(g, nodes)
  {
    MissedFacts(g);
    IxIn(g, Stored(g, Parities(g)), Missed(g));
  }

  method ParityNodes(clay: Clay) returns (erased: seq<int>)
    requires clay.Valid()
    ensures erased == Parities(clay.code.g)
  {
    erased := [];
    var idx := Data(clay.code.g);
    while idx < Nodes(clay.code.g)
      invariant Data(clay.code.g) <= idx <= Nodes(clay.code.g) && |erased| == idx - Data(clay.code.g)
      invariant forall i :: 0 <= i < |erased| ==> erased[i] == Data(clay.code.g) + i
    {
      erased := erased + [idx];
      idx := idx + 1;
    }
  }
}
