// Clay::decode_layered, second pass and the whole: coupled symbols of the
// erased nodes, and the order of the planes.
module ClayDecode {
  import opened Util
  import opened GF
  import opened Dag
  import opened EcDag
  import opened Decoding
  import opened Matrix
  import P = Planes
  import W = PlaneCount
  import opened ClayIndex
  import opened ClayCode
  import opened ClayJoin
  import opened ClayLayered

  // ------------------------------------------------------------ the second pass

  function MakesC(g: Geo, erased: seq<int>, e: int, z: int): set<Sym>
    requires GeoOk(g) && NodeOk(g, e)
  {
    if e !in erased || Unpaired(g, e, z) then {}
    else if MateNode(g, e, z) !in erased then {C(e, z)}
    else if Upper(g, e, z) then {C(e, z), C(MateNode(g, e, z), MatePlane(g, e, z))}
    else {}
  }

  predicate MadeAtC(g: Geo, erased: seq<int>, s: Sym, e: int, z: int)
    requires GeoOk(g)
  {
    s.C? && Proper(g, erased, s) && !Unpaired(g, s.node, s.z) && MakerC(g, erased, s.node, s.z) == (e, z)
  }

  lemma MakesCIs(g: Geo, erased: seq<int>, e: int, z: int, s: Sym)
    requires GeoOk(g) && NodeOk(g, e) && PlaneOk(g, z)
    ensures s in MakesC(g, erased, e, z) <==> MadeAtC(g, erased, s, e, z)
  {
    if s in MakesC(g, erased, e, z) { MakesCSound(g, erased, e, z, s); }
    if MadeAtC(g, erased, s, e, z) { MakesCComplete(g, erased, e, z, s); }
  }

  lemma MakesCSound(g: Geo, erased: seq<int>, e: int, z: int, s: Sym)
    requires GeoOk(g) && NodeOk(g, e) && PlaneOk(g, z) && s in MakesC(g, erased, e, z)
    ensures MadeAtC(g, erased, s, e, z)
  {
    Mates(g, e, z);
  }

  lemma MakesCComplete(g: Geo, erased: seq<int>, e: int, z: int, s: Sym)
    requires GeoOk(g) && NodeOk(g, e) && PlaneOk(g, z) && MadeAtC(g, erased, s, e, z)
    ensures s in MakesC(g, erased, e, z)
  {
    Mates(g, s.node, s.z);
  }

  ghost predicate MidC(g: Geo, erased: seq<int>, first: set<int>, second: set<int>, z: int, seen: seq<int>, s: Sym)
    requires GeoOk(g)
  {
    || Made(g, erased, first, second, s)
    || (s.C? && Proper(g, erased, s) && !Unpaired(g, s.node, s.z)
        && MakerC(g, erased, s.node, s.z).1 == z && MakerC(g, erased, s.node, s.z).0 in seen)
  }

  ghost predicate MidCIs(g: Geo, erased: seq<int>, first: set<int>, second: set<int>, z: int, seen: seq<int>, done: set<Sym>)
    requires GeoOk(g)
  {
    forall s {:trigger s in done} :: s in done <==> MidC(g, erased, first, second, z, seen, s)
  }

  // The uncoupled symbols that plane z and its partner planes provide.
  predicate ReadyErased(g: Geo, erased: seq<int>, first: set<int>, e: int, z: int)
    requires GeoOk(g) && NodeOk(g, e)
  {
    z in first && (e in erased && !Unpaired(g, e, z) && MateNode(g, e, z) in erased ==> MatePlane(g, e, z) in first)
  }

  lemma ErasedUReady(g: Geo, erased: seq<int>, first: set<int>, second: set<int>, z: int, seen: seq<int>,
                     done: set<Sym>, e: int, u: int)
    requires GeoOk(g) && SymOk(g, U(e, u)) && e in erased && u in first && !Unpaired(g, e, u)
    requires MidCIs(g, erased, first, second, z, seen, done)
    ensures Ready(g, Stored(g, erased), done, U(e, u))
  {
    assert MidC(g, erased, first, second, z, seen, U(e, u));
  }

  lemma FreshC(g: Geo, erased: seq<int>, first: set<int>, second: set<int>, z: int, seen: seq<int>,
               done: set<Sym>, e: int, s: Sym)
    requires GeoOk(g) && z !in second && e !in seen && MidCIs(g, erased, first, second, z, seen, done)
    requires MadeAtC(g, erased, s, e, z)
    ensures Fresh(g, Stored(g, erased), done, s)
  {
    assert !MidC(g, erased, first, second, z, seen, s);
  }

  lemma MidCStep(g: Geo, erased: seq<int>, first: set<int>, second: set<int>, z: int, seen: seq<int>, e: int,
                 done: set<Sym>, after: set<Sym>)
    requires GeoOk(g) && PlaneOk(g, z) && NodeOk(g, e)
    requires MidCIs(g, erased, first, second, z, seen, done) && after == done + MakesC(g, erased, e, z)
    ensures MidCIs(g, erased, first, second, z, seen + [e], after)
  {
    forall s ensures s in after <==> MidC(g, erased, first, second, z, seen + [e], s) {
      MakesCIs(g, erased, e, z, s);
      assert s in after <==> s in done || s in MakesC(g, erased, e, z);
    }
  }

  lemma SecondPassDone(g: Geo, erased: seq<int>, first: set<int>, second: set<int>, z: int, done: set<Sym>)
    requires GeoOk(g) && PlaneOk(g, z) && Erasure(g, erased)
    requires MidCIs(g, erased, first, second, z, erased, done)
    ensures DoneIs(g, erased, first, second + {z}, done)
  {
    forall s ensures s in done <==> Made(g, erased, first, second + {z}, s) {
      if s.C? && Proper(g, erased, s) && !Unpaired(g, s.node, s.z) { Mates(g, s.node, s.z); }
    }
  }

  // One erased node of one plane.
  method StepErased(clay: Clay, dag: ECDAG, erased: seq<int>, e: int, z: int, ghost first: set<int>, ghost second: set<int>,
                    ghost seen: seq<int>, ghost done: set<Sym>)
    returns (ghost after: set<Sym>)
    requires clay.Valid() && clay.Holds(dag, Stored(clay.code.g, erased), done)
    requires Erasure(clay.code.g, erased) && PlaneOk(clay.code.g, z) && e in erased && NodeOk(clay.code.g, e)
    requires z !in second && e !in seen && ReadyErased(clay.code.g, erased, first, e, z)
    requires MidCIs(clay.code.g, erased, first, second, z, seen, done)
    modifies dag
    ensures clay.Holds(dag, Stored(clay.code.g, erased), after)
    ensures after == done + MakesC(clay.code.g, erased, e, z)
  {
    ghost var g, known := clay.code.g, Stored(clay.code.g, erased);
    var x, y := e % clay.code.g.q, e / clay.code.g.q;
    PlaceOk(g, e);
    var i, j, u := clay.Companion(x, y, z);
    var vec := P.GetPlaneVector(clay.code.g.q, clay.code.g.t, z);
    assert DigitAt(g, e, z) == vec[y];
    after := done;
    if vec[y] != x {
      Mates(g, e, z);
      MakesCIs(g, erased, e, z, C(e, z));
      ErasedUReady(g, erased, first, second, z, seen, done, e, z);
      if j !in erased {
        FreshC(g, erased, first, second, z, seen, done, e, C(e, z));
        KnownReady(g, erased, done, j, u);
        RuleOfOne(g, known, j, u);
        if x > vec[y] {
          clay.SolvePair(dag, e, z, j, u, 1, 2, 0, known, done, true);
        } else {
          clay.SolvePair(dag, j, u, e, z, 0, 3, 1, known, done, true);
        }
        after := done + {C(e, z)};
      } else if vec[y] < x {
        after := DecodeBoth(clay, dag, erased, e, z, j, u, first, second, seen, done, true);
      }
    }
  }

  // get_coupled_from_uncoupled: both coupled symbols of an erased pair.
  method DecodeBoth(clay: Clay, dag: ECDAG, ghost erased: seq<int>, e: int, z: int, j: int, u: int, ghost first: set<int>,
                    ghost second: set<int>, ghost seen: seq<int>, ghost done: set<Sym>,
                    ghost sure: bool)
    returns (ghost after: set<Sym>)
    requires clay.Valid() && clay.Keeps(dag, Stored(clay.code.g, erased), done, sure)
    requires SymOk(clay.code.g, C(e, z)) && !Unpaired(clay.code.g, e, z) && Upper(clay.code.g, e, z)
    requires j == MateNode(clay.code.g, e, z) && u == MatePlane(clay.code.g, e, z) && MateOk(clay.code.g, e, z)
    requires sure ==> e in erased && j in erased && e !in seen && z !in second && z in first && u in first
    requires sure ==> MidCIs(clay.code.g, erased, first, second, z, seen, done)
    modifies dag
    ensures clay.Keeps(dag, Stored(clay.code.g, erased), after, sure) && Extends(old(dag.nodes), dag.nodes)
    ensures after == done + {C(e, z), C(j, u)}
    ensures BornLeaf(old(dag.nodes), dag.nodes, Ix(clay.code.g, U(j, u)))
  {
    ghost var g, known := clay.code.g, Stored(clay.code.g, erased);
    if sure {
      MakesCIs(g, erased, e, z, C(e, z));
      MakesCIs(g, erased, e, z, C(j, u));
      FreshC(g, erased, first, second, z, seen, done, e, C(e, z));
      FreshC(g, erased, first, second, z, seen, done, e, C(j, u));
      ErasedUReady(g, erased, first, second, z, seen, done, e, z);
      ErasedUReady(g, erased, first, second, z, seen, done, j, u);
      RuleOfUncoupled(g, known, e, z);
    }
    clay.DecodePair(dag, e, z, j, u, 0, known, done, sure);
    clay.DecodePair(dag, e, z, j, u, 1, known, done + {C(e, z)}, sure);
    after := done + {C(e, z)} + {C(j, u)};
  }

  method RecoverPlane(clay: Clay, dag: ECDAG, erased: seq<int>, z: int, ghost first: set<int>, ghost second: set<int>,
                      ghost done: set<Sym>)
    returns (ghost after: set<Sym>)
    requires clay.Valid() && clay.Holds(dag, Stored(clay.code.g, erased), done)
    requires Erasure(clay.code.g, erased) && PlaneOk(clay.code.g, z) && z !in second
    requires forall e {:trigger ReadyErased(clay.code.g, erased, first, e, z)} ::
               e in erased && NodeOk(clay.code.g, e) ==> ReadyErased(clay.code.g, erased, first, e, z)
    requires DoneIs(clay.code.g, erased, first, second, done)
    modifies dag
    ensures clay.Holds(dag, Stored(clay.code.g, erased), after)
    ensures DoneIs(clay.code.g, erased, first, second + {z}, after)
  {
    after := done;
    var i := 0;
    while i < |erased|
      invariant 0 <= i <= |erased| && clay.Holds(dag, Stored(clay.code.g, erased), after)
      invariant MidCIs(clay.code.g, erased, first, second, z, erased[..i], after)
    {
      var e := erased[i];
      assert e in erased && e !in erased[..i] && erased[..i + 1] == erased[..i] + [e];
      assert ReadyErased(clay.code.g, erased, first, e, z);
      ghost var before := after;
      after := StepErased(clay, dag, erased, e, z, first, second, erased[..i], before);
      MidCStep(clay.code.g, erased, first, second, z, erased[..i], e, before, after);
      i := i + 1;
    }
    assert erased[..|erased|] == erased;
    SecondPassDone(clay.code.g, erased, first, second, z, after);
  }

  // ----------------------------------------------------------- the score of z

  // The erased nodes that are unpaired in plane z.
  function Hits(g: Geo, erased: seq<int>, z: int): (r: set<int>)
    requires GeoOk(g)
    ensures forall e :: e in r <==> e in erased && NodeOk(g, e) && Unpaired(g, e, z)
  {
    set e | e in erased && NodeOk(g, e) && Unpaired(g, e, z)
  }

  function Score(g: Geo, erased: seq<int>, z: int): nat
    requires GeoOk(g)
  {
    |Hits(g, erased, z)|
  }

  // Going to the partner plane replaces the partner node by the node itself
  // among the unpaired ones.
  lemma MateHits(g: Geo, erased: seq<int>, i: int, z: int)
    requires GeoOk(g) && NodeOk(g, i) && PlaneOk(g, z) && !Unpaired(g, i, z)
    ensures var j, u := MateNode(g, i, z), MatePlane(g, i, z);
      Hits(g, erased, u) - {i} == Hits(g, erased, z) - {j}
    ensures i !in Hits(g, erased, z) && MateNode(g, i, z) !in Hits(g, erased, MatePlane(g, i, z))
    ensures i in erased <==> i in Hits(g, erased, MatePlane(g, i, z))
    ensures MateNode(g, i, z) in erased <==> MateNode(g, i, z) in Hits(g, erased, z)
  {
    Mates(g, i, z);
    var j, u := MateNode(g, i, z), MatePlane(g, i, z);
    forall e ensures e in Hits(g, erased, u) - {i} <==> e in Hits(g, erased, z) - {j} {
      if e in erased && NodeOk(g, e) {
        PlaceOk(g, e);
        if e / g.q == i / g.q { OnlyNode(g, i / g.q, e % g.q); }
      }
    }
  }

  lemma MateScore(g: Geo, erased: seq<int>, i: int, z: int)
    requires GeoOk(g) && NodeOk(g, i) && PlaneOk(g, z) && !Unpaired(g, i, z)
    ensures Score(g, erased, MatePlane(g, i, z)) + (if MateNode(g, i, z) in erased then 1 else 0)
         == Score(g, erased, z) + if i in erased then 1 else 0
  {
    MateHits(g, erased, i, z);
    var j, u := MateNode(g, i, z), MatePlane(g, i, z);
    Without(Hits(g, erased, u), i);
    Without(Hits(g, erased, z), j);
  }

  lemma Without(a: set<int>, x: int)
    ensures |a - {x}| == |a| - if x in a then 1 else 0
  {
    if x !in a { assert a - {x} == a; }
  }

  // The planes before (hm, z) in the order of decoding.
  ghost function Passed(g: Geo, erased: seq<int>, hm: int, z: int): (r: set<int>)
    requires GeoOk(g)
    ensures forall a :: a in r <==>
              PlaneOk(g, a) && (Score(g, erased, a) < hm || (Score(g, erased, a) == hm && a < z))
  {
    set a | 0 <= a < SubChunks(g) && (Score(g, erased, a) < hm || (Score(g, erased, a) == hm && a < z))
  }

  // Visiting planes by score and then by index, everything a plane needs in
  // the first pass was provided by a plane before it: the partner plane of a
  // surviving node has a score one lower when the partner is erased, and the
  // same score and a smaller index when it is the survivor that comes first.
  lemma FirstPassReady(g: Geo, erased: seq<int>, z: int)
    requires GeoOk(g) && PlaneOk(g, z)
    ensures z !in Passed(g, erased, Score(g, erased, z), z)
    ensures ReadyPlane(g, erased, Passed(g, erased, Score(g, erased, z), z), z)
  {
    var first := Passed(g, erased, Score(g, erased, z), z);
    forall i | NodeOk(g, i) ensures ReadyNode(g, erased, first, i, z) {
      if !Unpaired(g, i, z) {
        Mates(g, i, z);
        MateScore(g, erased, i, z);
      }
    }
  }

  // In the second pass, the planes of a pair of erased nodes have one score.
  lemma SecondPassReady(g: Geo, erased: seq<int>, z: int, e: int)
    requires GeoOk(g) && PlaneOk(g, z) && NodeOk(g, e)
    ensures ReadyErased(g, erased, Passed(g, erased, Score(g, erased, z), SubChunks(g)), e, z)
  {
    if e in erased && !Unpaired(g, e, z) {
      Mates(g, e, z);
      MateScore(g, erased, e, z);
    }
  }

  // ----------------------------------------------------- the order as computed

  method SetPlanesOrder(clay: Clay, erased: seq<int>) returns (order: seq<int>)
    requires clay.Valid() && Erasure(clay.code.g, erased)
    ensures |order| == SubChunks(clay.code.g)
    ensures forall z :: 0 <= z < |order| ==> order[z] == Score(clay.code.g, erased, z)
  {
    order := [];
    PlanesPos(clay.code.g);
    var z := 0;
    while z < clay.maps.w
      invariant 0 <= z <= SubChunks(clay.code.g) && |order| == z
      invariant forall a :: 0 <= a < z ==> order[a] == Score(clay.code.g, erased, a)
    {
      var count := ScoreOf(clay.code.g, erased, z);
      order := order + [count];
      z := z + 1;
    }
  }

  method ScoreOf(g: Geo, erased: seq<int>, z: int) returns (count: int)
    requires GeoOk(g) && Erasure(g, erased) && PlaneOk(g, z)
    ensures count == Score(g, erased, z)
  {
    var vec := P.GetPlaneVector(g.q, g.t, z);
    count := 0;
    var i := 0;
    NoHits(g, z);
    while i < |erased|
      invariant 0 <= i <= |erased| && count == Score(g, erased[..i], z)
    {
      assert erased[i] in erased;
      PlaceOk(g, erased[i]);
      HitStep(g, erased, i, z);
      if erased[i] % g.q == vec[erased[i] / g.q] { count := count + 1; }
      i := i + 1;
    }
    assert erased[..|erased|] == erased;
  }

  lemma NoHits(g: Geo, z: int)
    requires GeoOk(g)
    ensures Score(g, [], z) == 0
  {
    assert Hits(g, [], z) == {};
  }

  lemma HitStep(g: Geo, erased: seq<int>, i: nat, z: int)
    requires GeoOk(g) && NoDup(erased) && i < |erased| && NodeOk(g, erased[i])
    ensures Score(g, erased[..i + 1], z) == Score(g, erased[..i], z) + if Unpaired(g, erased[i], z) then 1 else 0
  {
    var e := erased[i];
    assert erased[..i + 1] == erased[..i] + [e] && e !in erased[..i];
    assert Hits(g, erased[..i + 1], z) ==
      if Unpaired(g, e, z) then Hits(g, erased[..i], z) + {e} else Hits(g, erased[..i], z);
  }

  // get_weight_vector and get_hamming_weight: the groups that lost a node.
  method HammingWeight(g: Geo, erased: seq<int>) returns (weight: int)
    requires GeoOk(g) && Erasure(g, erased)
    ensures weight == |RowsBelow(g, erased, g.t)|
    ensures forall z :: PlaneOk(g, z) ==> Score(g, erased, z) <= weight
  {
    forall i | 0 <= i < |erased| ensures 0 <= erased[i] / g.q < g.t {
      assert erased[i] in erased;
      PlaceOk(g, erased[i]);
    }
    var vec := W.Weights(g.q, g.t, erased);
    weight := 0;
    var y := 0;
    NoRows(g, erased);
    while y < g.t
      invariant 0 <= y <= g.t && weight == |RowsBelow(g, erased, y)|
    {
      RowStep(g, erased, y);
      WeightPositive(g.q, erased, y);
      if vec[y] != 0 { weight := weight + 1; }
      y := y + 1;
    }
    forall z | PlaneOk(g, z) ensures Score(g, erased, z) <= weight { ScoreBelowRows(g, erased, z); }
  }

  function RowsBelow(g: Geo, erased: seq<int>, y: int): set<int>
    requires GeoOk(g)
  {
    set e | e in erased && e / g.q < y :: e / g.q
  }

  lemma NoRows(g: Geo, erased: seq<int>)
    requires GeoOk(g) && Erasure(g, erased)
    ensures RowsBelow(g, erased, 0) == {}
  {
    forall e | e in erased ensures e / g.q >= 0 { PlaceOk(g, e); }
  }

  lemma RowStep(g: Geo, erased: seq<int>, y: int)
    requires GeoOk(g)
    ensures |RowsBelow(g, erased, y + 1)| ==
      |RowsBelow(g, erased, y)| + if exists e :: e in erased && e / g.q == y then 1 else 0
  {
    var a, b := RowsBelow(g, erased, y), RowsBelow(g, erased, y + 1);
    if e :| e in erased && e / g.q == y {
      assert b == a + {y};
      assert y !in a;
    } else {
      assert b == a;
    }
  }

  lemma {:induction false} WeightPositive(q: int, nodes: seq<int>, y: int)
    requires q >= 1
    ensures W.Weight(q, nodes, y) > 0 <==> exists e :: e in nodes && e / q == y
  {
    if nodes != [] {
      var n := |nodes| - 1;
      WeightPositive(q, nodes[..n], y);
      assert nodes == nodes[..n] + [nodes[n]];
      if e :| e in nodes && e / q == y { assert e in nodes[..n] || e == nodes[n]; }
      if e :| e in nodes[..n] && e / q == y { assert e in nodes; }
      assert nodes[n] in nodes;
    }
  }

  // Two unpaired nodes never stand in one group.
  lemma ScoreBelowRows(g: Geo, erased: seq<int>, z: int)
    requires GeoOk(g) && Erasure(g, erased) && PlaneOk(g, z)
    ensures Score(g, erased, z) <= |RowsBelow(g, erased, g.t)|
  {
    var hits := Hits(g, erased, z);
    RowsOfHits(g, erased, z, hits);
    forall y | y in Rows(g, hits) ensures y in RowsBelow(g, erased, g.t) {
      var e :| e in hits && e / g.q == y;
      PlaceOk(g, e);
    }
    Smaller(Rows(g, hits), RowsBelow(g, erased, g.t));
  }

  function Rows(g: Geo, a: set<int>): set<int>
    requires GeoOk(g)
  {
    set e | e in a :: e / g.q
  }

  lemma {:induction false} RowsOfHits(g: Geo, erased: seq<int>, z: int, a: set<int>)
    requires GeoOk(g) && a <= Hits(g, erased, z)
    ensures |Rows(g, a)| == |a|
    decreases |a|
  {
    if a == {} {
      assert Rows(g, a) == {};
    } else {
      NonEmpty(a);
      var e :| e in a;
      RowsOfHits(g, erased, z, a - {e});
      forall b | b in a - {e} ensures b / g.q != e / g.q { HitsApart(g, erased, z, b, e); }
      OneRowMore(g, a - {e}, e);
      assert a - {e} + {e} == a;
    }
  }

  lemma OneRowMore(g: Geo, a: set<int>, e: int)
    requires GeoOk(g) && forall b :: b in a ==> b / g.q != e / g.q
    ensures |Rows(g, a + {e})| == |Rows(g, a)| + 1
  {
    assert Rows(g, a + {e}) == Rows(g, a) + {e / g.q};
    assert e / g.q !in Rows(g, a);
  }

  lemma HitsApart(g: Geo, erased: seq<int>, z: int, a: int, b: int)
    requires GeoOk(g) && a in Hits(g, erased, z) && b in Hits(g, erased, z) && a != b
    ensures a / g.q != b / g.q
  {
    PlaceOk(g, a);
    PlaceOk(g, b);
  }

  // --------------------------------------------------------------- the whole

  // Every symbol a decoder has to join, and nothing else, is joined - each by
  // a single Join that is an identity in every word - and every leaf is a
  // stored symbol of a surviving node.
  method DecodeLayered(clay: Clay, dag: ECDAG, erased: seq<int>) returns (ghost done: set<Sym>)
    requires clay.Valid() && dag.Valid() && dag.nodes == map[] && dag.joins == multiset{}
    requires Erasure(clay.code.g, erased) && Solvable(clay.code, erased)
    modifies dag
    ensures dag.Valid() && Decoded(clay.code, Stored(clay.code.g, erased), done, dag.nodes, dag.joins)
    ensures forall s {:trigger s in done} :: s in done <==> Proper(clay.code.g, erased, s)
    ensures forall s {:trigger s in done} :: s in done ==> Ruled(clay.code.g, Stored(clay.code.g, erased), dag.nodes, s)
  {
    ghost var g := clay.code.g;
    var maxWeight := HammingWeight(clay.code.g, erased);
    var order := SetPlanesOrder(clay, erased);
    done := {};
    var hm := 0;
    NothingPassed(g, erased);
    clay.Start(dag, Stored(g, erased));
    while hm <= maxWeight
      invariant 0 <= hm <= maxWeight + 1 && clay.Holds(dag, Stored(g, erased), done)
      invariant DoneIs(g, erased, Passed(g, erased, hm, 0), Passed(g, erased, hm, 0), done)
    {
      done := FirstPass(clay, dag, erased, hm, order, done, true);
      done := SecondPass(clay, dag, erased, hm, order, done);
      NextScore(g, erased, hm);
      hm := hm + 1;
    }
    EverythingDone(g, erased, maxWeight, done);
    clay.Open(dag, Stored(g, erased), done, true);
    OpenRuled(g, Stored(g, erased), done, dag.nodes);
  }

  lemma NothingPassed(g: Geo, erased: seq<int>)
    requires GeoOk(g)
    ensures Passed(g, erased, 0, 0) == {} && DoneIs(g, erased, {}, {}, {})
  {
  }

  lemma NextScore(g: Geo, erased: seq<int>, hm: int)
    requires GeoOk(g)
    ensures Passed(g, erased, hm, SubChunks(g)) == Passed(g, erased, hm + 1, 0)
  {
  }

  lemma NextPlane(g: Geo, erased: seq<int>, hm: int, z: int)
    requires GeoOk(g) && PlaneOk(g, z)
    ensures Passed(g, erased, hm, z + 1) ==
      if Score(g, erased, z) == hm then Passed(g, erased, hm, z) + {z} else Passed(g, erased, hm, z)
  {
  }

  lemma EverythingDone(g: Geo, erased: seq<int>, max: int, done: set<Sym>)
    requires GeoOk(g) && (forall z :: PlaneOk(g, z) ==> Score(g, erased, z) <= max)
    requires DoneIs(g, erased, Passed(g, erased, max + 1, 0), Passed(g, erased, max + 1, 0), done)
    ensures forall s {:trigger s in done} :: s in done <==> Proper(g, erased, s)
  {
    forall s ensures s in done <==> Proper(g, erased, s) {
      if Proper(g, erased, s) && !Unpaired(g, s.node, s.z) { Mates(g, s.node, s.z); }
    }
  }

  method FirstPass(clay: Clay, dag: ECDAG, erased: seq<int>, hm: int, order: seq<int>,
                   ghost done: set<Sym>, ghost sure: bool)
    returns (ghost after: set<Sym>)
    requires clay.Valid() && clay.Keeps(dag, Stored(clay.code.g, erased), done, sure)
    requires Erasure(clay.code.g, erased) && Solvable(clay.code, erased) && |order| == SubChunks(clay.code.g)
    requires forall z :: 0 <= z < |order| ==> order[z] == Score(clay.code.g, erased, z)
    requires sure ==>
               DoneIs(clay.code.g, erased, Passed(clay.code.g, erased, hm, 0), Passed(clay.code.g, erased, hm, 0), done)
    modifies dag
    ensures clay.Keeps(dag, Stored(clay.code.g, erased), after, sure) && Extends(old(dag.nodes), dag.nodes)
    ensures sure ==> DoneIs(clay.code.g, erased, Passed(clay.code.g, erased, hm, SubChunks(clay.code.g)),
                            Passed(clay.code.g, erased, hm, 0), after)
  {
    ghost var g := clay.code.g;
    ghost var second := Passed(g, erased, hm, 0);
    after := done;
    var z := 0;
    while z < |order|
      invariant 0 <= z <= |order| && clay.Keeps(dag, Stored(g, erased), after, sure)
      invariant Extends(old(dag.nodes), dag.nodes)
      invariant sure ==> DoneIs(g, erased, Passed(g, erased, hm, z), second, after)
    {
      NextPlane(g, erased, hm, z);
      if order[z] == hm {
        FirstPassReady(g, erased, z);
        after := DecodeErasures(clay, dag, erased, z, Passed(g, erased, hm, z), second, after, sure);
      }
      z := z + 1;
    }
  }

  method SecondPass(clay: Clay, dag: ECDAG, erased: seq<int>, hm: int, order: seq<int>,
                    ghost done: set<Sym>)
    returns (ghost after: set<Sym>)
    requires clay.Valid() && clay.Holds(dag, Stored(clay.code.g, erased), done)
    requires Erasure(clay.code.g, erased) && |order| == SubChunks(clay.code.g)
    requires forall z :: 0 <= z < |order| ==> order[z] == Score(clay.code.g, erased, z)
    requires DoneIs(clay.code.g, erased, Passed(clay.code.g, erased, hm, SubChunks(clay.code.g)),
                    Passed(clay.code.g, erased, hm, 0), done)
    modifies dag
    ensures clay.Holds(dag, Stored(clay.code.g, erased), after)
    ensures DoneIs(clay.code.g, erased, Passed(clay.code.g, erased, hm, SubChunks(clay.code.g)),
                   Passed(clay.code.g, erased, hm, SubChunks(clay.code.g)), after)
  {
    ghost var g := clay.code.g;
    ghost var first := Passed(g, erased, hm, SubChunks(g));
    after := done;
    var z := 0;
    while z < |order|
      invariant 0 <= z <= |order| && clay.Holds(dag, Stored(g, erased), after)
      invariant DoneIs(g, erased, first, Passed(g, erased, hm, z), after)
    {
      NextPlane(g, erased, hm, z);
      if order[z] == hm {
        forall e | e in erased && NodeOk(g, e) ensures ReadyErased(g, erased, first, e, z) {
          SecondPassReady(g, erased, z, e);
        }
        after := RecoverPlane(clay, dag, erased, z, first, Passed(g, erased, hm, z), after);
      }
      z := z + 1;
    }
  }

  // Evaluating the DAG from what the survivors store gives every coupled
  // symbol of every erased node.
  lemma ErasedRecovered(cd: Code, val: int -> Byte, erased: seq<int>, done: set<Sym>, nodes: Graph, joins: multiset<int>,
                        rank: map<int, nat>, leaf: int -> Byte, e: int, z: int)
    requires GeoOk(cd.g) && Word(cd, val) && Decoded(cd, Stored(cd.g, erased), done, nodes, joins) && Ranked(nodes, rank)
    requires forall s {:trigger s in done} :: s in done <==> Proper(cd.g, erased, s)
    requires forall s :: s in Stored(cd.g, erased) ==> leaf(Ix(cd.g, s)) == val(Ix(cd.g, s))
    requires SymOk(cd.g, C(e, z)) && e in erased
    ensures Ix(cd.g, C(e, z)) in nodes && nodes[Ix(cd.g, C(e, z))].children != []
    ensures Value(cd.f, nodes, rank, leaf, Ix(cd.g, C(e, z))) == val(Ix(cd.g, C(e, z)))
  {
    assert C(e, z) in done;
    SymbolIsRight(cd, val, Stored(cd.g, erased), done, nodes, joins, rank, leaf, C(e, z));
  }
}
