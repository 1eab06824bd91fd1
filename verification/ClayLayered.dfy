// Clay::decode_layered: planes in the order of their intersection score, and
// why every symbol is there when it is needed.
module ClayLayered {
  import opened Util
  import opened GF
  import opened Dag
  import opened EcDag
  import opened Decoding
  import opened Matrix
  import P = Planes
  import opened ClayIndex
  import opened ClayCode
  import opened ClayJoin

  // What may be read: the coupled symbols of the surviving nodes.
  ghost function Stored(g: Geo, erased: seq<int>): (r: set<Sym>)
    ensures forall s :: s in r <==> SymOk(g, s) && s.C? && s.node !in erased
  {
    set i, z | 0 <= i < Nodes(g) && 0 <= z < SubChunks(g) && i !in erased && SymOk(g, C(i, z)) :: C(i, z)
  }

  // The symbols a decoder joins: all uncoupled ones that are symbols of their
  // own, and the coupled ones of the erased nodes.
  predicate Proper(g: Geo, erased: seq<int>, s: Sym)
    requires GeoOk(g)
  {
    SymOk(g, s) && Canon(g, s) == s && (s.C? ==> s.node in erased)
  }

  // The node and plane at which an uncoupled symbol of a surviving node is
  // joined: its own, or its partner's when the partner comes first.
  function MakerU(g: Geo, erased: seq<int>, i: int, z: int): (int, int)
    requires GeoOk(g) && NodeOk(g, i)
  {
    if !Upper(g, i, z) && MateNode(g, i, z) !in erased then (MateNode(g, i, z), MatePlane(g, i, z)) else (i, z)
  }

  // ... and a paired coupled symbol of an erased node.
  function MakerC(g: Geo, erased: seq<int>, i: int, z: int): (int, int)
    requires GeoOk(g) && NodeOk(g, i)
  {
    if !Upper(g, i, z) && MateNode(g, i, z) in erased then (MateNode(g, i, z), MatePlane(g, i, z)) else (i, z)
  }

  // What has been joined when the planes of first went through the first pass
  // and those of second through the second.
  predicate Made(g: Geo, erased: seq<int>, first: set<int>, second: set<int>, s: Sym)
    requires GeoOk(g)
  {
    Proper(g, erased, s) &&
    if s.U? then (if s.node in erased then s.z in first else MakerU(g, erased, s.node, s.z).1 in first)
    else if Unpaired(g, s.node, s.z) then s.z in first
    else MakerC(g, erased, s.node, s.z).1 in second
  }

  ghost predicate DoneIs(g: Geo, erased: seq<int>, first: set<int>, second: set<int>, done: set<Sym>)
    requires GeoOk(g)
  {
    forall s {:trigger s in done} :: s in done <==> Made(g, erased, first, second, s)
  }

  // ------------------------------------------------------------- the first pass

  // The symbols joined for one node of plane z in the first pass.
  function MakesU(g: Geo, erased: seq<int>, i: int, z: int): set<Sym>
    requires GeoOk(g) && NodeOk(g, i)
  {
    if i in erased || Unpaired(g, i, z) then {}
    else if MateNode(g, i, z) in erased then {U(i, z)}
    else if Upper(g, i, z) then {U(i, z), U(MateNode(g, i, z), MatePlane(g, i, z))}
    else {}
  }

  predicate MadeAtU(g: Geo, erased: seq<int>, s: Sym, i: int, z: int)
    requires GeoOk(g)
  {
    s.U? && Proper(g, erased, s) && s.node !in erased && MakerU(g, erased, s.node, s.z) == (i, z)
  }

  lemma MakesUIs(g: Geo, erased: seq<int>, i: int, z: int, s: Sym)
    requires GeoOk(g) && NodeOk(g, i) && PlaneOk(g, z)
    ensures s in MakesU(g, erased, i, z) <==> MadeAtU(g, erased, s, i, z)
  {
    if !Unpaired(g, i, z) { Mates(g, i, z); }
    if s.U? && Proper(g, erased, s) { Mates(g, s.node, s.z); }
  }

  // Node i comes before (x, y) in the loops over x, then y.
  predicate Before(g: Geo, i: int, x: int, y: int)
    requires g.q >= 1
  {
    i % g.q < x || (i % g.q == x && i / g.q < y)
  }

  ghost predicate MidU(g: Geo, erased: seq<int>, first: set<int>, second: set<int>, z: int, x: int, y: int, s: Sym)
    requires GeoOk(g)
  {
    || Made(g, erased, first, second, s)
    || (s.U? && Proper(g, erased, s) && s.node !in erased
        && MakerU(g, erased, s.node, s.z).1 == z && Before(g, MakerU(g, erased, s.node, s.z).0, x, y))
  }

  ghost predicate MidUIs(g: Geo, erased: seq<int>, first: set<int>, second: set<int>, z: int, x: int, y: int, done: set<Sym>)
    requires GeoOk(g)
  {
    forall s {:trigger s in done} :: s in done <==> MidU(g, erased, first, second, z, x, y, s)
  }

  // The companions plane z relies on have been dealt with.
  predicate ReadyNode(g: Geo, erased: seq<int>, first: set<int>, i: int, z: int)
    requires GeoOk(g) && NodeOk(g, i)
  {
    i !in erased && !Unpaired(g, i, z) && (MateNode(g, i, z) in erased || !Upper(g, i, z)) ==>
      MatePlane(g, i, z) in first
  }

  ghost predicate ReadyPlane(g: Geo, erased: seq<int>, first: set<int>, z: int)
    requires GeoOk(g)
  {
    forall i {:trigger ReadyNode(g, erased, first, i, z)} :: NodeOk(g, i) ==> ReadyNode(g, erased, first, i, z)
  }

  lemma MidStep(g: Geo, erased: seq<int>, first: set<int>, second: set<int>, z: int, x: int, y: int,
                done: set<Sym>, after: set<Sym>)
    requires GeoOk(g) && PlaneOk(g, z) && 0 <= x < g.q && 0 <= y < g.t && NodeOk(g, y * g.q + x)
    requires MidUIs(g, erased, first, second, z, x, y, done)
    requires after == done + MakesU(g, erased, y * g.q + x, z)
    ensures MidUIs(g, erased, first, second, z, x, y + 1, after)
  {
    var i := y * g.q + x;
    NodeAt(g, y, x);
    OnlyNode(g, y, x);
    forall s ensures s in after <==> MidU(g, erased, first, second, z, x, y + 1, s) {
      MakesUIs(g, erased, i, z, s);
      assert s in after <==> s in done || s in MakesU(g, erased, i, z);
      if s.U? && Proper(g, erased, s) && s.node !in erased {
        Mates(g, s.node, s.z);
        var m := MakerU(g, erased, s.node, s.z).0;
        assert NodeOk(g, m);
      }
    }
  }

  lemma MidColumn(g: Geo, erased: seq<int>, first: set<int>, second: set<int>, z: int, x: int, done: set<Sym>)
    requires GeoOk(g) && MidUIs(g, erased, first, second, z, x, g.t, done)
    ensures MidUIs(g, erased, first, second, z, x + 1, 0, done)
  {
    forall s ensures s in done <==> MidU(g, erased, first, second, z, x + 1, 0, s) {
      if s.U? && Proper(g, erased, s) && s.node !in erased {
        Mates(g, s.node, s.z);
        PlaceOk(g, MakerU(g, erased, s.node, s.z).0);
      }
    }
  }

  // A symbol that is joined at (i, z) is not there before its turn.
  lemma FreshU(g: Geo, erased: seq<int>, first: set<int>, second: set<int>, z: int, i: int, done: set<Sym>, s: Sym)
    requires GeoOk(g) && NodeOk(g, i) && PlaneOk(g, z) && z !in first
    requires MidUIs(g, erased, first, second, z, i % g.q, i / g.q, done)
    requires MadeAtU(g, erased, s, i, z)
    ensures Fresh(g, Stored(g, erased), done, s)
  {
    assert !MidU(g, erased, first, second, z, i % g.q, i / g.q, s);
  }

  lemma KnownReady(g: Geo, erased: seq<int>, done: set<Sym>, i: int, z: int)
    requires GeoOk(g) && SymOk(g, C(i, z)) && i !in erased
    ensures Ready(g, Stored(g, erased), done, C(i, z))
  {
  }

  lemma ErasedMateReady(g: Geo, erased: seq<int>, first: set<int>, second: set<int>, z: int, i: int, x: int, y: int, done: set<Sym>)
    requires GeoOk(g) && NodeOk(g, i) && PlaneOk(g, z) && !Unpaired(g, i, z) && i !in erased
    requires MidUIs(g, erased, first, second, z, x, y, done) && ReadyPlane(g, erased, first, z)
    requires MateNode(g, i, z) in erased
    ensures SymOk(g, U(MateNode(g, i, z), MatePlane(g, i, z)))
    ensures Ready(g, Stored(g, erased), done, U(MateNode(g, i, z), MatePlane(g, i, z)))
  {
    Mates(g, i, z);
    assert ReadyNode(g, erased, first, i, z);
    var s := U(MateNode(g, i, z), MatePlane(g, i, z));
    assert MidU(g, erased, first, second, z, x, y, s);
  }

  lemma ErasedUntold(g: Geo, erased: seq<int>, z: int)
    requires GeoOk(g) && Erasure(g, erased) && PlaneOk(g, z)
    ensures AllUntold(g, Stored(g, erased), erased, z)
  {
    forall e | e in erased ensures Untold(g, Stored(g, erased), e, z) { assert NodeOk(g, e); }
  }

  // One node of decode_erasures. Here and below, sure says that everything the
  // step reads is there; the code itself does not look.
  method StepNode(clay: Clay, dag: ECDAG, erased: seq<int>, x: int, y: int, z: int, ghost first: set<int>,
                  ghost second: set<int>, ghost done: set<Sym>, ghost sure: bool)
    returns (ghost after: set<Sym>)
    requires clay.Valid() && clay.Keeps(dag, Stored(clay.code.g, erased), done, sure)
    requires Erasure(clay.code.g, erased) && PlaneOk(clay.code.g, z) && 0 <= x < clay.code.g.q && 0 <= y < clay.code.g.t
    requires sure ==> z !in first && ReadyPlane(clay.code.g, erased, first, z)
    requires sure ==> MidUIs(clay.code.g, erased, first, second, z, x, y, done)
    modifies dag
    ensures clay.Keeps(dag, Stored(clay.code.g, erased), after, sure) && Extends(old(dag.nodes), dag.nodes)
    ensures NodeOk(clay.code.g, y * clay.code.g.q + x)
    ensures after == done + MakesU(clay.code.g, erased, y * clay.code.g.q + x, z)
  {
    ghost var g, known := clay.code.g, Stored(clay.code.g, erased);
    var i, j, u := clay.Companion(x, y, z);
    var vec := P.GetPlaneVector(clay.code.g.q, clay.code.g.t, z);
    assert DigitAt(g, i, z) == vec[y];
    after := done;
    if i !in erased && vec[y] != x {
      Mates(g, i, z);
      if vec[y] < x && j !in erased {
        after := EncodeBoth(clay, dag, erased, i, z, j, u, first, second, done, sure);
      } else if j in erased {
        if sure {
          MakesUIs(g, erased, i, z, U(i, z));
          KnownReady(g, erased, done, i, z);
          ErasedMateReady(g, erased, first, second, z, i, x, y, done);
          FreshU(g, erased, first, second, z, i, done, U(i, z));
          RuleOfOne(g, known, i, z);
        }
        if vec[y] < x {
          clay.SolvePair(dag, i, z, j, u, 0, 3, 2, known, done, sure);
        } else {
          clay.SolvePair(dag, j, u, i, z, 1, 2, 3, known, done, sure);
        }
        after := done + {U(i, z)};
      }
    }
  }

  // get_uncoupled_from_coupled: both uncoupled symbols of a surviving pair.
  method EncodeBoth(clay: Clay, dag: ECDAG, erased: seq<int>, i: int, z: int, j: int, u: int, ghost first: set<int>,
                    ghost second: set<int>, ghost done: set<Sym>, ghost sure: bool)
    returns (ghost after: set<Sym>)
    requires clay.Valid() && clay.Keeps(dag, Stored(clay.code.g, erased), done, sure)
    requires SymOk(clay.code.g, C(i, z)) && !Unpaired(clay.code.g, i, z) && Upper(clay.code.g, i, z)
    requires j == MateNode(clay.code.g, i, z) && u == MatePlane(clay.code.g, i, z)
    requires MateOk(clay.code.g, i, z) && i !in erased && j !in erased && (sure ==> z !in first)
    requires sure ==> MidUIs(clay.code.g, erased, first, second, z, i % clay.code.g.q, i / clay.code.g.q, done)
    modifies dag
    ensures clay.Keeps(dag, Stored(clay.code.g, erased), after, sure) && Extends(old(dag.nodes), dag.nodes)
    ensures after == done + {U(i, z), U(j, u)}
  {
    ghost var g, known := clay.code.g, Stored(clay.code.g, erased);
    if sure {
      MakesUIs(g, erased, i, z, U(i, z));
      MakesUIs(g, erased, i, z, U(j, u));
      FreshU(g, erased, first, second, z, i, done, U(i, z));
      FreshU(g, erased, first, second, z, i, done, U(j, u));
      KnownReady(g, erased, done, i, z);
      KnownReady(g, erased, done, j, u);
      RuleOfCoupled(g, known, i, z);
    }
    clay.EncodePair(dag, i, z, j, u, 2, known, done, sure);
    clay.EncodePair(dag, i, z, j, u, 3, known, done + {U(i, z)}, sure);
    after := done + {U(i, z)} + {U(j, u)};
  }

  // After all nodes of plane z, the column can be decoded.
  lemma ColumnReady(g: Geo, erased: seq<int>, first: set<int>, second: set<int>, z: int, done: set<Sym>)
    requires GeoOk(g) && PlaneOk(g, z) && MidUIs(g, erased, first, second, z, g.q, 0, done)
    requires z !in first && ReadyPlane(g, erased, first, z)
    ensures forall i :: NodeOk(g, i) && i !in erased ==> Ready(g, Stored(g, erased), done, U(i, z))
    ensures forall e :: e in erased && NodeOk(g, e) ==> Fresh(g, Stored(g, erased), done, U(e, z))
  {
    forall i | NodeOk(g, i) && i !in erased ensures Ready(g, Stored(g, erased), done, U(i, z)) {
      if !Unpaired(g, i, z) {
        Mates(g, i, z);
        assert ReadyNode(g, erased, first, i, z);
        PlaceOk(g, MakerU(g, erased, i, z).0);
        assert MidU(g, erased, first, second, z, g.q, 0, U(i, z));
      }
    }
    forall e | e in erased && NodeOk(g, e) ensures Fresh(g, Stored(g, erased), done, U(e, z)) {
      assert !MidU(g, erased, first, second, z, g.q, 0, Canon(g, U(e, z)));
    }
  }

  lemma FirstPassDone(g: Geo, erased: seq<int>, first: set<int>, second: set<int>, z: int, done: set<Sym>, after: set<Sym>)
    requires GeoOk(g) && PlaneOk(g, z) && Erasure(g, erased) && MidUIs(g, erased, first, second, z, g.q, 0, done)
    requires z !in first && after == done + ErasedColumn(g, erased, z, |erased|)
    ensures DoneIs(g, erased, first + {z}, second, after)
  {
    forall s ensures s in after <==> Made(g, erased, first + {z}, second, s) {
      InErasedColumn(g, erased, z, s);
      if s.U? && Proper(g, erased, s) && s.node !in erased {
        Mates(g, s.node, s.z);
        PlaceOk(g, MakerU(g, erased, s.node, s.z).0);
      }
    }
  }

  lemma InErasedColumn(g: Geo, erased: seq<int>, z: int, s: Sym)
    requires GeoOk(g) && PlaneOk(g, z) && Erasure(g, erased)
    ensures s in ErasedColumn(g, erased, z, |erased|) <==>
              s.node in erased && s.z == z && SymOk(g, s) && s == Canon(g, U(s.node, z))
  {
    if s in ErasedColumn(g, erased, z, |erased|) {
      var i :| 0 <= i < |erased| && s == Canon(g, U(erased[i], z));
      assert erased[i] in erased;
    }
    if s.node in erased && s.z == z && SymOk(g, s) && s == Canon(g, U(s.node, z)) {
      var i :| 0 <= i < |erased| && erased[i] == s.node;
    }
  }

  // The nodes at place x, group by group.
  method StepColumn(clay: Clay, dag: ECDAG, erased: seq<int>, x: int, z: int, ghost first: set<int>,
                    ghost second: set<int>, ghost done: set<Sym>, ghost sure: bool)
    returns (ghost after: set<Sym>)
    requires clay.Valid() && clay.Keeps(dag, Stored(clay.code.g, erased), done, sure)
    requires Erasure(clay.code.g, erased) && PlaneOk(clay.code.g, z) && 0 <= x < clay.code.g.q
    requires sure ==> z !in first && ReadyPlane(clay.code.g, erased, first, z)
    requires sure ==> MidUIs(clay.code.g, erased, first, second, z, x, 0, done)
    modifies dag
    ensures clay.Keeps(dag, Stored(clay.code.g, erased), after, sure) && Extends(old(dag.nodes), dag.nodes)
    ensures sure ==> MidUIs(clay.code.g, erased, first, second, z, x + 1, 0, after)
  {
    after := done;
    var y := 0;
    while y < clay.code.g.t
      invariant 0 <= y <= clay.code.g.t && clay.Keeps(dag, Stored(clay.code.g, erased), after, sure)
      invariant Extends(old(dag.nodes), dag.nodes)
      invariant sure ==> MidUIs(clay.code.g, erased, first, second, z, x, y, after)
    {
      ghost var before := after;
      after := StepNode(clay, dag, erased, x, y, z, first, second, before, sure);
      if sure { MidStep(clay.code.g, erased, first, second, z, x, y, before, after); }
      y := y + 1;
    }
    if sure { MidColumn(clay.code.g, erased, first, second, z, x, after); }
  }

  lemma MidStart(g: Geo, erased: seq<int>, first: set<int>, second: set<int>, z: int, done: set<Sym>)
    requires GeoOk(g) && DoneIs(g, erased, first, second, done)
    ensures MidUIs(g, erased, first, second, z, 0, 0, done)
  {
    forall s ensures s in done <==> MidU(g, erased, first, second, z, 0, 0, s) {
      if s.U? && Proper(g, erased, s) && s.node !in erased {
        Mates(g, s.node, s.z);
        PlaceOk(g, MakerU(g, erased, s.node, s.z).0);
      }
    }
  }

  // The uncoupled symbols of plane z: of the survivors from what is stored
  // and from partner planes, then of the erased nodes from those.
  method DecodeErasures(clay: Clay, dag: ECDAG, erased: seq<int>, z: int, ghost first: set<int>, ghost second: set<int>,
                        ghost done: set<Sym>, ghost sure: bool)
    returns (ghost after: set<Sym>)
    requires clay.Valid() && clay.Keeps(dag, Stored(clay.code.g, erased), done, sure)
    requires Erasure(clay.code.g, erased) && Solvable(clay.code, erased) && PlaneOk(clay.code.g, z)
    requires sure ==> z !in first && ReadyPlane(clay.code.g, erased, first, z)
    requires sure ==> DoneIs(clay.code.g, erased, first, second, done)
    modifies dag
    ensures clay.Keeps(dag, Stored(clay.code.g, erased), after, sure) && Extends(old(dag.nodes), dag.nodes)
    ensures sure ==> DoneIs(clay.code.g, erased, first + {z}, second, after)
  {
    after := done;
    if sure { MidStart(clay.code.g, erased, first, second, z, done); }
    var x := 0;
    while x < clay.code.g.q
      invariant 0 <= x <= clay.code.g.q && clay.Keeps(dag, Stored(clay.code.g, erased), after, sure)
      invariant Extends(old(dag.nodes), dag.nodes)
      invariant sure ==> MidUIs(clay.code.g, erased, first, second, z, x, 0, after)
    {
      after := StepColumn(clay, dag, erased, x, z, first, second, after, sure);
      x := x + 1;
    }
    ghost var before := after;
    after := before + ErasedColumn(clay.code.g, erased, z, |erased|);
    if sure {
      FirstPassDone(clay.code.g, erased, first, second, z, before, after);
      ColumnReady(clay.code.g, erased, first, second, z, before);
      ErasedUntold(clay.code.g, erased, z);
    }
    clay.DecodeUncoupled(dag, erased, z, Stored(clay.code.g, erased), before, sure);
  }
}
