// Clay::repair_one_lost_chunk: repair of one node from a fraction of every
// helper.
module ClayRepair {
  import opened Util
  import opened GF
  import opened Dag
  import opened EcDag
  import opened Decoding
  import opened Matrix
  import P = Planes
  import opened ClayIndex
  import opened ClayCode
  import opened ClayJoin
  import D = ClayDecode
  import T = Tasks

  // One lost node; aloof nodes live but are not asked.
  datatype Repair = Repair(g: Geo, lost: int, aloof: seq<int>)

  ghost predicate RepairOk(r: Repair) {
    && GeoOk(r.g) && NodeOk(r.g, r.lost) && NoDup(r.aloof)
    && (forall i :: 0 <= i < |r.aloof| ==> NodeOk(r.g, r.aloof[i]) && r.aloof[i] / r.g.q != r.lost / r.g.q)
    && |r.aloof| + r.g.q == Parity(r.g)
  }

  lemma AloofApart(r: Repair, e: int)
    requires RepairOk(r) && e in r.aloof
    ensures NodeOk(r.g, e) && e / r.g.q != r.lost / r.g.q
  {
    var i :| 0 <= i < |r.aloof| && r.aloof[i] == e;
  }

  predicate Helper(r: Repair, i: int) { NodeOk(r.g, i) && i != r.lost && i !in r.aloof }

  // The planes that are read: those in which the lost node is unpaired.
  predicate Asked(r: Repair, z: int)
    requires GeoOk(r.g) && NodeOk(r.g, r.lost)
  {
    PlaneOk(r.g, z) && Unpaired(r.g, r.lost, z)
  }

  ghost function Read(r: Repair): (k: set<Sym>)
    requires GeoOk(r.g) && NodeOk(r.g, r.lost)
    ensures forall s :: s in k <==> SymOk(r.g, s) && s.C? && Helper(r, s.node) && Asked(r, s.z)
  {
    set i, z | 0 <= i < Nodes(r.g) && 0 <= z < SubChunks(r.g) && Helper(r, i) && Asked(r, z) :: C(i, z)
  }

  // The group of the lost node, then the aloof nodes.
  function Erasures(r: Repair): seq<int>
    requires r.g.q >= 1
  {
    seq(r.g.q, i => r.lost - r.lost % r.g.q + i) + r.aloof
  }

  lemma GroupMember(r: Repair, i: int)
    requires RepairOk(r)
    ensures i in Erasures(r) <==> (NodeOk(r.g, i) && i / r.g.q == r.lost / r.g.q) || i in r.aloof
  {
    var g := r.g;
    PlaceOk(g, r.lost);
    var group := seq(g.q, i => r.lost - r.lost % g.q + i);
    if i in group {
      var k :| 0 <= k < g.q && group[k] == i;
      NodeAt(g, r.lost / g.q, k);
    }
    if NodeOk(g, i) && i / g.q == r.lost / g.q {
      PlaceOk(g, i);
      assert group[i % g.q] == i;
    }
    assert i in Erasures(r) <==> i in group || i in r.aloof;
  }

  lemma ErasuresOk(r: Repair)
    requires RepairOk(r)
    ensures Erasure(r.g, Erasures(r))
  {
    var e := Erasures(r);
    forall a, b | 0 <= a < b < |e| ensures e[a] != e[b] {
      if a < r.g.q <= b {
        assert e[a] in seq(r.g.q, i => r.lost - r.lost % r.g.q + i);
        GroupNotAloof(r, a);
      }
    }
    forall i | i in e ensures NodeOk(r.g, i) {
      GroupMember(r, i);
      if i in r.aloof { AloofApart(r, i); }
    }
  }

  lemma GroupNotAloof(r: Repair, a: int)
    requires RepairOk(r) && 0 <= a < r.g.q
    ensures forall b :: 0 <= b < |r.aloof| ==> r.aloof[b] != r.lost - r.lost % r.g.q + a
  {
    PlaceOk(r.g, r.lost);
    NodeAt(r.g, r.lost / r.g.q, a);
  }

  // ------------------------------------------------------------ what is joined

  predicate Made(r: Repair, planes: set<int>, s: Sym)
    requires GeoOk(r.g) && NodeOk(r.g, r.lost)
  {
    SymOk(r.g, s) && Canon(r.g, s) == s &&
    if s.U? then s.z in planes
    else if Unpaired(r.g, s.node, s.z) then (s.node == r.lost || s.node in r.aloof) && s.z in planes
    else s.node == r.lost && MatePlane(r.g, r.lost, s.z) in planes
  }

  ghost predicate DoneIs(r: Repair, planes: set<int>, done: set<Sym>)
    requires GeoOk(r.g) && NodeOk(r.g, r.lost)
  {
    forall s {:trigger s in done} :: s in done <==> Made(r, planes, s)
  }

  // Node i comes before (x, y) in the loops over y, then x.
  predicate Before(g: Geo, i: int, x: int, y: int)
    requires g.q >= 1
  {
    i / g.q < y || (i / g.q == y && i % g.q < x)
  }

  ghost predicate Mid(r: Repair, planes: set<int>, z: int, x: int, y: int, s: Sym)
    requires GeoOk(r.g) && NodeOk(r.g, r.lost)
  {
    || Made(r, planes, s)
    || (s.U? && SymOk(r.g, s) && Canon(r.g, s) == s && s.z == z && s.node !in Erasures(r) && Before(r.g, s.node, x, y))
  }

  ghost predicate MidIs(r: Repair, planes: set<int>, z: int, x: int, y: int, done: set<Sym>)
    requires GeoOk(r.g) && NodeOk(r.g, r.lost)
  {
    forall s {:trigger s in done} :: s in done <==> Mid(r, planes, z, x, y, s)
  }

  function MakesU(r: Repair, i: int, z: int): set<Sym>
    requires GeoOk(r.g) && NodeOk(r.g, i)
  {
    if i in Erasures(r) || Unpaired(r.g, i, z) then {} else {U(i, z)}
  }

  lemma MidStep(r: Repair, planes: set<int>, z: int, x: int, y: int, done: set<Sym>, after: set<Sym>)
    requires RepairOk(r) && PlaneOk(r.g, z) && 0 <= x < r.g.q && 0 <= y < r.g.t && NodeOk(r.g, y * r.g.q + x)
    requires MidIs(r, planes, z, x, y, done) && after == done + MakesU(r, y * r.g.q + x, z)
    ensures MidIs(r, planes, z, x + 1, y, after)
  {
    NodeAt(r.g, y, x);
    OnlyNode(r.g, y, x);
    forall s ensures s in after <==> Mid(r, planes, z, x + 1, y, s) {
      assert s in after <==> s in done || s in MakesU(r, y * r.g.q + x, z);
    }
  }

  lemma MidRow(r: Repair, planes: set<int>, z: int, y: int, done: set<Sym>)
    requires RepairOk(r) && MidIs(r, planes, z, r.g.q, y, done)
    ensures MidIs(r, planes, z, 0, y + 1, done)
  {
    forall s ensures s in done <==> Mid(r, planes, z, 0, y + 1, s) {
      if SymOk(r.g, s) { PlaceOk(r.g, s.node); }
    }
  }

  lemma MidStart(r: Repair, planes: set<int>, z: int, done: set<Sym>)
    requires RepairOk(r) && DoneIs(r, planes, done)
    ensures MidIs(r, planes, z, 0, 0, done)
  {
    forall s ensures s in done <==> Mid(r, planes, z, 0, 0, s) {
      if SymOk(r.g, s) { PlaceOk(r.g, s.node); }
    }
  }

  // The partner planes of aloof nodes come first.
  predicate ReadyNode(r: Repair, planes: set<int>, i: int, z: int)
    requires GeoOk(r.g) && NodeOk(r.g, i)
  {
    i !in Erasures(r) && !Unpaired(r.g, i, z) && MateNode(r.g, i, z) in r.aloof ==> MatePlane(r.g, i, z) in planes
  }

  ghost predicate ReadyPlane(r: Repair, planes: set<int>, z: int)
    requires GeoOk(r.g)
  {
    forall i {:trigger ReadyNode(r, planes, i, z)} :: NodeOk(r.g, i) ==> ReadyNode(r, planes, i, z)
  }

  // The partner of a node outside the lost group is read in the same planes.
  lemma MateRead(r: Repair, i: int, z: int)
    requires RepairOk(r) && NodeOk(r.g, i) && Asked(r, z) && !Unpaired(r.g, i, z) && i / r.g.q != r.lost / r.g.q
    ensures MateOk(r.g, i, z) && Asked(r, MatePlane(r.g, i, z))
    ensures MateNode(r.g, i, z) != r.lost
  {
    Mates(r.g, i, z);
    PlaceOk(r.g, r.lost);
    PlaceOk(r.g, i);
  }

  lemma HelperReady(r: Repair, done: set<Sym>, i: int, z: int)
    requires RepairOk(r) && Helper(r, i) && Asked(r, z)
    ensures SymOk(r.g, C(i, z)) && Ready(r.g, Read(r), done, C(i, z))
  {
  }

  lemma FreshU(r: Repair, planes: set<int>, z: int, x: int, y: int, done: set<Sym>, i: int)
    requires RepairOk(r) && SymOk(r.g, U(i, z)) && !Unpaired(r.g, i, z) && z !in planes
    requires MidIs(r, planes, z, x, y, done) && !Before(r.g, i, x, y)
    ensures Fresh(r.g, Read(r), done, U(i, z))
  {
    assert !Mid(r, planes, z, x, y, U(i, z));
  }

  lemma AloofReady(r: Repair, planes: set<int>, z: int, x: int, y: int, done: set<Sym>, i: int)
    requires RepairOk(r) && SymOk(r.g, C(i, z)) && !Unpaired(r.g, i, z) && i !in Erasures(r)
    requires MidIs(r, planes, z, x, y, done) && ReadyPlane(r, planes, z) && MateNode(r.g, i, z) in r.aloof
    ensures var s := U(MateNode(r.g, i, z), MatePlane(r.g, i, z));
      SymOk(r.g, s) && Ready(r.g, Read(r), done, s)
  {
    Mates(r.g, i, z);
    assert ReadyNode(r, planes, i, z);
    assert Mid(r, planes, z, x, y, U(MateNode(r.g, i, z), MatePlane(r.g, i, z)));
  }

  // The partner is aloof: its uncoupled symbol was solved in an earlier plane.
  method FromAloof(clay: Clay, dag: ECDAG, r: Repair, i: int, z: int, j: int, u: int,
                   ghost done: set<Sym>)
    requires GeoOk(r.g) && NodeOk(r.g, r.lost) && clay.code.g == r.g && clay.Valid() && clay.Holds(dag, Read(r), done)
    requires SymOk(r.g, C(i, z)) && !Unpaired(r.g, i, z) && MateOk(r.g, i, z)
    requires j == MateNode(r.g, i, z) && u == MatePlane(r.g, i, z)
    requires Fresh(r.g, Read(r), done, U(i, z)) && Ready(r.g, Read(r), done, C(i, z)) && Ready(r.g, Read(r), done, U(j, u))
    requires C(i, z) in Read(r) && C(j, u) !in Read(r)
    modifies dag
    ensures clay.Holds(dag, Read(r), done + {U(i, z)}) && Extends(old(dag.nodes), dag.nodes)
    ensures Ix(r.g, C(i, z)) in dag.nodes
  {
    var y, x := i / r.g.q, i % r.g.q;
    PlaceOk(r.g, i);
    var vec := P.GetPlaneVector(r.g.q, r.g.t, z);
    assert DigitAt(r.g, i, z) == vec[y];
    RuleOfOne(r.g, Read(r), i, z);
    if vec[y] > x {
      clay.SolvePair(dag, j, u, i, z, 1, 2, 3, Read(r), done, true);
    } else {
      clay.SolvePair(dag, i, z, j, u, 0, 3, 2, Read(r), done, true);
    }
  }

  // The partner is a helper: both coupled symbols of the pair are read.
  method FromHelper(clay: Clay, dag: ECDAG, r: Repair, i: int, z: int, j: int, u: int,
                    ghost done: set<Sym>)
    requires GeoOk(r.g) && NodeOk(r.g, r.lost) && clay.code.g == r.g && clay.Valid() && clay.Holds(dag, Read(r), done)
    requires SymOk(r.g, C(i, z)) && !Unpaired(r.g, i, z) && MateOk(r.g, i, z)
    requires j == MateNode(r.g, i, z) && u == MatePlane(r.g, i, z)
    requires Fresh(r.g, Read(r), done, U(i, z)) && C(i, z) in Read(r) && C(j, u) in Read(r)
    requires Ready(r.g, Read(r), done, C(i, z)) && Ready(r.g, Read(r), done, C(j, u))
    modifies dag
    ensures clay.Holds(dag, Read(r), done + {U(i, z)}) && Extends(old(dag.nodes), dag.nodes)
    ensures Ix(r.g, C(i, z)) in dag.nodes
  {
    var y, x := i / r.g.q, i % r.g.q;
    PlaceOk(r.g, i);
    var vec := P.GetPlaneVector(r.g.q, r.g.t, z);
    assert DigitAt(r.g, i, z) == vec[y];
    if vec[y] < x {
      RuleOfCoupled(r.g, Read(r), i, z);
      clay.EncodePair(dag, i, z, j, u, 2, Read(r), done, true);
    } else {
      RuleOfCoupled(r.g, Read(r), j, u);
      clay.EncodePair(dag, j, u, i, z, 3, Read(r), done, true);
    }
  }

  // The uncoupled symbol of one node outside the erasures.
  method StepNode(clay: Clay, dag: ECDAG, r: Repair, x: int, y: int, z: int, ghost planes: set<int>,
                  ghost done: set<Sym>)
    returns (ghost after: set<Sym>)
    requires RepairOk(r) && clay.code.g == r.g && clay.Valid() && clay.Holds(dag, Read(r), done)
    requires Asked(r, z) && 0 <= x < r.g.q && 0 <= y < r.g.t && z !in planes && ReadyPlane(r, planes, z)
    requires MidIs(r, planes, z, x, y, done)
    modifies dag
    ensures clay.Holds(dag, Read(r), after) && Extends(old(dag.nodes), dag.nodes)
    ensures NodeOk(r.g, y * r.g.q + x) && after == done + MakesU(r, y * r.g.q + x, z)
    ensures MakesU(r, y * r.g.q + x, z) != {} ==> Ix(r.g, C(y * r.g.q + x, z)) in dag.nodes
  {
    var i, j, u := clay.Companion(x, y, z);
    var vec := P.GetPlaneVector(r.g.q, r.g.t, z);
    assert DigitAt(r.g, i, z) == vec[y];
    GroupMember(r, i);
    after := done;
    if i !in Erasures(r) && vec[y] != x {
      MateRead(r, i, z);
      PlaceOk(r.g, r.lost);
      HelperReady(r, done, i, z);
      FreshU(r, planes, z, x, y, done, i);
      if j in r.aloof {
        AloofReady(r, planes, z, x, y, done, i);
        FromAloof(clay, dag, r, i, z, j, u, done);
      } else {
        HelperReady(r, done, j, u);
        FromHelper(clay, dag, r, i, z, j, u, done);
      }
      after := done + {U(i, z)};
    }
  }

  // ------------------------------------------------- after the plane is solved

  ghost predicate Late(r: Repair, planes: set<int>, z: int, seen: seq<int>, s: Sym)
    requires GeoOk(r.g) && NodeOk(r.g, r.lost)
  {
    || Made(r, planes, s)
    || (SymOk(r.g, s) && Canon(r.g, s) == s && s.z == z
        && (s.U? || (Unpaired(r.g, s.node, z) && (s.node == r.lost || s.node in r.aloof))))
    || (s.C? && s.node == r.lost && SymOk(r.g, s) && !Unpaired(r.g, r.lost, s.z)
        && MatePlane(r.g, r.lost, s.z) == z && MateNode(r.g, r.lost, s.z) in seen)
  }

  ghost predicate LateIs(r: Repair, planes: set<int>, z: int, seen: seq<int>, done: set<Sym>)
    requires GeoOk(r.g) && NodeOk(r.g, r.lost)
  {
    forall s {:trigger s in done} :: s in done <==> Late(r, planes, z, seen, s)
  }

  lemma ColumnReady(r: Repair, planes: set<int>, z: int, done: set<Sym>)
    requires RepairOk(r) && Asked(r, z) && z !in planes && MidIs(r, planes, z, 0, r.g.t, done)
    ensures forall i :: NodeOk(r.g, i) && i !in Erasures(r) ==> Ready(r.g, Read(r), done, U(i, z))
    ensures forall e :: e in Erasures(r) && NodeOk(r.g, e) ==> Fresh(r.g, Read(r), done, U(e, z))
  {
    PlaceOk(r.g, r.lost);
    forall i | NodeOk(r.g, i) && i !in Erasures(r) ensures Ready(r.g, Read(r), done, U(i, z)) {
      PlaceOk(r.g, i);
      GroupMember(r, i);
      if !Unpaired(r.g, i, z) { assert Mid(r, planes, z, 0, r.g.t, U(i, z)); }
    }
    forall e | e in Erasures(r) && NodeOk(r.g, e) ensures Fresh(r.g, Read(r), done, U(e, z)) {
      UnpairedErasure(r, e, z);
      assert !Mid(r, planes, z, 0, r.g.t, Canon(r.g, U(e, z)));
    }
  }

  // The unpaired erasures of an asked plane are the lost node and aloof ones.
  lemma UnpairedErasure(r: Repair, e: int, z: int)
    requires RepairOk(r) && Asked(r, z) && e in Erasures(r) && NodeOk(r.g, e)
    ensures Unpaired(r.g, e, z) ==> e == r.lost || e in r.aloof
  {
    GroupMember(r, e);
    PlaceOk(r.g, e);
    PlaceOk(r.g, r.lost);
  }

  lemma LateStart(r: Repair, planes: set<int>, z: int, done: set<Sym>, after: set<Sym>)
    requires RepairOk(r) && Asked(r, z) && MidIs(r, planes, z, 0, r.g.t, done) && Erasure(r.g, Erasures(r))
    requires after == done + ErasedColumn(r.g, Erasures(r), z, |Erasures(r)|)
    ensures LateIs(r, planes, z, [], after)
  {
    forall s ensures s in after <==> Late(r, planes, z, [], s) {
      InColumn(r, z, s);
      if SymOk(r.g, s) {
        PlaceOk(r.g, s.node);
        GroupMember(r, s.node);
        if s.node in Erasures(r) { UnpairedErasure(r, s.node, z); }
      }
    }
  }

  lemma InColumn(r: Repair, z: int, s: Sym)
    requires RepairOk(r) && PlaneOk(r.g, z) && Erasure(r.g, Erasures(r))
    ensures s in ErasedColumn(r.g, Erasures(r), z, |Erasures(r)|) <==>
              s.node in Erasures(r) && s.z == z && SymOk(r.g, s) && s == Canon(r.g, U(s.node, z))
  {
    var erased := Erasures(r);
    if s in ErasedColumn(r.g, erased, z, |erased|) {
      var i :| 0 <= i < |erased| && s == Canon(r.g, U(erased[i], z));
      assert erased[i] in erased;
    }
    if s.node in erased && s.z == z && SymOk(r.g, s) && s == Canon(r.g, U(s.node, z)) {
      var i :| 0 <= i < |erased| && erased[i] == s.node;
    }
  }

  // What one erasure adds: a helper of the lost group, paired in this plane,
  // gives the lost symbol of its partner plane.
  function MakesC(r: Repair, i: int, z: int): set<Sym>
    requires GeoOk(r.g) && NodeOk(r.g, i)
  {
    if i in r.aloof || Unpaired(r.g, i, z) then {} else {C(MateNode(r.g, i, z), MatePlane(r.g, i, z))}
  }

  lemma MakesCIs(r: Repair, i: int, z: int, s: Sym)
    requires RepairOk(r) && Asked(r, z) && NodeOk(r.g, i) && i in Erasures(r)
    ensures s in MakesC(r, i, z) <==>
              s.C? && s.node == r.lost && SymOk(r.g, s) && !Unpaired(r.g, r.lost, s.z)
              && MatePlane(r.g, r.lost, s.z) == z && MateNode(r.g, r.lost, s.z) == i
  {
    GroupMember(r, i);
    PlaceOk(r.g, r.lost);
    if i in r.aloof { AloofApart(r, i); }
    if !Unpaired(r.g, i, z) { Mates(r.g, i, z); }
    if SymOk(r.g, s) && !Unpaired(r.g, r.lost, s.z) { Mates(r.g, r.lost, s.z); }
  }

  lemma LateStep(r: Repair, planes: set<int>, z: int, seen: seq<int>, i: int, done: set<Sym>, after: set<Sym>)
    requires RepairOk(r) && Asked(r, z) && NodeOk(r.g, i) && i in Erasures(r)
    requires LateIs(r, planes, z, seen, done) && after == done + MakesC(r, i, z)
    ensures LateIs(r, planes, z, seen + [i], after)
  {
    forall s ensures s in after <==> Late(r, planes, z, seen + [i], s) {
      MakesCIs(r, i, z, s);
      assert s in after <==> s in done || s in MakesC(r, i, z);
    }
  }

  lemma LateDone(r: Repair, planes: set<int>, z: int, done: set<Sym>)
    requires RepairOk(r) && Asked(r, z) && LateIs(r, planes, z, Erasures(r), done)
    ensures DoneIs(r, planes + {z}, done)
  {
    forall s ensures s in done <==> Made(r, planes + {z}, s) {
      if s.C? && s.node == r.lost && SymOk(r.g, s) && !Unpaired(r.g, r.lost, s.z) {
        Mates(r.g, r.lost, s.z);
        GroupMember(r, MateNode(r.g, r.lost, s.z));
      }
    }
  }

  // What the pair of a helper of the lost group looks like.
  lemma LostMate(r: Repair, i: int, z: int)
    requires RepairOk(r) && Asked(r, z) && i in Erasures(r) && i !in r.aloof && NodeOk(r.g, i) && !Unpaired(r.g, i, z)
    ensures Helper(r, i) && MateOk(r.g, i, z) && MateNode(r.g, i, z) == r.lost
  {
    GroupMember(r, i);
    Mates(r.g, i, z);
    PlaceOk(r.g, r.lost);
    PlaceOk(r.g, i);
  }

  method StepErasure(clay: Clay, dag: ECDAG, r: Repair, i: int, z: int, ghost planes: set<int>, ghost seen: seq<int>,
                     ghost done: set<Sym>)
    returns (ghost after: set<Sym>)
    requires RepairOk(r) && clay.code.g == r.g && clay.Valid() && clay.Holds(dag, Read(r), done)
    requires Asked(r, z) && z !in planes && i in Erasures(r) && NodeOk(r.g, i) && i !in seen
    requires LateIs(r, planes, z, seen, done)
    modifies dag
    ensures clay.Holds(dag, Read(r), after) && Extends(old(dag.nodes), dag.nodes)
    ensures after == done + MakesC(r, i, z)
    ensures Helper(r, i) ==> Ix(r.g, C(i, z)) in dag.nodes
  {
    PlaceOk(r.g, i);
    var x, y := i % r.g.q, i / r.g.q;
    var node, j, u := clay.Companion(x, y, z);
    var vec := P.GetPlaneVector(r.g.q, r.g.t, z);
    assert DigitAt(r.g, i, z) == vec[y];
    after := done;
    UnpairedErasure(r, i, z);
    if i !in r.aloof && x != vec[y] {
      LostMate(r, i, z);
      HelperReady(r, done, i, z);
      LostFresh(r, planes, z, seen, done, i);
      assert Late(r, planes, z, seen, U(i, z));
      RuleOfOne(r.g, Read(r), i, z);
      if vec[y] < x {
        clay.SolvePair(dag, i, z, j, u, 0, 2, 1, Read(r), done, true);
      } else {
        clay.SolvePair(dag, j, u, i, z, 1, 3, 0, Read(r), done, true);
      }
      after := done + {C(j, u)};
    }
  }

  lemma LostFresh(r: Repair, planes: set<int>, z: int, seen: seq<int>, done: set<Sym>, i: int)
    requires RepairOk(r) && Asked(r, z) && z !in planes && i !in seen && LateIs(r, planes, z, seen, done)
    requires NodeOk(r.g, i) && !Unpaired(r.g, i, z) && MateOk(r.g, i, z) && MateNode(r.g, i, z) == r.lost
    ensures Fresh(r.g, Read(r), done, C(r.lost, MatePlane(r.g, i, z)))
  {
    assert !Late(r, planes, z, seen, C(r.lost, MatePlane(r.g, i, z)));
  }

  // -------------------------------------------------------------- one plane

  // The helpers outside the lost group whose symbol of plane z was used.
  ghost predicate UsedBefore(r: Repair, nodes: Graph, z: int, x: int, y: int)
    requires GeoOk(r.g) && PlaneOk(r.g, z)
  {
    forall i {:trigger Ix(r.g, C(i, z))} ::
      NodeOk(r.g, i) && i !in Erasures(r) && !Unpaired(r.g, i, z) && Before(r.g, i, x, y) ==> Ix(r.g, C(i, z)) in nodes
  }

  lemma UsedStep(r: Repair, old_: Graph, nodes: Graph, z: int, x: int, y: int)
    requires RepairOk(r) && PlaneOk(r.g, z) && 0 <= x < r.g.q && 0 <= y < r.g.t && NodeOk(r.g, y * r.g.q + x)
    requires UsedBefore(r, old_, z, x, y) && Extends(old_, nodes)
    requires MakesU(r, y * r.g.q + x, z) != {} ==> Ix(r.g, C(y * r.g.q + x, z)) in nodes
    ensures UsedBefore(r, nodes, z, x + 1, y)
  {
    NodeAt(r.g, y, x);
    OnlyNode(r.g, y, x);
  }

  method StepRow(clay: Clay, dag: ECDAG, r: Repair, y: int, z: int, ghost planes: set<int>,
                 ghost done: set<Sym>)
    returns (ghost after: set<Sym>)
    requires RepairOk(r) && clay.code.g == r.g && clay.Valid() && clay.Holds(dag, Read(r), done)
    requires Asked(r, z) && 0 <= y < r.g.t && z !in planes && ReadyPlane(r, planes, z)
    requires MidIs(r, planes, z, 0, y, done) && UsedBefore(r, dag.nodes, z, 0, y)
    modifies dag
    ensures clay.Holds(dag, Read(r), after) && Extends(old(dag.nodes), dag.nodes)
    ensures MidIs(r, planes, z, 0, y + 1, after) && UsedBefore(r, dag.nodes, z, 0, y + 1)
  {
    after := done;
    var x := 0;
    while x < r.g.q
      invariant 0 <= x <= r.g.q && clay.Holds(dag, Read(r), after) && Extends(old(dag.nodes), dag.nodes)
      invariant MidIs(r, planes, z, x, y, after) && UsedBefore(r, dag.nodes, z, x, y)
    {
      ghost var before, nodes := after, dag.nodes;
      after := StepNode(clay, dag, r, x, y, z, planes, before);
      MidStep(r, planes, z, x, y, before, after);
      UsedStep(r, nodes, dag.nodes, z, x, y);
      x := x + 1;
    }
    MidRow(r, planes, z, y, after);
    UsedRow(r, dag.nodes, z, y);
  }

  lemma UsedRow(r: Repair, nodes: Graph, z: int, y: int)
    requires RepairOk(r) && PlaneOk(r.g, z) && UsedBefore(r, nodes, z, r.g.q, y)
    ensures UsedBefore(r, nodes, z, 0, y + 1)
  {
    forall i | NodeOk(r.g, i) && Before(r.g, i, 0, y + 1) ensures Before(r.g, i, r.g.q, y) { PlaceOk(r.g, i); }
  }

  // Every helper gave its symbol of plane z.
  ghost predicate AllUsed(r: Repair, nodes: Graph, z: int)
    requires GeoOk(r.g) && PlaneOk(r.g, z)
  {
    forall i {:trigger Ix(r.g, C(i, z))} :: Helper(r, i) ==> Ix(r.g, C(i, z)) in nodes
  }

  // The first two thirds of a plane: the uncoupled symbols.
  method Uncouple(clay: Clay, dag: ECDAG, r: Repair, z: int, ghost planes: set<int>,
                  ghost done: set<Sym>)
    returns (ghost after: set<Sym>)
    requires RepairOk(r) && clay.code.g == r.g && clay.Valid() && clay.Holds(dag, Read(r), done)
    requires Asked(r, z) && z !in planes && ReadyPlane(r, planes, z) && Solvable(clay.code, Erasures(r))
    requires DoneIs(r, planes, done)
    modifies dag
    ensures clay.Holds(dag, Read(r), after) && Extends(old(dag.nodes), dag.nodes)
    ensures LateIs(r, planes, z, [], after)
    ensures forall i :: NodeOk(r.g, i) && i !in Erasures(r) ==> Ix(r.g, C(i, z)) in dag.nodes
  {
    after := done;
    MidStart(r, planes, z, done);
    NoneUsed(r, dag.nodes, z);
    var y := 0;
    while y < r.g.t
      invariant 0 <= y <= r.g.t && clay.Holds(dag, Read(r), after) && Extends(old(dag.nodes), dag.nodes)
      invariant MidIs(r, planes, z, 0, y, after) && UsedBefore(r, dag.nodes, z, 0, y)
    {
      after := StepRow(clay, dag, r, y, z, planes, after);
      y := y + 1;
    }
    ghost var before, nodes := after, dag.nodes;
    ErasuresOk(r);
    ColumnReady(r, planes, z, before);
    after := before + ErasedColumn(r.g, Erasures(r), z, |Erasures(r)|);
    LateStart(r, planes, z, before, after);
    ErasuresUntold(r, z);
    clay.DecodeUncoupled(dag, Erasures(r), z, Read(r), before, true);
    UsedColumn(r, nodes, dag.nodes, z);
  }

  lemma ErasuresUntold(r: Repair, z: int)
    requires RepairOk(r) && Asked(r, z)
    ensures AllUntold(r.g, Read(r), Erasures(r), z)
  {
    forall e | e in Erasures(r) ensures Untold(r.g, Read(r), e, z) {
      GroupMember(r, e);
      if e in r.aloof {
        AloofApart(r, e);
      } else if !Unpaired(r.g, e, z) {
        LostMate(r, e, z);
      }
    }
  }

  lemma NoneUsed(r: Repair, nodes: Graph, z: int)
    requires RepairOk(r) && PlaneOk(r.g, z)
    ensures UsedBefore(r, nodes, z, 0, 0)
  {
    forall i | NodeOk(r.g, i) ensures !Before(r.g, i, 0, 0) { PlaceOk(r.g, i); }
  }

  lemma UsedColumn(r: Repair, before: Graph, nodes: Graph, z: int)
    requires RepairOk(r) && PlaneOk(r.g, z) && UsedBefore(r, before, z, 0, r.g.t) && Extends(before, nodes)
    requires forall i :: NodeOk(r.g, i) && i !in Erasures(r) ==> Ix(r.g, U(i, z)) in nodes
    ensures forall i :: NodeOk(r.g, i) && i !in Erasures(r) ==> Ix(r.g, C(i, z)) in nodes
  {
    forall i | NodeOk(r.g, i) && i !in Erasures(r) ensures Ix(r.g, C(i, z)) in nodes {
      PlaceOk(r.g, i);
      if Unpaired(r.g, i, z) { assert Ix(r.g, U(i, z)) == Ix(r.g, C(i, z)); }
    }
  }

  ghost predicate GroupUsed(r: Repair, nodes: Graph, z: int, seen: seq<int>)
    requires GeoOk(r.g) && PlaneOk(r.g, z)
  {
    forall i {:trigger Ix(r.g, C(i, z))} :: i in seen && Helper(r, i) ==> Ix(r.g, C(i, z)) in nodes
  }

  // The last third: coupled symbols of the lost node.
  method Recouple(clay: Clay, dag: ECDAG, r: Repair, z: int, ghost planes: set<int>,
                  ghost done: set<Sym>)
    returns (ghost after: set<Sym>)
    requires RepairOk(r) && clay.code.g == r.g && clay.Valid() && clay.Holds(dag, Read(r), done)
    requires Asked(r, z) && z !in planes && LateIs(r, planes, z, [], done) && Erasure(r.g, Erasures(r))
    modifies dag
    ensures clay.Holds(dag, Read(r), after) && Extends(old(dag.nodes), dag.nodes)
    ensures LateIs(r, planes, z, Erasures(r), after) && GroupUsed(r, dag.nodes, z, Erasures(r))
  {
    var erased := Erasures(r);
    after := done;
    var k := 0;
    while k < |erased|
      invariant 0 <= k <= |erased| && clay.Holds(dag, Read(r), after)
      invariant Extends(old(dag.nodes), dag.nodes)
      invariant LateIs(r, planes, z, erased[..k], after) && GroupUsed(r, dag.nodes, z, erased[..k])
    {
      var i := erased[k];
      assert i in erased && i !in erased[..k] && erased[..k + 1] == erased[..k] + [i];
      ghost var before, nodes := after, dag.nodes;
      after := StepErasure(clay, dag, r, i, z, planes, erased[..k], before);
      LateStep(r, planes, z, erased[..k], i, before, after);
      GroupStepUsed(r, nodes, dag.nodes, z, erased[..k], i);
      k := k + 1;
    }
    assert erased[..|erased|] == erased;
  }

  lemma GroupStepUsed(r: Repair, before: Graph, nodes: Graph, z: int, seen: seq<int>, i: int)
    requires RepairOk(r) && PlaneOk(r.g, z) && GroupUsed(r, before, z, seen) && Extends(before, nodes)
    requires Helper(r, i) ==> Ix(r.g, C(i, z)) in nodes
    ensures GroupUsed(r, nodes, z, seen + [i])
  {
  }

  method RepairPlane(clay: Clay, dag: ECDAG, r: Repair, z: int, ghost planes: set<int>,
                     ghost done: set<Sym>)
    returns (ghost after: set<Sym>)
    requires RepairOk(r) && clay.code.g == r.g && clay.Valid() && clay.Holds(dag, Read(r), done)
    requires Asked(r, z) && z !in planes && ReadyPlane(r, planes, z) && Solvable(clay.code, Erasures(r))
    requires DoneIs(r, planes, done)
    modifies dag
    ensures clay.Holds(dag, Read(r), after) && Extends(old(dag.nodes), dag.nodes)
    ensures DoneIs(r, planes + {z}, after) && AllUsed(r, dag.nodes, z)
  {
    after := Uncouple(clay, dag, r, z, planes, done);
    ErasuresOk(r);
    ghost var mid := dag.nodes;
    after := Recouple(clay, dag, r, z, planes, after);
    LateDone(r, planes, z, after);
    EveryHelper(r, mid, dag.nodes, z);
  }

  lemma EveryHelper(r: Repair, mid: Graph, nodes: Graph, z: int)
    requires RepairOk(r) && PlaneOk(r.g, z) && Extends(mid, nodes)
    requires forall i :: NodeOk(r.g, i) && i !in Erasures(r) ==> Ix(r.g, C(i, z)) in mid
    requires GroupUsed(r, nodes, z, Erasures(r))
    ensures AllUsed(r, nodes, z)
  {
  }

  // ------------------------------------------------------- the order of planes

  // The nodes whose unpaired symbols make up the order of a plane.
  function Red(r: Repair): seq<int> { [r.lost] + r.aloof }

  function OrderOf(r: Repair, z: int): nat
    requires GeoOk(r.g)
  {
    D.Score(r.g, Red(r), z)
  }

  // Partner planes of aloof nodes have an order one lower.
  lemma AloofPlaneEarlier(r: Repair, i: int, z: int)
    requires RepairOk(r) && NodeOk(r.g, i) && Asked(r, z) && i !in Erasures(r)
    requires !Unpaired(r.g, i, z) && MateNode(r.g, i, z) in r.aloof
    ensures Asked(r, MatePlane(r.g, i, z)) && OrderOf(r, MatePlane(r.g, i, z)) == OrderOf(r, z) - 1
  {
    GroupMember(r, i);
    GroupMember(r, r.lost);
    MateRead(r, i, z);
    D.MateScore(r.g, Red(r), i, z);
    assert MateNode(r.g, i, z) in Red(r);
    assert i !in Red(r);
  }

  // Working through the planes by increasing order keeps ahead of them.
  lemma OrderReady(r: Repair, planes: set<int>, z: int)
    requires RepairOk(r) && Asked(r, z)
    requires forall u :: Asked(r, u) && OrderOf(r, u) < OrderOf(r, z) ==> u in planes
    ensures ReadyPlane(r, planes, z)
  {
    forall i | NodeOk(r.g, i) ensures ReadyNode(r, planes, i, z) {
      if i !in Erasures(r) && !Unpaired(r.g, i, z) && MateNode(r.g, i, z) in r.aloof { AloofPlaneEarlier(r, i, z); }
    }
  }

  // The planes of one order, in the order in which they were listed.
  function WithOrder(r: Repair, planes: seq<int>, o: int): seq<int>
    requires GeoOk(r.g)
  {
    if planes == [] then []
    else
      var n := |planes| - 1;
      WithOrder(r, planes[..n], o) + if OrderOf(r, planes[n]) == o then [planes[n]] else []
  }

  lemma {:induction false} WithOrderMembers(r: Repair, planes: seq<int>, o: int)
    requires GeoOk(r.g)
    ensures forall z :: z in WithOrder(r, planes, o) <==> z in planes && OrderOf(r, z) == o
    ensures NoDup(planes) ==> NoDup(WithOrder(r, planes, o))
  {
    if planes != [] {
      var n := |planes| - 1;
      WithOrderMembers(r, planes[..n], o);
      assert planes == planes[..n] + [planes[n]];
      if NoDup(planes) { assert planes[n] !in planes[..n]; }
    }
  }

  ghost predicate GroupAt(r: Repair, planes: seq<int>, m: map<int, seq<int>>, o: int)
    requires GeoOk(r.g)
  {
    && (o in m <==> WithOrder(r, planes, o) != [])
    && (o in m ==> m[o] == WithOrder(r, planes, o))
  }

  ghost predicate Groups(r: Repair, planes: seq<int>, m: map<int, seq<int>>)
    requires GeoOk(r.g)
  {
    forall o {:trigger GroupAt(r, planes, m, o)} :: GroupAt(r, planes, m, o)
  }

  lemma GroupStep(r: Repair, planes: seq<int>, i: nat, m: map<int, seq<int>>, after: map<int, seq<int>>)
    requires GeoOk(r.g) && i < |planes| && Groups(r, planes[..i], m)
    requires var o := OrderOf(r, planes[i]); after == m[o := (if o in m then m[o] else []) + [planes[i]]]
    ensures Groups(r, planes[..i + 1], after)
  {
    var p := planes[..i + 1];
    assert p[..i] == planes[..i];
    forall o ensures GroupAt(r, p, after, o) {
      assert GroupAt(r, planes[..i], m, o);
    }
  }

  // The runs of get_repair_subchunks, plane by plane.
  method ListPlanes(r: Repair) returns (planes: seq<int>)
    requires RepairOk(r)
    ensures NoDup(planes) && |planes| == P.Pow(r.g.q, r.g.t - 1)
    ensures forall z :: z in planes <==> Asked(r, z)
  {
    PlaceOk(r.g, r.lost);
    var runs := P.GetRepairSubchunks(r.g.q, r.g.t, r.lost);
    planes := ExpandRuns(runs);
    P.RepairPlanes(r.g.q, r.g.t, r.lost / r.g.q, r.lost % r.g.q);
  }

  method ExpandRuns(runs: seq<(int, int)>) returns (planes: seq<int>)
    requires forall i :: 0 <= i < |runs| ==> runs[i].1 >= 1
    ensures planes == P.Listed(runs)
  {
    planes := [];
    var i := 0;
    while i < |runs|
      invariant 0 <= i <= |runs| && planes == P.Listed(runs[..i])
    {
      assert runs[..i + 1][..i] == runs[..i];
      var j := 0;
      ghost var before := planes;
      while j < runs[i].1
        invariant 0 <= j <= runs[i].1 && planes == before + P.Range(runs[i].0, j)
      {
        planes := planes + [runs[i].0 + j];
        j := j + 1;
      }
      i := i + 1;
    }
    assert runs[..|runs|] == runs;
  }

  method GroupPlanes(clay: Clay, r: Repair, planes: seq<int>) returns (m: map<int, seq<int>>)
    requires RepairOk(r) && clay.Valid() && clay.code.g == r.g && forall z :: z in planes ==> Asked(r, z)
    ensures Groups(r, planes, m)
  {
    m := map[];
    var i := 0;
    while i < |planes|
      invariant 0 <= i <= |planes| && Groups(r, planes[..i], m)
    {
      assert planes[i] in planes;
      var o := PlaneOrder(r, planes[i]);
      ghost var before := m;
      if o !in m {
        assert [] + [planes[i]] == [planes[i]];
        m := m[o := [planes[i]]];
      } else {
        m := m[o := m[o] + [planes[i]]];
      }
      GroupStep(r, planes, i, before, m);
      i := i + 1;
    }
    assert planes[..|planes|] == planes;
  }

  // How many of the lost and aloof nodes are unpaired in plane z.
  method PlaneOrder(r: Repair, z: int) returns (order: int)
    requires RepairOk(r) && PlaneOk(r.g, z)
    ensures order == OrderOf(r, z)
  {
    var vec := P.GetPlaneVector(r.g.q, r.g.t, z);
    var red := Red(r);
    RedOk(r);
    order := 0;
    var i := 0;
    D.NoHits(r.g, z);
    while i < |red|
      invariant 0 <= i <= |red| && order == D.Score(r.g, red[..i], z)
    {
      PlaceOk(r.g, red[i]);
      D.HitStep(r.g, red, i, z);
      if red[i] % r.g.q == vec[red[i] / r.g.q] { order := order + 1; }
      i := i + 1;
    }
    assert red[..|red|] == red;
  }

  lemma RedOk(r: Repair)
    requires RepairOk(r)
    ensures NoDup(Red(r)) && forall i :: 0 <= i < |Red(r)| ==> NodeOk(r.g, Red(r)[i])
  {
    var red := Red(r);
    forall a, b | 0 <= a < b < |red| ensures red[a] != red[b] {
      if a == 0 { assert red[b] == r.aloof[b - 1]; }
    }
  }

  // -------------------------------------------------------------- the whole

  ghost predicate UsedPlanes(r: Repair, nodes: Graph, planes: set<int>)
    requires GeoOk(r.g)
  {
    forall z {:trigger AllUsed(r, nodes, z)} :: z in planes && PlaneOk(r.g, z) ==> AllUsed(r, nodes, z)
  }

  lemma UsedKept(r: Repair, before: Graph, nodes: Graph, planes: set<int>, z: int)
    requires GeoOk(r.g) && PlaneOk(r.g, z) && UsedPlanes(r, before, planes) && Extends(before, nodes) && AllUsed(r, nodes, z)
    ensures UsedPlanes(r, nodes, planes + {z})
  {
    forall a | a in planes + {z} && PlaneOk(r.g, a) ensures AllUsed(r, nodes, a) {
      if a != z { assert AllUsed(r, before, a); }
    }
  }

  // The planes of the orders in os.
  ghost function OfOrders(r: Repair, os: seq<int>): (s: set<int>)
    requires GeoOk(r.g) && NodeOk(r.g, r.lost)
    ensures forall z :: z in s <==> Asked(r, z) && OrderOf(r, z) in os
  {
    set z | 0 <= z < SubChunks(r.g) && Asked(r, z) && OrderOf(r, z) in os
  }

  lemma NextInOrder(r: Repair, planes: set<int>, list: seq<int>, o: int, b: nat)
    requires RepairOk(r) && NoDup(list) && b < |list|
    requires forall z :: z in list ==> Asked(r, z) && OrderOf(r, z) == o && z !in planes
    requires forall u :: Asked(r, u) && OrderOf(r, u) < o ==> u in planes
    ensures Asked(r, list[b]) && list[b] !in planes + AsSet(list[..b])
    ensures ReadyPlane(r, planes + AsSet(list[..b]), list[b])
    ensures planes + AsSet(list[..b + 1]) == planes + AsSet(list[..b]) + {list[b]}
  {
    var z := list[b];
    assert z in list && z !in list[..b] && list[..b + 1] == list[..b] + [z];
    OrderReady(r, planes + AsSet(list[..b]), z);
  }

  method RepairOrder(clay: Clay, dag: ECDAG, r: Repair, list: seq<int>, ghost o: int, ghost planes: set<int>,
                     ghost done: set<Sym>)
    returns (ghost after: set<Sym>)
    requires RepairOk(r) && clay.code.g == r.g && clay.Valid() && clay.Holds(dag, Read(r), done)
    requires Solvable(clay.code, Erasures(r)) && NoDup(list)
    requires forall z :: z in list ==> Asked(r, z) && OrderOf(r, z) == o && z !in planes
    requires forall u :: Asked(r, u) && OrderOf(r, u) < o ==> u in planes
    requires DoneIs(r, planes, done) && UsedPlanes(r, dag.nodes, planes)
    modifies dag
    ensures clay.Holds(dag, Read(r), after)
    ensures DoneIs(r, planes + AsSet(list), after) && UsedPlanes(r, dag.nodes, planes + AsSet(list))
  {
    after := done;
    var b := 0;
    assert planes + AsSet(list[..0]) == planes;
    while b < |list|
      invariant 0 <= b <= |list| && clay.Holds(dag, Read(r), after)
      invariant DoneIs(r, planes + AsSet(list[..b]), after)
      invariant UsedPlanes(r, dag.nodes, planes + AsSet(list[..b]))
    {
      NextInOrder(r, planes, list, o, b);
      ghost var nodes, now := dag.nodes, planes + AsSet(list[..b]);
      after := RepairPlane(clay, dag, r, list[b], now, after);
      UsedKept(r, nodes, dag.nodes, now, list[b]);
      b := b + 1;
    }
    assert list[..|list|] == list;
  }

  // The orders that occur, smallest first.
  method OrderList(m: map<int, seq<int>>) returns (os: seq<int>)
    ensures T.Increasing(os) && NoDup(os) && forall o :: o in os <==> o in m
  {
    var keys: seq<int> := [];
    var todo := m.Keys;
    while todo != {}
      invariant todo <= m.Keys && NoDup(keys)
      invariant forall o :: o in keys <==> o in m && o !in todo
      decreases |todo|
    {
      NonEmpty(todo);
      var o :| o in todo;
      todo := todo - {o};
      keys := keys + [o];
    }
    os := T.Sorted(keys);
    T.SortedMembers(keys);
  }

  // What a repair joins: every sub-chunk of the lost node, and in the planes
  // that are read the uncoupled symbols of all nodes.
  predicate Joined(r: Repair, s: Sym)
    requires GeoOk(r.g) && NodeOk(r.g, r.lost)
  {
    SymOk(r.g, s) &&
    match s
    case U(i, z) => Asked(r, z) && !Unpaired(r.g, i, z)
    case C(i, z) => i == r.lost || (i in r.aloof && Asked(r, z) && Unpaired(r.g, i, z))
  }

  // Repair of one lost node: the DAG joins every sub-chunk of it exactly once
  // by a true identity, and its leaves are exactly the asked sub-chunks of the
  // helpers.
  method RepairOneLostChunk(clay: Clay, dag: ECDAG, r: Repair) returns (ghost done: set<Sym>)
    requires RepairOk(r) && clay.code.g == r.g && clay.Valid() && dag.Valid() && dag.nodes == map[] && dag.joins == multiset{}
    requires Solvable(clay.code, Erasures(r))
    modifies dag
    ensures dag.Valid() && Decoded(clay.code, Read(r), done, dag.nodes, dag.joins)
    ensures forall s {:trigger s in done} :: s in done <==> Joined(r, s)
    ensures forall s {:trigger s in Read(r)} :: s in Read(r) ==> Ix(r.g, s) in dag.nodes && dag.nodes[Ix(r.g, s)].children == []
    ensures forall s {:trigger s in done} :: s in done ==> Ruled(r.g, Read(r), dag.nodes, s)
  {
    var planes := ListPlanes(r);
    var m := GroupPlanes(clay, r, planes);
    var os := OrderList(m);
    done := {};
    var a := 0;
    StartEmpty(r);
    clay.Start(dag, Read(r));
    while a < |os|
      invariant 0 <= a <= |os| && clay.Holds(dag, Read(r), done)
      invariant DoneIs(r, OfOrders(r, os[..a]), done) && UsedPlanes(r, dag.nodes, OfOrders(r, os[..a]))
    {
      NextOrder(r, planes, m, os, a);
      done := RepairOrder(clay, dag, r, m[os[a]], os[a], OfOrders(r, os[..a]), done);
      a := a + 1;
    }
    assert os[..|os|] == os;
    AllOrders(r, planes, m, os);
    LostRecovered(r, OfOrders(r, os), done);
    clay.Open(dag, Read(r), done, true);
    OpenRuled(r.g, Read(r), done, dag.nodes);
    ReadIsUsed(clay.code, r, OfOrders(r, os), done, dag.nodes, dag.joins);
  }

  lemma StartEmpty(r: Repair)
    requires RepairOk(r)
    ensures OfOrders(r, []) == {} && DoneIs(r, {}, {}) && UsedPlanes(r, map[], {})
  {
  }

  lemma NextOrder(r: Repair, planes: seq<int>, m: map<int, seq<int>>, os: seq<int>, a: nat)
    requires RepairOk(r) && Groups(r, planes, m) && NoDup(planes) && forall z :: z in planes <==> Asked(r, z)
    requires T.Increasing(os) && NoDup(os) && (forall o :: o in os <==> o in m) && a < |os|
    ensures os[a] in m && NoDup(m[os[a]])
    ensures forall z :: z in m[os[a]] <==> Asked(r, z) && OrderOf(r, z) == os[a]
    ensures forall z :: z in m[os[a]] ==> z !in OfOrders(r, os[..a])
    ensures forall u :: Asked(r, u) && OrderOf(r, u) < os[a] ==> u in OfOrders(r, os[..a])
    ensures OfOrders(r, os[..a + 1]) == OfOrders(r, os[..a]) + AsSet(m[os[a]])
  {
    var o := os[a];
    assert o in os && o !in os[..a] && os[..a + 1] == os[..a] + [o];
    assert GroupAt(r, planes, m, o);
    WithOrderMembers(r, planes, o);
    forall u | Asked(r, u) && OrderOf(r, u) < o ensures u in OfOrders(r, os[..a]) {
      var c := OrderOf(r, u);
      WithOrderMembers(r, planes, c);
      assert GroupAt(r, planes, m, c);
      assert u in WithOrder(r, planes, c);
      var b :| 0 <= b < |os| && os[b] == c;
      assert b < a;
      assert os[..a][b] == c;
    }
  }

  lemma AllOrders(r: Repair, planes: seq<int>, m: map<int, seq<int>>, os: seq<int>)
    requires RepairOk(r) && Groups(r, planes, m) && forall z :: z in planes <==> Asked(r, z)
    requires forall o :: o in os <==> o in m
    ensures forall z :: z in OfOrders(r, os) <==> Asked(r, z)
  {
    forall z | Asked(r, z) ensures z in OfOrders(r, os) {
      var o := OrderOf(r, z);
      WithOrderMembers(r, planes, o);
      assert GroupAt(r, planes, m, o);
      assert z in WithOrder(r, planes, o);
    }
  }

  lemma LostRecovered(r: Repair, planes: set<int>, done: set<Sym>)
    requires RepairOk(r) && DoneIs(r, planes, done) && forall z :: z in planes <==> Asked(r, z)
    ensures forall s {:trigger s in done} :: s in done <==> Joined(r, s)
  {
    forall s ensures s in done <==> Joined(r, s) {
      if SymOk(r.g, s) && !Unpaired(r.g, r.lost, s.z) { Mates(r.g, r.lost, s.z); }
      assert s in done <==> Made(r, planes, s);
    }
  }

  lemma ReadIsUsed(cd: Code, r: Repair, planes: set<int>, done: set<Sym>, nodes: Graph, joins: multiset<int>)
    requires RepairOk(r) && cd.g == r.g && UsedPlanes(r, nodes, planes) && forall z :: z in planes <==> Asked(r, z)
    requires Decoded(cd, Read(r), done, nodes, joins)
    ensures forall s {:trigger s in Read(r)} :: s in Read(r) ==> Ix(r.g, s) in nodes && nodes[Ix(r.g, s)].children == []
  {
    forall s | s in Read(r) ensures Ix(r.g, s) in nodes && nodes[Ix(r.g, s)].children == [] {
      assert AllUsed(r, nodes, s.z);
      IxIn(r.g, Read(r), s);
    }
  }

  // Each helper reads q^(t-1) of its q^t sub-chunks.
  lemma AskedCount(r: Repair)
    requires RepairOk(r)
    ensures |set z | 0 <= z < SubChunks(r.g) && Asked(r, z)| == P.Pow(r.g.q, r.g.t - 1)
  {
    PlaceOk(r.g, r.lost);
    var planes := P.Listed(P.Runs(r.g.q, r.g.t, r.lost / r.g.q, r.lost % r.g.q));
    P.RepairPlanes(r.g.q, r.g.t, r.lost / r.g.q, r.lost % r.g.q);
    SetOfSeq(planes);
    assert (set z | 0 <= z < SubChunks(r.g) && Asked(r, z)) == set z | z in planes;
  }

  // A shortened node stores nothing, it is zero by definition.
  predicate Stores(r: Repair, i: int) { NodeOk(r.g, i) && !(r.g.k <= i < Data(r.g)) }

  function Block(a: int, b: int): (r: set<int>)
    requires a <= b
    ensures |r| == b - a && forall v :: v in r <==> a <= v < b
    decreases b - a
  {
    if a == b then {} else Block(a, b - 1) + {b - 1}
  }

  ghost function Grid(nodes: set<int>, planes: set<int>): (r: set<Sym>)
    ensures forall s :: s in r <==> s.C? && s.node in nodes && s.z in planes
  {
    set i, z | i in nodes && z in planes :: C(i, z)
  }

  lemma {:induction false} GridSize(nodes: set<int>, planes: set<int>)
    ensures |Grid(nodes, planes)| == |nodes| * |planes|
    decreases |nodes|
  {
    if nodes == {} {
      assert Grid(nodes, planes) == {};
    } else {
      NonEmpty(nodes);
      var i :| i in nodes;
      var rest := nodes - {i};
      GridSize(rest, planes);
      RowSize(i, planes);
      assert Grid(nodes, planes) == Grid(rest, planes) + Grid({i}, planes);
      assert Grid(rest, planes) !! Grid({i}, planes);
      assert |nodes| == |rest| + 1;
      assert (|rest| + 1) * |planes| == |rest| * |planes| + |planes|;
    }
  }

  lemma {:induction false} RowSize(i: int, planes: set<int>)
    ensures |Grid({i}, planes)| == |planes|
    decreases |planes|
  {
    if planes == {} {
      assert Grid({i}, planes) == {};
    } else {
      NonEmpty(planes);
      var z :| z in planes;
      RowSize(i, planes - {z});
      assert Grid({i}, planes) == Grid({i}, planes - {z}) + {C(i, z)};
    }
  }

  ghost function Helpers(r: Repair): (h: set<int>)
    ensures forall i :: i in h <==> Helper(r, i) && Stores(r, i)
  {
    set i | 0 <= i < Nodes(r.g) && Helper(r, i) && Stores(r, i)
  }

  // The nodes that store something, and those of them that do not help.
  function Storing(g: Geo): (r: set<int>)
    requires g.k <= g.n
    ensures |r| == g.n && forall v :: v in r <==> 0 <= v < g.n + g.nu && !(g.k <= v < g.k + g.nu)
  {
    assert Block(0, g.k) !! Block(g.k + g.nu, g.n + g.nu);
    Block(0, g.k) + Block(g.k + g.nu, g.n + g.nu)
  }

  lemma OutCount(r: Repair)
    requires RepairOk(r) && Stores(r, r.lost) && forall i :: 0 <= i < |r.aloof| ==> Stores(r, r.aloof[i])
    ensures |{r.lost} + AsSet(r.aloof)| == 1 + |r.aloof|
    ensures forall v :: v in {r.lost} + AsSet(r.aloof) ==> v in Storing(r.g)
  {
    LostNotAloof(r);
    SetOfSeq(r.aloof);
    assert AsSet(r.aloof) == set e | e in r.aloof;
    forall v | v in AsSet(r.aloof) ensures v in Storing(r.g) {
      var i :| 0 <= i < |r.aloof| && r.aloof[i] == v;
    }
  }

  lemma HelperCount(r: Repair)
    requires RepairOk(r) && Stores(r, r.lost) && forall i :: 0 <= i < |r.aloof| ==> Stores(r, r.aloof[i])
    ensures |Helpers(r)| == r.g.n - 1 - |r.aloof|
  {
    OutCount(r);
    MinusSize(Storing(r.g), {r.lost} + AsSet(r.aloof));
    HelpersAre(r);
  }

  lemma HelpersAre(r: Repair)
    requires GeoOk(r.g)
    ensures Helpers(r) == Storing(r.g) - ({r.lost} + AsSet(r.aloof))
  {
  }

  // In all, a repair reads from the n - 1 - |aloof| = d helpers that store
  // something a q-th of what they store: with every live node a helper,
  // (n - 1) * w / q sub-chunks.
  lemma ReadCount(r: Repair)
    requires RepairOk(r) && Stores(r, r.lost) && forall i :: 0 <= i < |r.aloof| ==> Stores(r, r.aloof[i])
    ensures var d, read := r.g.n - 1 - |r.aloof|, set s | s in Read(r) && Stores(r, s.node);
      && |read| == d * P.Pow(r.g.q, r.g.t - 1)
      && |read| * r.g.q == d * SubChunks(r.g)
  {
    var planes := set z | 0 <= z < SubChunks(r.g) && Asked(r, z);
    HelperCount(r);
    AskedCount(r);
    GridSize(Helpers(r), planes);
    assert (set s | s in Read(r) && Stores(r, s.node)) == Grid(Helpers(r), planes);
    Shares(r.g.n - 1 - |r.aloof|, P.Pow(r.g.q, r.g.t - 1), r.g.q);
  }

  lemma Shares(d: int, p: int, q: int)
    ensures d * p * q == d * (q * p)
  {
  }

  lemma LostNotAloof(r: Repair)
    requires RepairOk(r)
    ensures r.lost !in r.aloof
  {
    if r.lost in r.aloof { AloofApart(r, r.lost); }
  }

  // Evaluating the DAG from the asked sub-chunks gives every sub-chunk of the
  // lost node, and the asked sub-chunks are exactly the leaves.
  lemma LostIsRight(cd: Code, val: int -> Byte, r: Repair, done: set<Sym>, nodes: Graph, joins: multiset<int>,
                    rank: map<int, nat>, leaf: int -> Byte, z: int)
    requires RepairOk(r) && cd.g == r.g && Word(cd, val) && Decoded(cd, Read(r), done, nodes, joins) && Ranked(nodes, rank)
    requires forall u :: PlaneOk(r.g, u) ==> C(r.lost, u) in done
    requires forall s {:trigger s in Read(r)} :: s in Read(r) ==> Ix(r.g, s) in nodes && nodes[Ix(r.g, s)].children == []
    requires forall s :: s in Read(r) ==> leaf(Ix(r.g, s)) == val(Ix(r.g, s))
    requires PlaneOk(r.g, z)
    ensures Ix(r.g, C(r.lost, z)) in nodes && Value(cd.f, nodes, rank, leaf, Ix(r.g, C(r.lost, z))) == val(Ix(r.g, C(r.lost, z)))
    ensures forall v :: v in nodes && nodes[v].children == [] <==> v in Ixs(r.g, Read(r))
  {
    assert C(r.lost, z) in done;
    SymbolIsRight(cd, val, Read(r), done, nodes, joins, rank, leaf, C(r.lost, z));
  }
}
