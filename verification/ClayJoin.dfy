// src/ec/Clay.cc: the functions that join one symbol of a pair, and the MDS
// decoding of one plane.
module ClayJoin {
  import opened Util
  import opened GF
  import opened Dag
  import opened Join
  import opened EcDag
  import opened Decoding
  import opened Matrix
  import P = Planes
  import opened ClayIndex
  import opened ClayCode

  // The nodes below n that are not erased.
  function Survivors(erased: seq<int>, n: nat): seq<int> {
    if n == 0 then [] else Survivors(erased, n - 1) + if n - 1 in erased then [] else [n - 1]
  }

  lemma {:induction false} SurvivorFacts(erased: seq<int>, n: nat)
    ensures forall v :: v in Survivors(erased, n) <==> 0 <= v < n && v !in erased
    ensures forall i :: 0 <= i < |Survivors(erased, n)| ==> 0 <= Survivors(erased, n)[i] < n
    ensures forall i :: 0 <= i < |Survivors(erased, n)| ==> Survivors(erased, n)[i] !in erased
  {
    if n > 0 { SurvivorFacts(erased, n - 1); }
  }

  lemma {:induction false} SurvivorsGrow(erased: seq<int>, a: nat, b: nat)
    requires a <= b
    ensures |Survivors(erased, a)| <= |Survivors(erased, b)|
    ensures |Survivors(erased, a)| == |Survivors(erased, b)| ==> Survivors(erased, a) == Survivors(erased, b)
  {
    if a < b { SurvivorsGrow(erased, a, b - 1); }
  }

  function ErasedBelow(erased: seq<int>, n: int): set<int> { set e | e in erased && 0 <= e < n }

  lemma ErasedStep(erased: seq<int>, n: nat)
    ensures |ErasedBelow(erased, 0)| == 0
    ensures |ErasedBelow(erased, n + 1)| == |ErasedBelow(erased, n)| + if n in erased then 1 else 0
  {
    assert ErasedBelow(erased, 0) == {};
    assert ErasedBelow(erased, n + 1) ==
      if n in erased then ErasedBelow(erased, n) + {n} else ErasedBelow(erased, n);
  }

  lemma {:induction false} SurvivorCount(erased: seq<int>, n: nat)
    ensures |Survivors(erased, n)| == n - |ErasedBelow(erased, n)|
  {
    if n == 0 {
      ErasedStep(erased, 0);
    } else {
      SurvivorCount(erased, n - 1);
      ErasedStep(erased, n - 1);
    }
  }

  lemma {:induction false} SetOfSeq(s: seq<int>)
    requires NoDup(s)
    ensures |set e | e in s| == |s|
  {
    if s == [] {
      assert (set e | e in s) == {};
    } else {
      var n := |s| - 1;
      SetOfSeq(s[..n]);
      assert s == s[..n] + [s[n]] && s[n] !in s[..n];
      assert (set e | e in s) == (set e | e in s[..n]) + {s[n]};
    }
  }

  predicate Erasure(g: Geo, erased: seq<int>) {
    |erased| == Parity(g) && NoDup(erased) && forall e :: e in erased ==> NodeOk(g, e)
  }

  // With as many erasures as there are parity nodes, the survivors are as
  // many as the data nodes.
  lemma EnoughSurvive(g: Geo, erased: seq<int>)
    requires GeoOk(g) && Erasure(g, erased)
    ensures |Survivors(erased, Nodes(g))| == Data(g)
  {
    SurvivorCount(erased, Nodes(g));
    SetOfSeq(erased);
    assert ErasedBelow(erased, Nodes(g)) == set e | e in erased;
  }

  function SurvivorRows(cd: Code, erased: seq<int>): Mat
    requires GeoOk(cd.g)
  {
    SurvivorFacts(erased, Nodes(cd.g));
    Select(Generator(cd.f, Nodes(cd.g), Data(cd.g)), Survivors(erased, Nodes(cd.g)))
  }

  // The rows of the survivors have an inverse.
  ghost predicate Solvable(cd: Code, erased: seq<int>)
    requires GeoOk(cd.g)
  {
    exists p :: LeftInverse(cd.f, p, SurvivorRows(cd, erased), Data(cd.g))
  }

  function Column(g: Geo, nodes: seq<int>, z: int): (r: seq<Sym>)
    ensures |r| == |nodes| && forall i :: 0 <= i < |nodes| ==> r[i] == U(nodes[i], z)
  {
    seq(|nodes|, i requires 0 <= i < |nodes| => U(nodes[i], z))
  }

  // The uncoupled symbols of the first n erased nodes in plane z.
  ghost function ErasedColumn(g: Geo, erased: seq<int>, z: int, n: nat): (r: set<Sym>)
    requires GeoOk(g) && n <= |erased| && forall e :: e in erased ==> SymOk(g, U(e, z))
    ensures forall s :: s in r <==> exists i :: 0 <= i < n && s == Canon(g, U(erased[i], z))
  {
    set i | 0 <= i < n :: Canon(g, U(erased[i], z))
  }

  lemma ErasedColumnStep(g: Geo, erased: seq<int>, z: int, n: nat)
    requires GeoOk(g) && n < |erased| && NoDup(erased) && forall e :: e in erased ==> SymOk(g, U(e, z))
    ensures ErasedColumn(g, erased, z, 0) == {}
    ensures SymOk(g, U(erased[n], z))
    ensures ErasedColumn(g, erased, z, n + 1) == ErasedColumn(g, erased, z, n) + {Canon(g, U(erased[n], z))}
    ensures Canon(g, U(erased[n], z)) !in ErasedColumn(g, erased, z, n)
  {
    assert erased[n] in erased;
    forall i | 0 <= i < n ensures Canon(g, U(erased[i], z)) != Canon(g, U(erased[n], z)) {
      assert erased[i] in erased;
    }
  }

  lemma ColumnOk(g: Geo, nodes: seq<int>, z: int)
    requires GeoOk(g) && PlaneOk(g, z) && forall i :: 0 <= i < |nodes| ==> NodeOk(g, nodes[i])
    ensures AllOk(g, Column(g, nodes, z))
  {
  }

  lemma ColumnValues(cd: Code, val: int -> Byte, lines: seq<int>, z: int)
    requires CodeOk(cd) && Word(cd, val) && PlaneOk(cd.g, z)
    requires forall i :: 0 <= i < |lines| ==> 0 <= lines[i] < Nodes(cd.g)
    ensures AllOk(cd.g, Column(cd.g, lines, z))
    ensures var xs := IxAll(cd.g, Column(cd.g, lines, z));
      var sel := Select(Generator(cd.f, Nodes(cd.g), Data(cd.g)), lines);
      forall i :: 0 <= i < |lines| ==> val(xs[i]) == Dot(cd.f, sel[i], DataOf(cd, val, z))
  {
    ColumnOk(cd.g, lines, z);
    forall i | 0 <= i < |lines|
      ensures val(Ix(cd.g, U(lines[i], z)))
           == Dot(cd.f, Generator(cd.f, Nodes(cd.g), Data(cd.g))[lines[i]], DataOf(cd, val, z))
    {
      EveryRow(cd, val, lines[i], z);
    }
  }

  // In one plane, the uncoupled symbol of any node is a combination of those
  // of the survivors.
  lemma PlaneIdentity(cd: Code, val: int -> Byte, erased: seq<int>, e: int, z: int)
    requires CodeOk(cd) && Word(cd, val) && Erasure(cd.g, erased) && Solvable(cd, erased)
    requires SymOk(cd.g, U(e, z))
    ensures var sel := SurvivorRows(cd, erased);
      LeftInverse(cd.f, cd.invert(sel), sel, Data(cd.g))
    ensures AllOk(cd.g, Column(cd.g, Survivors(erased, Nodes(cd.g)), z))
    ensures var xs := IxAll(cd.g, Column(cd.g, Survivors(erased, Nodes(cd.g)), z));
      val(Ix(cd.g, U(e, z))) == Comb(cd.f,
        RowTimes(cd.f, Generator(cd.f, Nodes(cd.g), Data(cd.g))[e], cd.invert(SurvivorRows(cd, erased)), Data(cd.g)), xs, val)
  {
    var lines := Survivors(erased, Nodes(cd.g));
    EnoughSurvive(cd.g, erased);
    SurvivorFacts(erased, Nodes(cd.g));
    ColumnValues(cd, val, lines, z);
    EveryRow(cd, val, e, z);
    var sel := SurvivorRows(cd, erased);
    var p :| LeftInverse(cd.f, p, sel, Data(cd.g));
    SolveColumn(cd.f, cd.invert(sel), sel, Generator(cd.f, Nodes(cd.g), Data(cd.g))[e], DataOf(cd, val, z),
                IxAll(cd.g, Column(cd.g, lines, z)), val);
  }

  lemma SolveColumn(f: Field, inverse: Mat, sel: Mat, e: Row, data: Row, xs: seq<int>, val: int -> Byte)
    requires IsField(f) && LeftInverse(f, inverse, sel, |data|) && |e| == |data| == |xs|
    requires forall i :: 0 <= i < |xs| ==> val(xs[i]) == Dot(f, sel[i], data)
    ensures Comb(f, RowTimes(f, e, inverse, |data|), xs, val) == Dot(f, e, data)
  {
    RecoverFrom(f, inverse, sel, e, data, ValuesOf(val, xs));
    CombIsDot(f, RowTimes(f, e, inverse, |data|), xs, val);
  }

  lemma PairEncoded(cd: Code, val: int -> Byte, i: int, z: int, k: int)
    requires CodeOk(cd) && Word(cd, val) && SymOk(cd.g, C(i, z)) && !Unpaired(cd.g, i, z) && Upper(cd.g, i, z)
    requires 2 <= k < 4
    ensures SymOk(cd.g, PairSym(cd.g, i, z, 0)) && SymOk(cd.g, PairSym(cd.g, i, z, 1)) && SymOk(cd.g, PairSym(cd.g, i, z, k))
    ensures var xs := [Ix(cd.g, PairSym(cd.g, i, z, 0)), Ix(cd.g, PairSym(cd.g, i, z, 1))];
      val(Ix(cd.g, PairSym(cd.g, i, z, k))) == Comb(cd.f, PairMatrix(cd.f)[k], xs, val)
  {
    PairRow(cd, val, i, z, k);
    PairSymOk(cd.g, i, z, 0);
    PairSymOk(cd.g, i, z, 1);
    var xs := [Ix(cd.g, PairSym(cd.g, i, z, 0)), Ix(cd.g, PairSym(cd.g, i, z, 1))];
    CombIsDot(cd.f, PairMatrix(cd.f)[k], xs, val);
    DotAgrees(cd.f, PairMatrix(cd.f)[k], ValuesOf(val, xs), PairData(cd, val, i, z));
  }

  lemma PairDecoded(cd: Code, val: int -> Byte, i: int, z: int, k: int)
    requires CodeOk(cd) && Word(cd, val) && SymOk(cd.g, C(i, z)) && !Unpaired(cd.g, i, z) && Upper(cd.g, i, z)
    requires 0 <= k < 2
    ensures SymOk(cd.g, PairSym(cd.g, i, z, 2)) && SymOk(cd.g, PairSym(cd.g, i, z, 3)) && SymOk(cd.g, PairSym(cd.g, i, z, k))
    ensures CodeShape(cd, 2, 3)
    ensures var xs := [Ix(cd.g, PairSym(cd.g, i, z, 2)), Ix(cd.g, PairSym(cd.g, i, z, 3))];
      val(Ix(cd.g, PairSym(cd.g, i, z, k))) == Comb(cd.f, cd.invert(Select(PairMatrix(cd.f), [2, 3]))[k], xs, val)
  {
    PairInverse(cd.f, cd.invert, 2, 3);
    PairRow(cd, val, i, z, 2);
    PairRow(cd, val, i, z, 3);
    PairSymOk(cd.g, i, z, 0);
    PairSymOk(cd.g, i, z, 1);
    var sel, data := Select(PairMatrix(cd.f), [2, 3]), PairData(cd, val, i, z);
    var xs := [Ix(cd.g, PairSym(cd.g, i, z, 2)), Ix(cd.g, PairSym(cd.g, i, z, 3))];
    var row := cd.invert(sel)[k];
    CombIsDot(cd.f, row, xs, val);
    DotAgrees(cd.f, row, ValuesOf(val, xs), Apply(cd.f, sel, data));
    UndoAt(cd.f, row, sel, data, k);
  }

  // The identities behind the Joins, in every word.
  lemma PairIdentities(cd: Code, i: int, z: int, a: int, b: int, k: int)
    requires CodeOk(cd) && SymOk(cd.g, C(i, z)) && !Unpaired(cd.g, i, z) && Upper(cd.g, i, z)
    requires Solved(a, b) && 0 <= k < 4
    ensures CodeShape(cd, a, b)
    ensures SymOk(cd.g, PairSym(cd.g, i, z, k)) && SymOk(cd.g, PairSym(cd.g, i, z, a)) && SymOk(cd.g, PairSym(cd.g, i, z, b))
    ensures Identity(cd.f, WordsOf(cd), Ix(cd.g, PairSym(cd.g, i, z, k)),
                     [Ix(cd.g, PairSym(cd.g, i, z, a)), Ix(cd.g, PairSym(cd.g, i, z, b))], PairCoefs(cd, a, b, k))
  {
    PairInverse(cd.f, cd.invert, a, b);
    PairSymOk(cd.g, i, z, a);
    PairSymOk(cd.g, i, z, b);
    PairSymOk(cd.g, i, z, k);
    forall val: int -> Byte {:trigger WordsOf(cd)(val)} | WordsOf(cd)(val)
      ensures val(Ix(cd.g, PairSym(cd.g, i, z, k)))
           == Comb(cd.f, PairCoefs(cd, a, b, k), [Ix(cd.g, PairSym(cd.g, i, z, a)), Ix(cd.g, PairSym(cd.g, i, z, b))], val)
    {
      PairIdentity(cd, val, i, z, a, b, k);
    }
  }

  lemma EncodeIdentities(cd: Code, i: int, z: int, k: int)
    requires CodeOk(cd) && SymOk(cd.g, C(i, z)) && !Unpaired(cd.g, i, z) && Upper(cd.g, i, z) && 2 <= k < 4
    ensures SymOk(cd.g, PairSym(cd.g, i, z, 0)) && SymOk(cd.g, PairSym(cd.g, i, z, 1)) && SymOk(cd.g, PairSym(cd.g, i, z, k))
    ensures Identity(cd.f, WordsOf(cd), Ix(cd.g, PairSym(cd.g, i, z, k)),
                     [Ix(cd.g, PairSym(cd.g, i, z, 0)), Ix(cd.g, PairSym(cd.g, i, z, 1))], PairMatrix(cd.f)[k])
  {
    PairSymOk(cd.g, i, z, 0);
    PairSymOk(cd.g, i, z, 1);
    PairSymOk(cd.g, i, z, k);
    forall val: int -> Byte {:trigger WordsOf(cd)(val)} | WordsOf(cd)(val)
      ensures val(Ix(cd.g, PairSym(cd.g, i, z, k)))
           == Comb(cd.f, PairMatrix(cd.f)[k], [Ix(cd.g, PairSym(cd.g, i, z, 0)), Ix(cd.g, PairSym(cd.g, i, z, 1))], val)
    {
      PairEncoded(cd, val, i, z, k);
    }
  }

  lemma DecodeIdentities(cd: Code, i: int, z: int, k: int)
    requires CodeOk(cd) && SymOk(cd.g, C(i, z)) && !Unpaired(cd.g, i, z) && Upper(cd.g, i, z) && 0 <= k < 2
    ensures SymOk(cd.g, PairSym(cd.g, i, z, 2)) && SymOk(cd.g, PairSym(cd.g, i, z, 3)) && SymOk(cd.g, PairSym(cd.g, i, z, k))
    ensures CodeShape(cd, 2, 3)
    ensures Identity(cd.f, WordsOf(cd), Ix(cd.g, PairSym(cd.g, i, z, k)),
                     [Ix(cd.g, PairSym(cd.g, i, z, 2)), Ix(cd.g, PairSym(cd.g, i, z, 3))],
                     cd.invert(Select(PairMatrix(cd.f), [2, 3]))[k])
  {
    PairInverse(cd.f, cd.invert, 2, 3);
    PairSymOk(cd.g, i, z, 2);
    PairSymOk(cd.g, i, z, 3);
    PairSymOk(cd.g, i, z, k);
    forall val: int -> Byte {:trigger WordsOf(cd)(val)} | WordsOf(cd)(val)
      ensures val(Ix(cd.g, PairSym(cd.g, i, z, k)))
           == Comb(cd.f, cd.invert(Select(PairMatrix(cd.f), [2, 3]))[k],
                   [Ix(cd.g, PairSym(cd.g, i, z, 2)), Ix(cd.g, PairSym(cd.g, i, z, 3))], val)
    {
      PairDecoded(cd, val, i, z, k);
    }
  }

  function ColumnCoefs(cd: Code, erased: seq<int>, e: int): (r: Row)
    requires GeoOk(cd.g) && NodeOk(cd.g, e) && Shape(cd.invert(SurvivorRows(cd, erased)), Data(cd.g), Data(cd.g))
    ensures |r| == Data(cd.g)
  {
    RowTimes(cd.f, Generator(cd.f, Nodes(cd.g), Data(cd.g))[e], cd.invert(SurvivorRows(cd, erased)), Data(cd.g))
  }

  lemma ColumnIdentities(cd: Code, erased: seq<int>, e: int, z: int)
    requires CodeOk(cd) && Erasure(cd.g, erased) && Solvable(cd, erased) && SymOk(cd.g, U(e, z))
    ensures Shape(cd.invert(SurvivorRows(cd, erased)), Data(cd.g), Data(cd.g))
    ensures AllOk(cd.g, Column(cd.g, Survivors(erased, Nodes(cd.g)), z))
    ensures Identity(cd.f, WordsOf(cd), Ix(cd.g, U(e, z)), IxAll(cd.g, Column(cd.g, Survivors(erased, Nodes(cd.g)), z)),
                     ColumnCoefs(cd, erased, e))
  {
    var sel := SurvivorRows(cd, erased);
    var p :| LeftInverse(cd.f, p, sel, Data(cd.g));
    SurvivorFacts(erased, Nodes(cd.g));
    ColumnOk(cd.g, Survivors(erased, Nodes(cd.g)), z);
    var xs := IxAll(cd.g, Column(cd.g, Survivors(erased, Nodes(cd.g)), z));
    forall val: int -> Byte {:trigger WordsOf(cd)(val)} | WordsOf(cd)(val)
      ensures val(Ix(cd.g, U(e, z))) == Comb(cd.f, ColumnCoefs(cd, erased, e), xs, val)
    {
      PlaneIdentity(cd, val, erased, e, z);
    }
  }

  // It is the turn of the i-th erased node: its symbol is new, and those of
  // the survivors are there.
  lemma ErasedTurn(g: Geo, erased: seq<int>, z: int, i: nat, known: set<Sym>, done: set<Sym>, sure: bool)
    requires GeoOk(g) && Erasure(g, erased) && PlaneOk(g, z) && i < |erased|
    requires sure ==> forall n :: NodeOk(g, n) && n !in erased ==> Ready(g, known, done, U(n, z))
    requires sure ==> forall e :: e in erased ==> Fresh(g, known, done, U(e, z))
    ensures NodeOk(g, erased[i]) && SymOk(g, U(erased[i], z))
    ensures var now, data := done + ErasedColumn(g, erased, z, i), Column(g, Survivors(erased, Nodes(g)), z);
      && now + {Canon(g, U(erased[i], z))} == done + ErasedColumn(g, erased, z, i + 1)
      && data != []
      && (sure ==> Fresh(g, known, now, U(erased[i], z)))
      && (sure ==> forall l :: 0 <= l < |data| ==> Ready(g, known, now, data[l]))
  {
    assert erased[i] in erased;
    ErasedColumnStep(g, erased, z, i);
    SurvivorFacts(erased, Nodes(g));
    EnoughSurvive(g, erased);
    assert done + ErasedColumn(g, erased, z, i) + {Canon(g, U(erased[i], z))} == done + ErasedColumn(g, erased, z, i + 1);
  }

  // ----------------------------------------------------- what is made of what

  // In plane z, the uncoupled symbols of as many other nodes as there are data
  // nodes.
  predicate OfColumn(g: Geo, i: int, z: int, srcs: seq<Sym>) {
    && |srcs| == Data(g)
    && (forall l :: 0 <= l < |srcs| ==> srcs[l] == U(srcs[l].node, z) && srcs[l].node != i)
    && (forall a, b :: 0 <= a < b < |srcs| ==> srcs[a].node < srcs[b].node)
  }

  // What a symbol is computed from, by what of its pair is stored. A paired
  // uncoupled symbol comes from its two coupled ones if both are stored; from
  // the one that is and its companion; or from its plane. A coupled symbol
  // comes from its companion if that is stored, and else from the two
  // uncoupled ones. The symbol of an unpaired node comes from its plane.
  predicate Rule(g: Geo, known: set<Sym>, s: Sym, srcs: seq<Sym>)
    requires GeoOk(g) && SymOk(g, s)
  {
    var i, z := s.node, s.z;
    if Unpaired(g, i, z) then OfColumn(g, i, z, srcs)
    else
      var j, u := MateNode(g, i, z), MatePlane(g, i, z);
      match s
      case U(_, _) =>
        if C(i, z) in known && C(j, u) in known then srcs == if Upper(g, i, z) then [C(i, z), C(j, u)] else [C(j, u), C(i, z)]
        else OfColumn(g, i, z, srcs) || (C(i, z) in known && srcs == [C(i, z), U(j, u)])
      case C(_, _) =>
        if C(j, u) in known then srcs == [C(j, u), U(i, z)] || srcs == [C(j, u), U(j, u)]
        else srcs == if Upper(g, i, z) then [U(i, z), U(j, u)] else [U(j, u), U(i, z)]
  }

  // A joined symbol has the children that the rule calls for.
  ghost predicate Ruled(g: Geo, known: set<Sym>, nodes: Graph, s: Sym)
    requires GeoOk(g)
  {
    SymOk(g, s) && exists srcs: seq<Sym> :: AllOk(g, srcs) && Rule(g, known, s, srcs) && MadeOf(nodes, Ix(g, s), IxAll(g, srcs))
  }

  // The rule for one symbol, and for all that were joined; closed until they
  // are used.
  ghost predicate ByRule(g: Geo, known: set<Sym>, s: Sym, srcs: seq<Sym>)
    requires GeoOk(g)
  {
    forall x: int {:trigger Peek(x)} :: Peek(x) ==> SymOk(g, s) && AllOk(g, srcs) && Rule(g, known, s, srcs)
  }

  ghost predicate AllRuled(g: Geo, known: set<Sym>, done: set<Sym>, nodes: Graph)
    requires GeoOk(g)
  {
    forall x: int {:trigger Peek(x)} :: Peek(x) ==> forall s {:trigger s in done} :: s in done ==> Ruled(g, known, nodes, s)
  }

  // The same on the children themselves, for a paired symbol of node i in plane
  // z whose companion is node j in plane u.
  lemma ChildrenOf(g: Geo, known: set<Sym>, nodes: Graph, i: int, z: int, j: int, u: int)
    requires GeoOk(g) && SymOk(g, C(i, z)) && SymOk(g, C(j, u)) && !Unpaired(g, i, z)
    requires j == MateNode(g, i, z) && u == MatePlane(g, i, z)
    ensures Ruled(g, known, nodes, U(i, z)) && C(i, z) in known && C(j, u) in known && Upper(g, i, z) ==>
              nodes[Ix(g, U(i, z))].children == [Ix(g, C(i, z)), Ix(g, C(j, u))]
    ensures Ruled(g, known, nodes, U(i, z)) && C(i, z) in known && C(j, u) !in known ==>
              var cs := nodes[Ix(g, U(i, z))].children; cs == [Ix(g, C(i, z)), Ix(g, U(j, u))] || |cs| == Data(g)
    ensures Ruled(g, known, nodes, C(i, z)) && C(j, u) in known ==>
              var cs := nodes[Ix(g, C(i, z))].children; cs == [Ix(g, C(j, u)), Ix(g, U(i, z))] || cs == [Ix(g, C(j, u)), Ix(g, U(j, u))]
    ensures Ruled(g, known, nodes, C(i, z)) && C(j, u) !in known && Upper(g, i, z) ==>
              nodes[Ix(g, C(i, z))].children == [Ix(g, U(i, z)), Ix(g, U(j, u))]
  {
    if Ruled(g, known, nodes, U(i, z)) { PairChildren(g, known, nodes, U(i, z)); }
    if Ruled(g, known, nodes, C(i, z)) { PairChildren(g, known, nodes, C(i, z)); }
  }

  lemma PairChildren(g: Geo, known: set<Sym>, nodes: Graph, s: Sym)
    requires GeoOk(g) && Ruled(g, known, nodes, s)
    ensures SymOk(g, s) && Ix(g, s) in nodes
    ensures exists srcs: seq<Sym> :: AllOk(g, srcs) && Rule(g, known, s, srcs) && nodes[Ix(g, s)].children == IxAll(g, srcs)
  {
    var srcs: seq<Sym> :| AllOk(g, srcs) && Rule(g, known, s, srcs) && MadeOf(nodes, Ix(g, s), IxAll(g, srcs));
  }

  // In numbers: two children, or as many as there are data nodes; a paired
  // coupled symbol always has two.
  lemma TwoOrPlane(g: Geo, known: set<Sym>, nodes: Graph, s: Sym)
    requires GeoOk(g) && Ruled(g, known, nodes, s)
    ensures SymOk(g, s) && Ix(g, s) in nodes
    ensures |nodes[Ix(g, s)].children| == 2 || |nodes[Ix(g, s)].children| == Data(g)
    ensures s.C? && !Unpaired(g, s.node, s.z) ==> |nodes[Ix(g, s)].children| == 2
  {
    var srcs: seq<Sym> :| AllOk(g, srcs) && Rule(g, known, s, srcs) && MadeOf(nodes, Ix(g, s), IxAll(g, srcs));
    assert |IxAll(g, srcs)| == |srcs|;
  }

  lemma OpenRuled(g: Geo, known: set<Sym>, done: set<Sym>, nodes: Graph)
    requires GeoOk(g) && AllRuled(g, known, done, nodes)
    ensures forall s {:trigger s in done} :: s in done ==> Ruled(g, known, nodes, s)
  {
    assert Peek(0);
  }

  lemma RuledMore(g: Geo, known: set<Sym>, done: set<Sym>, before: Graph, after: Graph, t: Sym, srcs: seq<Sym>)
    requires GeoOk(g) && AllRuled(g, known, done, before) && Extends(before, after)
    requires SymOk(g, t) && AllOk(g, srcs) && ByRule(g, known, Canon(g, t), srcs) && MadeOf(after, Ix(g, t), IxAll(g, srcs))
    ensures AllRuled(g, known, done + {Canon(g, t)}, after)
  {
    assert Peek(0);
    forall s | s in done + {Canon(g, t)} ensures Ruled(g, known, after, s) {
      if s in done {
        RuledStays(g, known, before, after, s);
      } else {
        assert Ix(g, s) == Ix(g, t);
      }
    }
  }

  lemma RuledStays(g: Geo, known: set<Sym>, before: Graph, after: Graph, s: Sym)
    requires GeoOk(g) && Ruled(g, known, before, s) && Extends(before, after)
    ensures Ruled(g, known, after, s)
  {
    var srcs: seq<Sym> :| AllOk(g, srcs) && Rule(g, known, s, srcs) && MadeOf(before, Ix(g, s), IxAll(g, srcs));
    assert MadeOf(after, Ix(g, s), IxAll(g, srcs));
  }

  // The rules, one by one: both coupled symbols stored, ...
  lemma RuleOfCoupled(g: Geo, known: set<Sym>, i: int, z: int)
    requires GeoOk(g) && SymOk(g, C(i, z)) && !Unpaired(g, i, z) && Upper(g, i, z)
    requires C(i, z) in known && C(MateNode(g, i, z), MatePlane(g, i, z)) in known
    ensures ByRule(g, known, PairSym(g, i, z, 2), [PairSym(g, i, z, 0), PairSym(g, i, z, 1)])
    ensures ByRule(g, known, PairSym(g, i, z, 3), [PairSym(g, i, z, 0), PairSym(g, i, z, 1)])
  {
    Mates(g, i, z);
  }

  // ... neither of them, ...
  lemma RuleOfUncoupled(g: Geo, known: set<Sym>, i: int, z: int)
    requires GeoOk(g) && SymOk(g, C(i, z)) && !Unpaired(g, i, z) && Upper(g, i, z)
    requires C(i, z) !in known && C(MateNode(g, i, z), MatePlane(g, i, z)) !in known
    ensures ByRule(g, known, PairSym(g, i, z, 0), [PairSym(g, i, z, 2), PairSym(g, i, z, 3)])
    ensures ByRule(g, known, PairSym(g, i, z, 1), [PairSym(g, i, z, 2), PairSym(g, i, z, 3)])
  {
    Mates(g, i, z);
  }

  // ... and one of the two, whose companion or whose own uncoupled symbol is
  // then to be had from it.
  lemma RuleOfOne(g: Geo, known: set<Sym>, i: int, z: int)
    requires GeoOk(g) && SymOk(g, C(i, z)) && !Unpaired(g, i, z)
    requires C(i, z) in known && C(MateNode(g, i, z), MatePlane(g, i, z)) !in known
    ensures var j, u := MateNode(g, i, z), MatePlane(g, i, z);
      && ByRule(g, known, U(i, z), [C(i, z), U(j, u)])
      && ByRule(g, known, C(j, u), [C(i, z), U(j, u)])
      && ByRule(g, known, C(j, u), [C(i, z), U(i, z)])
  {
    Mates(g, i, z);
  }

  // Not both coupled symbols of a pair are stored.
  predicate Untold(g: Geo, known: set<Sym>, i: int, z: int)
    requires GeoOk(g)
  {
    SymOk(g, C(i, z)) && (Unpaired(g, i, z) || C(i, z) !in known || C(MateNode(g, i, z), MatePlane(g, i, z)) !in known)
  }

  ghost predicate AllUntold(g: Geo, known: set<Sym>, erased: seq<int>, z: int)
    requires GeoOk(g)
  {
    forall x: int {:trigger Peek(x)} :: Peek(x) ==> forall e {:trigger Untold(g, known, e, z)} :: e in erased ==> Untold(g, known, e, z)
  }

  lemma RuleOfPlane(g: Geo, known: set<Sym>, erased: seq<int>, e: int, z: int)
    requires GeoOk(g) && Erasure(g, erased) && e in erased && AllUntold(g, known, erased, z)
    ensures SymOk(g, U(e, z)) && ByRule(g, known, Canon(g, U(e, z)), Column(g, Survivors(erased, Nodes(g)), z))
  {
    assert Peek(0) && Untold(g, known, e, z);
    EnoughSurvive(g, erased);
    SurvivorFacts(erased, Nodes(g));
    SurvivorsRise(erased, Nodes(g));
  }

  lemma {:induction false} SurvivorsRise(erased: seq<int>, n: nat)
    ensures forall a, b :: 0 <= a < b < |Survivors(erased, n)| ==> Survivors(erased, n)[a] < Survivors(erased, n)[b]
  {
    if n > 0 {
      SurvivorsRise(erased, n - 1);
      SurvivorFacts(erased, n - 1);
    }
  }

  class Clay {
    const code: Code
    const maps: IndexMaps

    constructor (c: Code, m: IndexMaps)
      ensures code == c && maps == m
    {
      code, maps := c, m;
    }

    ghost predicate Valid()
      reads this, maps
    {
      CodeOk(code) && maps.Valid() && maps.g == code.g
    }

    // What every decoding step needs and keeps. When the step is not known to
    // have what it reads (sure is false), ECDAG::Join may create leaves, and
    // all that can be said is that nothing is taken away.
    ghost predicate Keeps(dag: ECDAG, known: set<Sym>, done: set<Sym>, sure: bool)
      requires GeoOk(code.g)
      reads dag
    {
      forall x {:trigger Look(x)} :: Look(x) ==>
        && dag.Valid() && Certain(code.f, WordsOf(code), Ixs(code.g, known), Ixs(code.g, done), dag.nodes, dag.joins, sure)
        && (sure ==> AllRuled(code.g, known, done, dag.nodes))
    }

    ghost predicate Holds(dag: ECDAG, known: set<Sym>, done: set<Sym>)
      requires GeoOk(code.g)
      reads dag
    {
      Keeps(dag, known, done, true)
    }

    // Before the first Join.
    lemma Start(dag: ECDAG, known: set<Sym>)
      requires Valid() && dag.Valid() && dag.nodes == map[] && dag.joins == multiset{}
      ensures Holds(dag, known, {})
    {
      NothingYet(code.f, WordsOf(code), Ixs(code.g, known));
      assert Ixs(code.g, {}) == {};
    }

    lemma Open(dag: ECDAG, known: set<Sym>, done: set<Sym>, sure: bool)
      requires Valid() && Keeps(dag, known, done, sure)
      ensures dag.Valid() && (sure ==> Decoded(code, known, done, dag.nodes, dag.joins))
      ensures sure ==> AllRuled(code.g, known, done, dag.nodes)
      ensures Keeps(dag, known, done, false)
    {
      assert Look(0);
      Uncertain(code.f, WordsOf(code), Ixs(code.g, known), Ixs(code.g, done), dag.nodes, dag.joins, sure);
    }

    // One Join on symbols: when the target is new, the Join takes effect.
    method JoinSym(dag: ECDAG, t: Sym, srcs: seq<Sym>, coefs: seq<int>,
                   ghost known: set<Sym>, ghost done: set<Sym>, ghost sure: bool)
      requires Valid() && Keeps(dag, known, done, sure)
      requires SymOk(code.g, t) && AllOk(code.g, srcs) && srcs != []
      requires sure ==> Fresh(code.g, known, done, t)
      requires sure ==> forall i :: 0 <= i < |srcs| ==> Ready(code.g, known, done, srcs[i])
      requires sure ==> ByRule(code.g, known, Canon(code.g, t), srcs)
      requires Identity(code.f, WordsOf(code), Ix(code.g, t), IxAll(code.g, srcs), coefs)
      modifies dag
      ensures Keeps(dag, known, done + {Canon(code.g, t)}, sure)
      ensures Extends(old(dag.nodes), dag.nodes)
      ensures forall i :: 0 <= i < |srcs| ==> Ix(code.g, srcs[i]) in dag.nodes
      ensures BornLeaf(old(dag.nodes), dag.nodes, Ix(code.g, srcs[|srcs| - 1]))
    {
      var target := maps.IndexOf(t);
      var data := IndicesOf(srcs);
      IxsAdd(code.g, done, t);
      assert Look(0);
      if sure {
        FreshAway(code.g, known, done, t);
        ReadyThere(code.g, known, done, srcs);
      }
      ghost var before := dag.nodes;
      JoinOne(dag, target, data, coefs, code.f, WordsOf(code), Ixs(code.g, known), Ixs(code.g, done), sure);
      if sure { RuledMore(code.g, known, done, before, dag.nodes, t, srcs); }
      assert data[|srcs| - 1] == Ix(code.g, srcs[|srcs| - 1]);
    }

    method IndicesOf(srcs: seq<Sym>) returns (data: seq<int>)
      requires Valid() && AllOk(code.g, srcs)
      ensures data == IxAll(code.g, srcs)
    {
      data := [];
      var i := 0;
      while i < |srcs|
        invariant 0 <= i <= |srcs| && |data| == i && forall l :: 0 <= l < i ==> data[l] == Ix(code.g, srcs[l])
      {
        var d := maps.IndexOf(srcs[i]);
        data := data + [d];
        i := i + 1;
      }
    }

    // ------------------------------------------------------------------ pairs

    // The companion as the code computes it.
    method Companion(x: int, y: int, z: int) returns (node: int, nodeSw: int, zSw: int)
      requires Valid() && 0 <= y < code.g.t && 0 <= x < code.g.q && PlaneOk(code.g, z)
      ensures node == y * code.g.q + x && NodeOk(code.g, node) && node / code.g.q == y && node % code.g.q == x
      ensures nodeSw == MateNode(code.g, node, z) && zSw == MatePlane(code.g, node, z)
    {
      var vec := P.GetPlaneVector(code.g.q, code.g.t, z);
      var step := P.PowInt(code.g.q, code.g.t - 1 - y);
      NodeAt(code.g, y, x);
      P.SwapIs(code.g.q, code.g.t, z, y, x);
      node := y * code.g.q + x;
      nodeSw := y * code.g.q + vec[y];
      zSw := z + (x - vec[y]) * step;
    }

    // Symbol k of the pair of the upper node (i, z), from the symbols a and b.
    method SolvePair(dag: ECDAG, i: int, z: int, j: int, u: int, a: int, b: int, k: int,
                     ghost known: set<Sym>, ghost done: set<Sym>, ghost sure: bool)
      requires Valid() && Keeps(dag, known, done, sure)
      requires SymOk(code.g, C(i, z)) && !Unpaired(code.g, i, z) && Upper(code.g, i, z)
      requires j == MateNode(code.g, i, z) && u == MatePlane(code.g, i, z) && Solved(a, b) && 0 <= k < 4
      requires sure ==> Fresh(code.g, known, done, PairSym(code.g, i, z, k))
      requires sure ==> Ready(code.g, known, done, PairSym(code.g, i, z, a)) && Ready(code.g, known, done, PairSym(code.g, i, z, b))
      requires sure ==> ByRule(code.g, known, PairSym(code.g, i, z, k), [PairSym(code.g, i, z, a), PairSym(code.g, i, z, b)])
      modifies dag
      ensures Keeps(dag, known, done + {PairSym(code.g, i, z, k)}, sure)
      ensures Extends(old(dag.nodes), dag.nodes)
      ensures sure ==> Ix(code.g, PairSym(code.g, i, z, a)) in dag.nodes && Ix(code.g, PairSym(code.g, i, z, b)) in dag.nodes
    {
      var matrix := GenerateMatrix(code.f, 4, 2);
      var inverse := code.invert([matrix[a], matrix[b]]);
      assert [matrix[a], matrix[b]] == Select(PairMatrix(code.f), [a, b]);
      PairIdentities(code, i, z, a, b, k);
      PairSymOk(code.g, i, z, k);
      var coefs := RowTimes(code.f, matrix[k], inverse, 2);
      var srcs := [Pick(i, z, j, u, a), Pick(i, z, j, u, b)];
      assert IxAll(code.g, srcs) == [Ix(code.g, srcs[0]), Ix(code.g, srcs[1])];
      JoinSym(dag, Pick(i, z, j, u, k), srcs, coefs, known, done, sure);
      assert Ix(code.g, srcs[0]) in dag.nodes && Ix(code.g, srcs[1]) in dag.nodes;
    }

    // Uncoupled symbol k (2 or 3) from the coupled ones, by the transform.
    method EncodePair(dag: ECDAG, i: int, z: int, j: int, u: int, k: int,
                      ghost known: set<Sym>, ghost done: set<Sym>, ghost sure: bool)
      requires Valid() && Keeps(dag, known, done, sure)
      requires SymOk(code.g, C(i, z)) && !Unpaired(code.g, i, z) && Upper(code.g, i, z)
      requires j == MateNode(code.g, i, z) && u == MatePlane(code.g, i, z) && 2 <= k < 4
      requires sure ==> Fresh(code.g, known, done, PairSym(code.g, i, z, k))
      requires sure ==> Ready(code.g, known, done, PairSym(code.g, i, z, 0)) && Ready(code.g, known, done, PairSym(code.g, i, z, 1))
      requires sure ==> ByRule(code.g, known, PairSym(code.g, i, z, k), [PairSym(code.g, i, z, 0), PairSym(code.g, i, z, 1)])
      modifies dag
      ensures Keeps(dag, known, done + {PairSym(code.g, i, z, k)}, sure)
      ensures Extends(old(dag.nodes), dag.nodes)
      ensures sure ==> Ix(code.g, PairSym(code.g, i, z, 0)) in dag.nodes && Ix(code.g, PairSym(code.g, i, z, 1)) in dag.nodes
    {
      var matrix := GenerateMatrix(code.f, 4, 2);
      EncodeIdentities(code, i, z, k);
      PairSymOk(code.g, i, z, k);
      var srcs := [C(i, z), C(j, u)];
      assert srcs[0] == PairSym(code.g, i, z, 0) && srcs[1] == PairSym(code.g, i, z, 1);
      assert IxAll(code.g, srcs) == [Ix(code.g, srcs[0]), Ix(code.g, srcs[1])];
      JoinSym(dag, if k == 2 then U(i, z) else U(j, u), srcs, matrix[k], known, done, sure);
      assert Ix(code.g, srcs[0]) in dag.nodes && Ix(code.g, srcs[1]) in dag.nodes;
    }

    // Coupled symbol k (0 or 1) from the uncoupled ones, by a row of the
    // inverse.
    method DecodePair(dag: ECDAG, i: int, z: int, j: int, u: int, k: int,
                      ghost known: set<Sym>, ghost done: set<Sym>, ghost sure: bool)
      requires Valid() && Keeps(dag, known, done, sure)
      requires SymOk(code.g, C(i, z)) && !Unpaired(code.g, i, z) && Upper(code.g, i, z)
      requires j == MateNode(code.g, i, z) && u == MatePlane(code.g, i, z) && 0 <= k < 2
      requires sure ==> Fresh(code.g, known, done, PairSym(code.g, i, z, k))
      requires sure ==> Ready(code.g, known, done, PairSym(code.g, i, z, 2)) && Ready(code.g, known, done, PairSym(code.g, i, z, 3))
      requires sure ==> ByRule(code.g, known, PairSym(code.g, i, z, k), [PairSym(code.g, i, z, 2), PairSym(code.g, i, z, 3)])
      modifies dag
      ensures Keeps(dag, known, done + {PairSym(code.g, i, z, k)}, sure)
      ensures Extends(old(dag.nodes), dag.nodes)
      ensures SymOk(code.g, U(j, u)) && BornLeaf(old(dag.nodes), dag.nodes, Ix(code.g, U(j, u)))
    {
      var matrix := GenerateMatrix(code.f, 4, 2);
      var inverse := code.invert([matrix[2], matrix[3]]);
      assert [matrix[2], matrix[3]] == Select(PairMatrix(code.f), [2, 3]);
      DecodeIdentities(code, i, z, k);
      PairSymOk(code.g, i, z, k);
      var srcs := [U(i, z), U(j, u)];
      assert srcs[0] == PairSym(code.g, i, z, 2) && srcs[1] == PairSym(code.g, i, z, 3);
      assert IxAll(code.g, srcs) == [Ix(code.g, srcs[0]), Ix(code.g, srcs[1])];
      JoinSym(dag, if k == 0 then C(i, z) else C(j, u), srcs, inverse[k], known, done, sure);
      assert Ix(code.g, srcs[1]) == Ix(code.g, U(j, u));
    }

    // -------------------------------------------------------- one whole plane

    // The first data-many nodes that are not erased.
    method SelectLines(erased: seq<int>) returns (lines: seq<int>)
      requires Valid() && Erasure(code.g, erased)
      ensures lines == Survivors(erased, Nodes(code.g))
    {
      lines := [];
      var i := 0;
      EnoughSurvive(code.g, erased);
      while i < Nodes(code.g)
        invariant 0 <= i <= Nodes(code.g) && lines == Survivors(erased, i)
      {
        if i !in erased { lines := lines + [i]; }
        i := i + 1;
        if |lines| == Data(code.g) {
          SurvivorsGrow(erased, i, Nodes(code.g));
          break;
        }
      }
    }

    // In plane z, join the uncoupled symbol of every erased node from those
    // of the survivors.
    method DecodeUncoupled(dag: ECDAG, erased: seq<int>, z: int,
                           ghost known: set<Sym>, ghost done: set<Sym>, ghost sure: bool)
      requires Valid() && Keeps(dag, known, done, sure)
      requires Erasure(code.g, erased) && Solvable(code, erased) && PlaneOk(code.g, z)
      requires sure ==> forall i :: NodeOk(code.g, i) && i !in erased ==> Ready(code.g, known, done, U(i, z))
      requires sure ==> forall e :: e in erased ==> Fresh(code.g, known, done, U(e, z))
      requires sure ==> AllUntold(code.g, known, erased, z)
      modifies dag
      ensures Keeps(dag, known, done + ErasedColumn(code.g, erased, z, |erased|), sure)
      ensures Extends(old(dag.nodes), dag.nodes)
      ensures erased != [] ==> forall i :: NodeOk(code.g, i) && i !in erased ==> Ix(code.g, U(i, z)) in dag.nodes
    {
      var matrix := GenerateMatrix(code.f, Nodes(code.g), Data(code.g));
      var lines := SelectLines(erased);
      SurvivorFacts(erased, Nodes(code.g));
      var inverse := code.invert(Select(matrix, lines));
      var data := Column(code.g, lines, z);
      ColumnOk(code.g, lines, z);
      var i := 0;
      assert done + ErasedColumn(code.g, erased, z, 0) == done;
      while i < |erased|
        invariant 0 <= i <= |erased|
        invariant Keeps(dag, known, done + ErasedColumn(code.g, erased, z, i), sure)
        invariant Extends(old(dag.nodes), dag.nodes)
        invariant i > 0 ==> forall l :: 0 <= l < |data| ==> Ix(code.g, data[l]) in dag.nodes
      {
        ErasedColumnStep(code.g, erased, z, i);
        JoinErased(dag, erased, z, i, matrix, inverse, data, known, done, sure);
        i := i + 1;
      }
      forall n | erased != [] && NodeOk(code.g, n) && n !in erased ensures Ix(code.g, U(n, z)) in dag.nodes {
        assert n in lines;
        var l :| 0 <= l < |lines| && lines[l] == n;
        assert data[l] == U(n, z);
      }
    }

    method JoinErased(dag: ECDAG, erased: seq<int>, z: int, i: nat, matrix: Mat, inverse: Mat, data: seq<Sym>,
                      ghost known: set<Sym>, ghost done: set<Sym>, ghost sure: bool)
      requires Erasure(code.g, erased) && PlaneOk(code.g, z) && i < |erased| && GeoOk(code.g)
      requires sure ==> forall n :: NodeOk(code.g, n) && n !in erased ==> Ready(code.g, known, done, U(n, z))
      requires sure ==> forall e :: e in erased ==> Fresh(code.g, known, done, U(e, z))
      requires sure ==> AllUntold(code.g, known, erased, z)
      requires Valid() && Keeps(dag, known, done + ErasedColumn(code.g, erased, z, i), sure) && Solvable(code, erased)
      requires matrix == Generator(code.f, Nodes(code.g), Data(code.g)) && inverse == code.invert(SurvivorRows(code, erased))
      requires data == Column(code.g, Survivors(erased, Nodes(code.g)), z) && AllOk(code.g, data)
      modifies dag
      ensures Keeps(dag, known, done + ErasedColumn(code.g, erased, z, i + 1), sure)
      ensures Extends(old(dag.nodes), dag.nodes)
      ensures forall l :: 0 <= l < |data| ==> Ix(code.g, data[l]) in dag.nodes
    {
      var e := erased[i];
      ghost var now := done + ErasedColumn(code.g, erased, z, i);
      ErasedTurn(code.g, erased, z, i, known, done, sure);
      ColumnIdentities(code, erased, e, z);
      if sure { RuleOfPlane(code.g, known, erased, e, z); }
      var coefs := RowTimes(code.f, matrix[e], inverse, Data(code.g));
      JoinSym(dag, U(e, z), data, coefs, known, now, sure);
    }
  }
}
