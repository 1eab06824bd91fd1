// src/ec/RSPIPE.cc and src/ec/RSCONV.cc: the repair of Reed-Solomon symbols as
// a chain of two-input combinations, and as one combination of k inputs.
module Pipe {
  import opened Util
  import opened GF
  import opened Dag
  import opened EcDag
  import opened Decoding
  import opened Matrix
  import P = Planes

  // The inputs of a repair, the lost indices, and for each of these one row of
  // coefficients. Indices of the code are below n.
  datatype Job = Job(used: seq<int>, to: seq<int>, coefs: Mat, n: nat)

  ghost predicate JobOk(j: Job) {
    && |j.used| >= 1 && NoDup(j.to) && |j.coefs| == |j.to|
    && (forall i :: 0 <= i < |j.used| ==> 0 <= j.used[i] < j.n && j.used[i] !in j.to)
    && (forall i :: 0 <= i < |j.to| ==> 0 <= j.to[i] < j.n && |j.coefs[i]| == |j.used|)
  }

  // ------------------------------------------------------- the coefficients

  // invert works in the field of the width it is given, which need not be the
  // field of the code.
  type Inverter = (Mat, nat) -> Mat

  ghost predicate KeepsShape(invert: Inverter) {
    forall m: Mat, k: nat, w: nat {:trigger Shape(m, k, k), invert(m, w)} :: Shape(m, k, k) ==> Shape(invert(m, w), k, k)
  }

  // The first k survivors are used; all of them and the lost ones are code
  // indices, and none is both.
  ghost predicate Request(from: seq<int>, to: seq<int>, k: nat, n: nat) {
    && 1 <= k <= n && k <= |from| && NoDup(to)
    && (forall i :: 0 <= i < k ==> 0 <= from[i] < n && from[i] !in to)
    && (forall i :: 0 <= i < |to| ==> 0 <= to[i] < n)
  }

  function Selected(f: Field, from: seq<int>, k: nat, n: nat): (m: Mat)
    requires k <= |from| && forall i :: 0 <= i < k ==> 0 <= from[i] < n
    ensures Shape(m, k, k)
  {
    Select(Generator(f, n, k), from[..k])
  }

  function CoefRow(f: Field, invert: Inverter, from: seq<int>, k: nat, n: nat, e: int): (r: Row)
    requires k <= |from| && (forall i :: 0 <= i < k ==> 0 <= from[i] < n) && 0 <= e < n
    requires Shape(invert(Selected(f, from, k, n), k), k, k)
    ensures |r| == k
  {
    RowTimes(f, Generator(f, n, k)[e], invert(Selected(f, from, k, n), k), k)
  }

  ghost function JobOf(f: Field, invert: Inverter, from: seq<int>, to: seq<int>, k: nat, n: nat): (j: Job)
    requires KeepsShape(invert) && Request(from, to, k, n)
    ensures JobOk(j) && j.used == from[..k] && j.to == to && j.n == n
    ensures forall i :: 0 <= i < |to| ==> j.coefs[i] == CoefRow(f, invert, from, k, n, to[i])
  {
    Job(from[..k], to, seq<Row>(|to|, i requires 0 <= i < |to| => CoefRow(f, invert, from, k, n, to[i])), n)
  }

  // The combination a of the selected symbols is symbol e, for these data.
  ghost predicate RightAt(f: Field, a: Row, sel: Mat, e: Row, data: Row)
    requires |a| == |e| == |data| && Shape(sel, |a|, |a|)
  {
    Dot(f, a, Apply(f, sel, data)) == Dot(f, e, data)
  }

  // Both decoders hand k over as the width. A lost symbol comes out right, for
  // all data, exactly when its coefficients undo the selected rows in the
  // field of the code.
  lemma RightIff(f: Field, a: Row, sel: Mat, e: Row)
    requires IsField(f) && |a| == |e| && Shape(sel, |a|, |a|)
    ensures (forall data: Row {:trigger RightAt(f, a, sel, e, data)} :: |data| == |a| ==> RightAt(f, a, sel, e, data))
       <==> RowTimes(f, a, sel, |a|) == e
  {
    var b := RowTimes(f, a, sel, |a|);
    if b == e {
      forall data: Row | |data| == |a| ensures RightAt(f, a, sel, e, data) { Associate(f, a, sel, data); }
    } else {
      var i :| 0 <= i < |a| && b[i] != e[i];
      WrongAt(f, a, sel, e, i);
    }
  }

  lemma WrongAt(f: Field, a: Row, sel: Mat, e: Row, i: nat)
    requires IsField(f) && |a| == |e| && Shape(sel, |a|, |a|) && i < |a| && RowTimes(f, a, sel, |a|)[i] != e[i]
    ensures !RightAt(f, a, sel, e, Unit(|a|, i))
  {
    Associate(f, a, sel, Unit(|a|, i));
    DotWithUnit(f, RowTimes(f, a, sel, |a|), i);
    DotWithUnit(f, e, i);
  }

  // In particular when the inverter's result is an inverse there.
  lemma InverseIsEnough(f: Field, e: Row, inverse: Mat, sel: Mat, k: nat, data: Row)
    requires IsField(f) && |e| == |data| == k && LeftInverse(f, inverse, sel, k)
    ensures RightAt(f, RowTimes(f, e, inverse, k), sel, e, data)
  {
    Recover(f, inverse, sel, e, data);
  }

  lemma {:induction false} DotWithUnit(f: Field, a: Row, k: nat)
    requires IsField(f) && k < |a|
    ensures Dot(f, a, Unit(|a|, k)) == a[k]
  {
    DotSwaps(f, a, Unit(|a|, k));
    DotUnit(f, a, k);
  }

  lemma {:induction false} DotSwaps(f: Field, a: Row, b: Row)
    requires IsField(f) && |a| == |b|
    ensures Dot(f, a, b) == Dot(f, b, a)
  {
    if a != [] {
      var n := |a| - 1;
      DotSwaps(f, a[..n], b[..n]);
      Laws(f, a[n], b[n], 0);
    }
  }

  // ------------------------------------------------------------------- words

  // The vertex that stands for the first c terms of lost symbol i: a name of
  // its own above all code indices, or the lost symbol itself.
  function Name(j: Job, i: nat, c: nat): int
    requires i < |j.to|
  {
    if c >= |j.used| then j.to[i] else Tmp(j, i) + c - 2
  }

  // The first temporary name of lost symbol i.
  function Tmp(j: Job, i: nat): int {
    if |j.used| < 2 then j.n else j.n + i * (|j.used| - 2)
  }

  ghost predicate Part(f: Field, j: Job, val: int -> Byte, i: nat, c: nat)
    requires i < |j.to| == |j.coefs| && c <= |j.used|
  {
    val(Name(j, i, c)) == Comb(f, j.coefs[i], j.used[..c], val)
  }

  // Assignments in which all partial sums from the second on are right.
  ghost function PipeWords(f: Field, j: Job): Words {
    (val: int -> Byte) =>
      |j.to| == |j.coefs| && forall i: nat, c: nat {:trigger Part(f, j, val, i, c)} ::
        i < |j.to| && (2 <= c || c == |j.used|) && c <= |j.used| ==> Part(f, j, val, i, c)
  }

  // What is joined when i symbols are complete and the temporary names below
  // top are used.
  function Joined(j: Job, i: nat, top: int): set<int>
    requires i <= |j.to|
  {
    AsSet(j.to[..i]) + Span(j.n, top)
  }

  function Span(a: int, b: int): (r: set<int>)
    ensures forall v :: v in r <==> a <= v < b
    decreases b - a
  {
    if b <= a then {} else Span(a, b - 1) + {b - 1}
  }

  lemma NewName(j: Job, i: nat, top: int, p: int)
    requires JobOk(j) && i < |j.to| && top >= j.n && (p == j.to[i] || p == top)
    ensures p !in AsSet(j.used) && p !in Joined(j, i, top)
    ensures p == j.to[i] ==> Joined(j, i, top) + {p} == Joined(j, i + 1, top)
    ensures p == top ==> Joined(j, i, top) + {p} == Joined(j, i, top + 1)
  {
    assert j.to[..i + 1] == j.to[..i] + [j.to[i]];
    assert j.to[i] in j.to;
    forall x | 0 <= x < i ensures j.to[x] != p { assert j.to[x] in j.to; }
    forall x | 0 <= x < |j.used| ensures j.used[x] != p { }
  }

  // The row of one lost symbol times the inverse.
  method CoefVector(f: Field, matrix: Mat, inverse: Mat, ridx: int, k: nat, ghost invert: Inverter, ghost from: seq<int>, ghost n: nat)
    returns (coefs: Row)
    requires 1 <= k <= n && k <= |from| && (forall i :: 0 <= i < k ==> 0 <= from[i] < n) && 0 <= ridx < n
    requires Shape(matrix, n, k) && Shape(inverse, k, k)
    requires matrix == Generator(f, n, k) && inverse == invert(Selected(f, from, k, n), k)
    ensures coefs == CoefRow(f, invert, from, k, n, ridx)
  {
    coefs := RowTimes(f, matrix[ridx], inverse, k);
  }

  // The matrix, and what the inverter makes of the rows of the first k
  // survivors.
  method InvertSelected(from: seq<int>, k: nat, n: nat, f: Field, invert: Inverter) returns (matrix: Mat, inverse: Mat)
    requires KeepsShape(invert) && k <= n && k <= |from| && forall i :: 0 <= i < k ==> 0 <= from[i] < n
    ensures Shape(matrix, n, k) && matrix == Generator(f, n, k)
    ensures Shape(inverse, k, k) && inverse == invert(Selected(f, from, k, n), k)
  {
    matrix := GenerateMatrix(f, n, k);
    inverse := invert(Select(matrix, from[..k]), k);
    assert Shape(Selected(f, from, k, n), k, k);
  }

  // ------------------------------------------------------------------- flat

  // RSCONV: one Join of all inputs per lost symbol.
  method DecodeConv(dag: ECDAG, from: seq<int>, to: seq<int>, k: nat, m: nat, f: Field, invert: Inverter)
    requires dag.Valid() && dag.nodes == map[] && dag.joins == multiset{}
    requires KeepsShape(invert) && Request(from, to, k, k + m)
    modifies dag
    ensures dag.Valid()
    ensures var j := JobOf(f, invert, from, to, k, k + m);
      && Progress(f, PipeWords(f, j), AsSet(from[..k]), AsSet(to), dag.nodes, dag.joins)
      && Computes(f, dag.nodes, j)
    ensures forall i :: 0 <= i < |to| ==> MadeOf(dag.nodes, to[i], from[..k])
  {
    ghost var j := JobOf(f, invert, from, to, k, k + m);
    var matrix, inverse := InvertSelected(from, k, k + m, f, invert);
    FlatAll(dag, from, to, k, k + m, matrix, inverse, f, invert, j);
  }

  method FlatAll(dag: ECDAG, from: seq<int>, to: seq<int>, k: nat, n: nat, matrix: Mat, inverse: Mat, f: Field,
                 ghost invert: Inverter, ghost j: Job)
    requires dag.Valid() && dag.nodes == map[] && dag.joins == multiset{}
    requires KeepsShape(invert) && Request(from, to, k, n) && j == JobOf(f, invert, from, to, k, n)
    requires Shape(matrix, n, k) && Shape(inverse, k, k)
    requires matrix == Generator(f, n, k) && inverse == invert(Selected(f, from, k, n), k)
    modifies dag
    ensures dag.Valid()
    ensures Progress(f, PipeWords(f, j), AsSet(j.used), AsSet(j.to), dag.nodes, dag.joins) && Computes(f, dag.nodes, j)
    ensures forall i :: 0 <= i < |to| ==> MadeOf(dag.nodes, to[i], j.used)
  {
    NothingYet(f, PipeWords(f, j), AsSet(j.used));
    var i := 0;
    while i < |to|
      invariant 0 <= i <= |to| && dag.Valid()
      invariant Certain(f, PipeWords(f, j), AsSet(j.used), AsSet(j.to[..i]), dag.nodes, dag.joins, true)
      invariant forall x :: 0 <= x < i ==> MadeOf(dag.nodes, to[x], j.used)
    {
      ghost var before := dag.nodes;
      var coefs := CoefVector(f, matrix, inverse, to[i], k, invert, from, n);
      JoinFlat(dag, to[i], from[..k], coefs, f, j, i);
      forall x | 0 <= x < i ensures MadeOf(dag.nodes, to[x], j.used) { assert MadeOf(before, to[x], j.used); }
      i := i + 1;
    }
    FlatEnds(f, j, dag.nodes, dag.joins);
  }

  method JoinFlat(dag: ECDAG, ridx: int, data: seq<int>, coefs: seq<int>, ghost f: Field, ghost j: Job, ghost i: nat)
    requires dag.Valid() && JobOk(j) && i < |j.to| && ridx == j.to[i] && data == j.used && coefs == j.coefs[i]
    requires Certain(f, PipeWords(f, j), AsSet(j.used), AsSet(j.to[..i]), dag.nodes, dag.joins, true)
    modifies dag
    ensures dag.Valid()
    ensures Certain(f, PipeWords(f, j), AsSet(j.used), AsSet(j.to[..i + 1]), dag.nodes, dag.joins, true)
    ensures Extends(old(dag.nodes), dag.nodes) && MadeOf(dag.nodes, ridx, data)
  {
    FlatTurn(f, j, i);
    JoinOne(dag, ridx, data, coefs, f, PipeWords(f, j), AsSet(j.used), AsSet(j.to[..i]), true);
  }

  lemma FlatEnds(f: Field, j: Job, nodes: Graph, joins: multiset<int>)
    requires JobOk(j) && Certain(f, PipeWords(f, j), AsSet(j.used), AsSet(j.to[..|j.to|]), nodes, joins, true)
    ensures Progress(f, PipeWords(f, j), AsSet(j.used), AsSet(j.to), nodes, joins) && Computes(f, nodes, j)
  {
    assert j.to[..|j.to|] == j.to;
    Uncertain(f, PipeWords(f, j), AsSet(j.used), AsSet(j.to), nodes, joins, true);
    ProgressComputes(f, j, AsSet(j.to), nodes, joins);
  }

  lemma FlatTurn(f: Field, j: Job, i: nat)
    requires JobOk(j) && i < |j.to|
    ensures j.to[i] !in AsSet(j.used) && j.to[i] !in AsSet(j.to[..i])
    ensures AsSet(j.to[..i]) + {j.to[i]} == AsSet(j.to[..i + 1])
    ensures AllThere(AsSet(j.used), AsSet(j.to[..i]), j.used)
    ensures Identity(f, PipeWords(f, j), j.to[i], j.used, j.coefs[i])
  {
    NewName(j, i, j.n, j.to[i]);
    assert j.to[..i + 1] == j.to[..i] + [j.to[i]];
    assert j.used[..|j.used|] == j.used;
    forall val: int -> Byte {:trigger PipeWords(f, j)(val)} | PipeWords(f, j)(val)
      ensures val(j.to[i]) == Comb(f, j.coefs[i], j.used, val)
    {
      assert Part(f, j, val, i, |j.used|);
    }
  }

  // ------------------------------------------------------------------ chained

  // The two queues after c inputs of lost symbol i.
  ghost predicate Chain(j: Job, i: nat, dataq: seq<int>, coefq: seq<int>, c: nat)
    requires i < |j.to| == |j.coefs| && c <= |j.used| == |j.coefs[i]|
  {
    if c == 0 then dataq == j.used && coefq == j.coefs[i]
    else c >= 2 && dataq == [Name(j, i, c)] + j.used[c..] && coefq == [1] + j.coefs[i][c..]
  }

  lemma TwoTerms(f: Field, c0: int, c1: int, d0: int, d1: int, val: int -> Byte)
    ensures Comb(f, [c0, c1], [d0, d1], val) == f.add(f.add(0, f.mul(Cast(c0), val(d0))), f.mul(Cast(c1), val(d1)))
  {
    assert [d0, d1][..1] == [d0] && [d0][..0] == [];
    assert Comb(f, [c0, c1], [d0], val) == f.add(Comb(f, [c0, c1], [d0][..0], val), f.mul(Cast(c0), val(d0)));
  }

  function Next(c: nat): nat { if c == 0 then 2 else c + 1 }

  // One link of the chain adds the next input to the partial sum, in every
  // word.
  lemma LinkAdds(f: Field, j: Job, i: nat, dataq: seq<int>, coefq: seq<int>, c: nat)
    requires IsField(f) && JobOk(j) && i < |j.to| && c <= |j.used| && Chain(j, i, dataq, coefq, c) && |dataq| >= 2
    ensures Next(c) <= |j.used| && |coefq| == |dataq|
    ensures dataq[2..] == j.used[Next(c)..] && coefq[2..] == j.coefs[i][Next(c)..]
    ensures dataq[1] in j.used && (dataq[0] in j.used || (c >= 2 && dataq[0] == Name(j, i, c)))
    ensures Identity(f, PipeWords(f, j), Name(j, i, Next(c)), dataq[..2], coefq[..2])
  {
    var d := Next(c);
    assert dataq[..2] == [dataq[0], dataq[1]] && coefq[..2] == [coefq[0], coefq[1]];
    forall val: int -> Byte {:trigger PipeWords(f, j)(val)} | PipeWords(f, j)(val)
      ensures val(Name(j, i, d)) == Comb(f, coefq[..2], dataq[..2], val)
    {
      assert Part(f, j, val, i, d);
      TwoTerms(f, coefq[0], coefq[1], dataq[0], dataq[1], val);
      assert j.used[..d][..d - 1] == j.used[..d - 1];
      if c == 0 {
        assert j.used[..1][..0] == [];
        assert Comb(f, j.coefs[i], j.used[..1], val) == f.add(0, f.mul(CoefAt(j.coefs[i], 0), val(j.used[0])));
      } else {
        assert Part(f, j, val, i, c);
        var x := val(dataq[0]);
        Laws(f, 1, x, 0);
        Laws(f, x, 1, 0);
        Laws(f, 0, x, 0);
        Laws(f, x, 0, 0);
      }
    }
  }

  // RSPIPE: two queues hold what is still to be added; each Join takes two
  // entries and puts its result in front with coefficient 1. With one data
  // block there are never two entries, and nothing at all is joined.
  method DecodePipe(dag: ECDAG, from: seq<int>, to: seq<int>, k: nat, m: nat, f: Field, invert: Inverter)
    requires dag.Valid() && dag.nodes == map[] && dag.joins == multiset{} && IsField(f)
    requires KeepsShape(invert) && Request(from, to, k, k + m)
    modifies dag
    ensures dag.Valid()
    ensures var j := JobOf(f, invert, from, to, k, k + m);
      && (Computes(f, dag.nodes, j) <==> k >= 2 || to == [])
      && (k == 1 ==> dag.nodes == map[])
      && (k >= 2 ==> Progress(f, PipeWords(f, j), AsSet(from[..k]), Joined(j, |to|, Tmp(j, |to|)), dag.nodes, dag.joins))
    ensures k >= 2 ==> forall i: nat, c: nat {:trigger LinkIs(dag.nodes, from, to, k, k + m, i, c)} ::
              i < |to| && 2 <= c <= k ==> LinkIs(dag.nodes, from, to, k, k + m, i, c)
  {
    ghost var j := JobOf(f, invert, from, to, k, k + m);
    var matrix, inverse := InvertSelected(from, k, k + m, f, invert);
    DecodeAll(dag, from, to, k, k + m, matrix, inverse, f, invert, j);
    if k >= 2 { ChainsAreLinks(dag.nodes, j, from, to, k); }
  }

  method DecodeAll(dag: ECDAG, from: seq<int>, to: seq<int>, k: nat, n: nat, matrix: Mat, inverse: Mat, f: Field,
                   ghost invert: Inverter, ghost j: Job)
    requires dag.Valid() && dag.nodes == map[] && dag.joins == multiset{} && IsField(f)
    requires KeepsShape(invert) && Request(from, to, k, n) && j == JobOf(f, invert, from, to, k, n)
    requires Shape(matrix, n, k) && Shape(inverse, k, k)
    requires matrix == Generator(f, n, k) && inverse == invert(Selected(f, from, k, n), k)
    modifies dag
    ensures dag.Valid()
    ensures Computes(f, dag.nodes, j) <==> |j.used| >= 2 || j.to == []
    ensures |j.used| < 2 ==> dag.nodes == map[]
    ensures |j.used| >= 2 ==> Progress(f, PipeWords(f, j), AsSet(j.used), Joined(j, |j.to|, Tmp(j, |j.to|)), dag.nodes, dag.joins)
    ensures |j.used| >= 2 ==> ChainsUpTo(dag.nodes, j, |j.to|)
  {
    PipeStart(f, j);
    var tmpname := n;
    var i := 0;
    while i < |to|
      invariant 0 <= i <= |to| && dag.Valid()
      invariant if |j.used| >= 2 then tmpname == Tmp(j, i) else dag.nodes == map[]
      invariant Certain(f, PipeWords(f, j), AsSet(j.used), Joined(j, i, tmpname), dag.nodes, dag.joins, |j.used| >= 2)
      invariant |j.used| >= 2 ==> ChainsUpTo(dag.nodes, j, i)
    {
      var coefs := CoefVector(f, matrix, inverse, to[i], k, invert, from, n);
      tmpname := PipeTurn(dag, to[i], from[..k], coefs, tmpname, f, j, i);
      i := i + 1;
    }
    PipeEnds(f, j, dag.nodes, dag.joins, tmpname);
  }

  // Link c of the chain of lost symbol i: two children, the sum of the inputs
  // before (the first input for the first link) and input c - 1. The last link
  // is the lost symbol, the others have names of their own from n on.
  ghost predicate LinkIs(g: Graph, from: seq<int>, to: seq<int>, k: nat, n: nat, i: nat, c: nat)
    requires k <= |from| && i < |to| && 2 <= c <= k
  {
    var first := n + i * (k - 2);
    MadeOf(g, if c == k then to[i] else first + c - 2, [if c == 2 then from[0] else first + c - 3, from[c - 1]])
  }

  ghost predicate LinkAt(g: Graph, j: Job, i: nat, c: nat)
    requires i < |j.to| && 2 <= c <= |j.used|
  {
    MadeOf(g, Name(j, i, c), [if c == 2 then j.used[0] else Name(j, i, c - 1), j.used[c - 1]])
  }

  ghost predicate ChainUpTo(g: Graph, j: Job, i: nat, c: nat)
    requires i < |j.to| && c <= |j.used|
  {
    forall d: nat {:trigger LinkAt(g, j, i, d)} :: 2 <= d <= c ==> LinkAt(g, j, i, d)
  }

  ghost predicate ChainsUpTo(g: Graph, j: Job, i: nat)
    requires i <= |j.to|
  {
    forall x: nat {:trigger ChainUpTo(g, j, x, |j.used|)} :: x < i ==> ChainUpTo(g, j, x, |j.used|)
  }

  lemma LinksStay(g: Graph, h: Graph, j: Job, i: nat, c: nat)
    requires Extends(g, h) && i < |j.to| && c <= |j.used| && ChainUpTo(g, j, i, c)
    ensures ChainUpTo(h, j, i, c)
  {
    forall d: nat | 2 <= d <= c ensures LinkAt(h, j, i, d) { assert LinkAt(g, j, i, d); }
  }

  lemma ChainsStay(g: Graph, h: Graph, j: Job, i: nat)
    requires Extends(g, h) && i < |j.to| && ChainsUpTo(g, j, i) && ChainUpTo(h, j, i, |j.used|)
    ensures ChainsUpTo(h, j, i + 1)
  {
    forall x: nat | x < i ensures ChainUpTo(h, j, x, |j.used|) {
      assert ChainUpTo(g, j, x, |j.used|);
      LinksStay(g, h, j, x, |j.used|);
    }
  }

  lemma ChainsAreLinks(g: Graph, j: Job, from: seq<int>, to: seq<int>, k: nat)
    requires 2 <= k <= |from| && j.used == from[..k] && j.to == to && ChainsUpTo(g, j, |to|)
    ensures forall i: nat, c: nat {:trigger LinkIs(g, from, to, k, j.n, i, c)} :: i < |to| && 2 <= c <= k ==> LinkIs(g, from, to, k, j.n, i, c)
  {
    forall i: nat, c: nat | i < |to| && 2 <= c <= k ensures LinkIs(g, from, to, k, j.n, i, c) {
      assert ChainUpTo(g, j, i, |j.used|);
      assert LinkAt(g, j, i, c);
    }
  }

  method PipeTurn(dag: ECDAG, ridx: int, data: seq<int>, coefs: seq<int>, tmp0: int, ghost f: Field, ghost j: Job, ghost i: nat)
    returns (tmpname: int)
    requires dag.Valid() && IsField(f) && JobOk(j) && i < |j.to|
    requires ridx == j.to[i] && data == j.used && coefs == j.coefs[i]
    requires if |j.used| >= 2 then tmp0 == Tmp(j, i) else dag.nodes == map[]
    requires Certain(f, PipeWords(f, j), AsSet(j.used), Joined(j, i, tmp0), dag.nodes, dag.joins, |j.used| >= 2)
    modifies dag
    ensures dag.Valid()
    ensures if |j.used| >= 2 then tmpname == Tmp(j, i + 1) else dag.nodes == map[]
    ensures Certain(f, PipeWords(f, j), AsSet(j.used), Joined(j, i + 1, tmpname), dag.nodes, dag.joins, |j.used| >= 2)
    ensures |j.used| >= 2 && ChainsUpTo(old(dag.nodes), j, i) ==> ChainsUpTo(dag.nodes, j, i + 1)
  {
    tmpname := tmp0;
    if |data| >= 2 {
      ghost var before := dag.nodes;
      tmpname := DecodeOne(dag, ridx, data, coefs, tmp0, f, j, i);
      if ChainsUpTo(before, j, i) { ChainsStay(before, dag.nodes, j, i); }
    } else {
      NotSure(f, PipeWords(f, j), AsSet(j.used), Joined(j, i + 1, tmpname), dag.nodes, dag.joins);
    }
  }

  lemma PipeEnds(f: Field, j: Job, nodes: Graph, joins: multiset<int>, tmpname: int)
    requires JobOk(j) && if |j.used| >= 2 then tmpname == Tmp(j, |j.to|) else nodes == map[]
    requires Certain(f, PipeWords(f, j), AsSet(j.used), Joined(j, |j.to|, tmpname), nodes, joins, |j.used| >= 2)
    ensures Computes(f, nodes, j) <==> |j.used| >= 2 || j.to == []
    ensures |j.used| >= 2 ==> Progress(f, PipeWords(f, j), AsSet(j.used), Joined(j, |j.to|, Tmp(j, |j.to|)), nodes, joins)
  {
    if |j.used| >= 2 {
      Uncertain(f, PipeWords(f, j), AsSet(j.used), Joined(j, |j.to|, tmpname), nodes, joins, true);
      AllJoined(j, tmpname);
      ProgressComputes(f, j, Joined(j, |j.to|, tmpname), nodes, joins);
    } else if j.to != [] {
      NothingComputed(f, j);
    }
  }

  lemma NotSure(f: Field, words: Words, known: set<int>, done: set<int>, nodes: Graph, joins: multiset<int>)
    ensures Certain(f, words, known, done, nodes, joins, false)
  {
  }

  lemma NothingComputed(f: Field, j: Job)
    requires JobOk(j) && j.to != []
    ensures !Computes(f, map[], j)
  {
    assert Ranked(map[], map[]);
    assert !Gives(f, map[], map[], (v: int) => 0, j, 0);
  }

  lemma AllJoined(j: Job, top: int)
    ensures forall i :: 0 <= i < |j.to| ==> j.to[i] in Joined(j, |j.to|, top)
  {
    assert j.to[..|j.to|] == j.to;
  }

  lemma PipeStart(f: Field, j: Job)
    ensures Joined(j, 0, Tmp(j, 0)) == {} && Tmp(j, 0) == j.n
    ensures Certain(f, PipeWords(f, j), AsSet(j.used), Joined(j, 0, Tmp(j, 0)), map[], multiset{}, true)
  {
    NothingYet(f, PipeWords(f, j), AsSet(j.used));
    assert Joined(j, 0, Tmp(j, 0)) == {};
  }

  // The temporary name in use after c inputs.
  function TopAt(j: Job, i: nat, c: nat): int {
    Tmp(j, i) + if c == 0 then 0 else if c == |j.used| then c - 2 else c - 1
  }

  // What is joined after c inputs of lost symbol i.
  ghost function DoneAt(j: Job, i: nat, c: nat): set<int>
    requires i < |j.to|
  {
    Joined(j, if c == |j.used| then i + 1 else i, TopAt(j, i, c))
  }

  method DecodeOne(dag: ECDAG, ridx: int, data: seq<int>, coefs: seq<int>, tmp0: int, ghost f: Field, ghost j: Job, ghost i: nat)
    returns (tmpname: int)
    requires dag.Valid() && IsField(f) && JobOk(j) && |j.used| >= 2 && i < |j.to| && tmp0 == Tmp(j, i)
    requires ridx == j.to[i] && data == j.used && coefs == j.coefs[i]
    requires Certain(f, PipeWords(f, j), AsSet(j.used), Joined(j, i, tmp0), dag.nodes, dag.joins, true)
    modifies dag
    ensures dag.Valid() && tmpname == Tmp(j, i + 1)
    ensures Certain(f, PipeWords(f, j), AsSet(j.used), Joined(j, i + 1, tmpname), dag.nodes, dag.joins, true)
    ensures Extends(old(dag.nodes), dag.nodes) && ChainUpTo(dag.nodes, j, i, |j.used|)
  {
    var dataq, coefq := data, coefs;
    tmpname := tmp0;
    ghost var c := 0;
    while |dataq| >= 2
      invariant dag.Valid() && 0 <= c <= |j.used| && Chain(j, i, dataq, coefq, c) && tmpname == TopAt(j, i, c)
      invariant Certain(f, PipeWords(f, j), AsSet(j.used), DoneAt(j, i, c), dag.nodes, dag.joins, true)
      invariant Extends(old(dag.nodes), dag.nodes) && ChainUpTo(dag.nodes, j, i, c)
      decreases |dataq|
    {
      ghost var before, terms := dag.nodes, dataq;
      LinkTurn(f, j, i, dataq, coefq, c);
      var datav, coefv := dataq[..2], coefq[..2];
      ghost var done := DoneAt(j, i, c);
      dataq, coefq := dataq[2..], coefq[2..];
      var toadd := ridx;
      if |dataq| > 0 {
        toadd := tmpname;
        tmpname := tmpname + 1;
      }
      JoinOne(dag, toadd, datav, coefv, f, PipeWords(f, j), AsSet(j.used), done, true);
      OneLinkMore(before, dag.nodes, j, i, terms, c);
      c := Next(c);
      dataq, coefq := [toadd] + dataq, [1] + coefq;
    }
    TmpStep(j, i);
  }

  lemma OneLinkMore(g: Graph, h: Graph, j: Job, i: nat, dataq: seq<int>, c: nat)
    requires i < |j.to| == |j.coefs| && c <= |j.used| == |j.coefs[i]| && |dataq| >= 2 && Next(c) <= |j.used|
    requires if c == 0 then dataq == j.used else c >= 2 && dataq == [Name(j, i, c)] + j.used[c..]
    requires Extends(g, h) && ChainUpTo(g, j, i, c) && MadeOf(h, Name(j, i, Next(c)), dataq[..2])
    ensures ChainUpTo(h, j, i, Next(c))
  {
    LinksStay(g, h, j, i, c);
    assert dataq[..2] == [dataq[0], dataq[1]];
    assert LinkAt(h, j, i, Next(c));
  }

  // The place of a joined vertex: its lost symbol and its link.
  lemma PlaceOfName(j: Job, v: int) returns (i: nat, c: nat)
    requires JobOk(j) && |j.used| >= 2 && v in Joined(j, |j.to|, Tmp(j, |j.to|))
    ensures i < |j.to| && 2 <= c <= |j.used| && v == Name(j, i, c)
  {
    var s := |j.used| - 2;
    if v in j.to {
      i :| 0 <= i < |j.to| && j.to[i] == v;
      c := |j.used|;
    } else {
      assert j.to[..|j.to|] == j.to;
      var d := v - j.n;
      P.DivBelow(d, |j.to|, s);
      P.Euclid(d, s);
      i, c := d / s, d % s + 2;
    }
  }

  // The chain is a chain: every vertex that is joined adds one survivor to one
  // thing else, and every partial sum is used by the next link and by nothing
  // else - so a lost symbol reads each survivor once, one after the other.
  lemma ChainShape(f: Field, j: Job, g: Graph, joins: multiset<int>, v: int)
    requires JobOk(j) && |j.used| >= 2 && ChainsUpTo(g, j, |j.to|) && v in g && g[v].children != []
    requires Progress(f, PipeWords(f, j), AsSet(j.used), Joined(j, |j.to|, Tmp(j, |j.to|)), g, joins)
    ensures |g[v].children| == 2 && g[v].children[1] in j.used
    ensures exists i: nat, c: nat {:trigger Name(j, i, c)} ::
              && i < |j.to| && 2 <= c <= |j.used| && v == Name(j, i, c)
              && g[v].children[1] == j.used[c - 1] && g[v].children[0] == if c == 2 then j.used[0] else Name(j, i, c - 1)
  {
    var i, c := PlaceOfName(j, v);
    assert ChainUpTo(g, j, i, |j.used|);
    assert LinkAt(g, j, i, c);
  }

  lemma PartialUsedOnce(f: Field, j: Job, g: Graph, joins: multiset<int>, i: nat, c: nat, v: int)
    requires JobOk(j) && |j.used| >= 2 && ChainsUpTo(g, j, |j.to|) && i < |j.to| && 2 <= c < |j.used|
    requires Progress(f, PipeWords(f, j), AsSet(j.used), Joined(j, |j.to|, Tmp(j, |j.to|)), g, joins) && v in g
    ensures Name(j, i, c) in g[v].children <==> v == Name(j, i, c + 1)
  {
    var t := Name(j, i, c);
    assert ChainUpTo(g, j, i, |j.used|);
    assert LinkAt(g, j, i, c + 1);
    if t in g[v].children {
      ChainShape(f, j, g, joins, v);
      var x: nat, d: nat :| x < |j.to| && 2 <= d <= |j.used| && v == Name(j, x, d)
              && g[v].children[1] == j.used[d - 1] && g[v].children[0] == if d == 2 then j.used[0] else Name(j, x, d - 1);
      NameIsNew(j, i, c, t);
      assert t !in j.used;
      assert t == Name(j, x, d - 1);
      NamesApart(j, i, c, x, d - 1);
    }
  }

  // What one link needs, and what it leaves.
  lemma LinkTurn(f: Field, j: Job, i: nat, dataq: seq<int>, coefq: seq<int>, c: nat)
    requires IsField(f) && JobOk(j) && i < |j.to| && c <= |j.used| && Chain(j, i, dataq, coefq, c) && |dataq| >= 2
    ensures Next(c) <= |j.used| && |coefq| == |dataq|
    ensures var p := Name(j, i, Next(c));
      && p == (if |dataq| > 2 then TopAt(j, i, c) else j.to[i])
      && TopAt(j, i, Next(c)) == TopAt(j, i, c) + (if |dataq| > 2 then 1 else 0)
      && p !in AsSet(j.used) && p !in DoneAt(j, i, c) && DoneAt(j, i, c) + {p} == DoneAt(j, i, Next(c))
      && AllThere(AsSet(j.used), DoneAt(j, i, c), dataq[..2])
      && Identity(f, PipeWords(f, j), p, dataq[..2], coefq[..2])
      && Chain(j, i, [p] + dataq[2..], [1] + coefq[2..], Next(c))
  {
    LinkAdds(f, j, i, dataq, coefq, c);
    TmpStep(j, i);
    NewName(j, i, TopAt(j, i, c), Name(j, i, Next(c)));
    assert |dataq| == if c == 0 then |j.used| else |j.used| - c + 1;
  }

  lemma TmpStep(j: Job, i: nat)
    requires |j.used| >= 2
    ensures Tmp(j, i + 1) == Tmp(j, i) + |j.used| - 2 && Tmp(j, i) >= j.n
  {
    assert (i + 1) * (|j.used| - 2) == i * (|j.used| - 2) + |j.used| - 2;
    P.Scale(0, i, |j.used| - 1);
  }

  // ------------------------------------------------------------ what they give

  // Evaluated from what the survivors store, a DAG that was decoded in these
  // words gives at every lost index the combination of the inputs.
  ghost predicate Computes(f: Field, g: Graph, j: Job)
    requires JobOk(j)
  {
    forall leaf: int -> Byte, rank: map<int, nat>, i: nat {:trigger Gives(f, g, rank, leaf, j, i)} ::
      Ranked(g, rank) && i < |j.to| ==> Gives(f, g, rank, leaf, j, i)
  }

  ghost predicate Gives(f: Field, g: Graph, rank: map<int, nat>, leaf: int -> Byte, j: Job, i: nat)
    requires JobOk(j) && Ranked(g, rank) && i < |j.to|
  {
    j.to[i] in g && Value(f, g, rank, leaf, j.to[i]) == Comb(f, j.coefs[i], j.used, leaf)
  }

  // The word with given inputs.
  ghost function WordOf(f: Field, j: Job, leaf: int -> Byte): (int -> Byte)
    requires JobOk(j)
  {
    v => WordAt(f, j, leaf, v)
  }

  ghost function WordAt(f: Field, j: Job, leaf: int -> Byte, v: int): Byte
    requires JobOk(j)
  {
    if v in j.used then leaf(v)
    else if i: nat, c: nat :| IsName(j, i, c, v) then Comb(f, j.coefs[i], j.used[..c], leaf)
    else leaf(v)
  }

  ghost predicate IsName(j: Job, i: nat, c: nat, v: int) {
    i < |j.to| && (2 <= c || c == |j.used|) && c <= |j.used| && v == Name(j, i, c)
  }

  // No name is used twice.
  lemma NamesApart(j: Job, i: nat, c: nat, x: nat, d: nat)
    requires JobOk(j) && i < |j.to| && IsName(j, i, c, Name(j, i, c)) && IsName(j, x, d, Name(j, i, c))
    ensures i == x && c == d
  {
    if c == |j.used| {
      if d < |j.used| { TmpStep(j, x); }
    } else {
      TmpStep(j, i);
      var s := |j.used| - 2;
      P.DivMod(i, c - 2, s);
      if d < |j.used| { P.DivMod(x, d - 2, s); }
    }
  }

  lemma NameIsNew(j: Job, i: nat, c: nat, v: int)
    requires JobOk(j) && IsName(j, i, c, v)
    ensures v !in j.used
  {
    if c < |j.used| { TmpStep(j, i); } else { assert j.to[i] in j.to; }
    forall x | 0 <= x < |j.used| ensures j.used[x] != v { }
  }

  lemma WordIsWord(f: Field, j: Job, leaf: int -> Byte)
    requires JobOk(j)
    ensures PipeWords(f, j)(WordOf(f, j, leaf))
    ensures forall v :: v in j.used ==> WordOf(f, j, leaf)(v) == leaf(v)
  {
    var val := WordOf(f, j, leaf);
    forall i: nat, c: nat | i < |j.to| && (2 <= c || c == |j.used|) && c <= |j.used| ensures Part(f, j, val, i, c) {
      var v := Name(j, i, c);
      assert IsName(j, i, c, v);
      NameIsNew(j, i, c, v);
      NameHasValue(f, j, leaf, i, c);
      forall x | 0 <= x < c ensures val(j.used[..c][x]) == leaf(j.used[..c][x]) {
        assert j.used[x] in j.used;
      }
      CombAgrees(f, j.coefs[i], j.used[..c], val, leaf);
    }
  }

  lemma NameHasValue(f: Field, j: Job, leaf: int -> Byte, i: nat, c: nat)
    requires JobOk(j) && i < |j.to| && IsName(j, i, c, Name(j, i, c)) && Name(j, i, c) !in j.used
    ensures WordAt(f, j, leaf, Name(j, i, c)) == Comb(f, j.coefs[i], j.used[..c], leaf)
  {
    var v := Name(j, i, c);
    var x: nat, d: nat :| IsName(j, x, d, v) && WordAt(f, j, leaf, v) == Comb(f, j.coefs[x], j.used[..d], leaf);
    NamesApart(j, i, c, x, d);
  }

  // The chain and the flat combination give the same at every lost index:
  // the combination of the inputs with the coefficients of the job.
  lemma ProgressComputes(f: Field, j: Job, done: set<int>, nodes: Graph, joins: multiset<int>)
    requires JobOk(j) && Progress(f, PipeWords(f, j), AsSet(j.used), done, nodes, joins)
    requires forall i :: 0 <= i < |j.to| ==> j.to[i] in done
    ensures Computes(f, nodes, j)
  {
    forall leaf: int -> Byte, rank: map<int, nat>, i: nat | Ranked(nodes, rank) && i < |j.to|
      ensures Gives(f, nodes, rank, leaf, j, i)
    {
      OneComputes(f, j, done, nodes, joins, leaf, rank, i);
    }
  }

  lemma OneComputes(f: Field, j: Job, done: set<int>, nodes: Graph, joins: multiset<int>, leaf: int -> Byte, rank: map<int, nat>, i: nat)
    requires JobOk(j) && Progress(f, PipeWords(f, j), AsSet(j.used), done, nodes, joins)
    requires i < |j.to| && j.to[i] in done && Ranked(nodes, rank)
    ensures Gives(f, nodes, rank, leaf, j, i)
  {
    var val := WordOf(f, j, leaf);
    WordIsWord(f, j, leaf);
    JoinedIsRight(f, PipeWords(f, j), AsSet(j.used), done, nodes, joins, rank, val, leaf, j.to[i]);
    assert Part(f, j, val, i, |j.used|);
    assert j.used[..|j.used|] == j.used;
    forall x | 0 <= x < |j.used| ensures val(j.used[x]) == leaf(j.used[x]) { assert j.used[x] in j.used; }
    CombAgrees(f, j.coefs[i], j.used, val, leaf);
  }

  lemma ChainIsFlat(f: Field, j: Job, chain: Graph, flat: Graph, a: map<int, nat>, b: map<int, nat>, leaf: int -> Byte, i: nat)
    requires JobOk(j) && Computes(f, chain, j) && Computes(f, flat, j) && Ranked(chain, a) && Ranked(flat, b) && i < |j.to|
    ensures j.to[i] in chain && j.to[i] in flat
    ensures Value(f, chain, a, leaf, j.to[i]) == Value(f, flat, b, leaf, j.to[i])
  {
    assert Gives(f, chain, a, leaf, j, i) && Gives(f, flat, b, leaf, j, i);
  }

  // With survivors that store a word of the code, the lost symbols come back
  // if the inverter's result is an inverse in the field of the code.
  lemma LostComesBack(f: Field, invert: Inverter, from: seq<int>, to: seq<int>, k: nat, n: nat, data: Row, g: Graph,
                      rank: map<int, nat>, leaf: int -> Byte, i: nat)
    requires IsField(f) && KeepsShape(invert) && Request(from, to, k, n) && |data| == k && Ranked(g, rank) && i < |to|
    requires Computes(f, g, JobOf(f, invert, from, to, k, n))
    requires LeftInverse(f, invert(Selected(f, from, k, n), k), Selected(f, from, k, n), k)
    requires forall x :: 0 <= x < k ==> leaf(from[x]) == Dot(f, Generator(f, n, k)[from[x]], data)
    ensures to[i] in g && Value(f, g, rank, leaf, to[i]) == Dot(f, Generator(f, n, k)[to[i]], data)
  {
    var j := JobOf(f, invert, from, to, k, n);
    var sel, e := Selected(f, from, k, n), Generator(f, n, k)[to[i]];
    var inverse := invert(sel, k);
    assert Gives(f, g, rank, leaf, j, i);
    CombIsDot(f, j.coefs[i], j.used, leaf);
    assert ValuesOf(leaf, j.used) == Apply(f, sel, data);
    InverseIsEnough(f, e, inverse, sel, k, data);
    assert RightAt(f, j.coefs[i], sel, e, data);
  }
}
