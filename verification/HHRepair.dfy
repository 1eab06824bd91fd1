// src/ec/HHXORPlus.cc: the class, its Encode, and DecodeSingle for a data node.
module HHRepair {
  import opened Util
  import opened GF
  import opened Dag
  import opened Join
  import opened EcDag
  import opened Decoding
  import opened Matrix
  import opened Patch
  import opened HHLayout
  import opened HHCode
  import opened HHSingle

  // The parities joined before parity i of half sp.
  predicate ParityBefore(h: Hh, s: Sym, sp: int, i: int) {
    match s
    case D(a, node) => 0 <= a < 2 && h.k <= node < h.n && Uncoupled(h, a, node - h.k) == s && (a < sp || (a == sp && node - h.k < i))
    case U0 => 0 < sp || (sp == 0 && 1 < i)
    case U1(p) => GroupOk(h, p) && (1 < sp || (sp == 1 && p < i))
    case _ => false
  }

  lemma NextParity(h: Hh, sp: nat, i: nat, done: set<Sym>)
    requires HhOk(h) && sp < 2 && i < h.n - h.k
    requires forall s {:trigger s in done} :: s in done <==> ParityBefore(h, s, sp, i)
    ensures Uncoupled(h, sp, i) !in done
    ensures var more := done + {Uncoupled(h, sp, i)};
      forall s {:trigger s in more} :: s in more <==> ParityBefore(h, s, sp, i + 1)
  {
  }

  lemma NextHalf(h: Hh, sp: nat, done: set<Sym>)
    requires HhOk(h) && sp < 2 && forall s {:trigger s in done} :: s in done <==> ParityBefore(h, s, sp, h.n - h.k)
    ensures forall s {:trigger s in done} :: s in done <==> ParityBefore(h, s, sp + 1, 0)
  {
  }

  // ... with the groups below p, and with the coupled parities below p.
  predicate Uncovered(h: Hh, s: Sym, p: int) { ParityBefore(h, s, 2, 0) || (s.Gr? && 1 <= s.p < p) }

  predicate Covered(h: Hh, s: Sym, p: int) {
    Uncovered(h, s, h.n - h.k) || s == D(0, h.k + 1) || (s.D? && s.sp == 1 && h.k < s.node < h.k + p)
  }

  // What Encode joins: everything but the data and the spare symbol.
  predicate Encoded(h: Hh, s: Sym) { SymOk(h, s) && s != Last && !(s.D? && s.node < h.k) }

  ghost predicate TablesAre(h: Hh, f: Field, layout: seq<seq<int>>, dataLayout: seq<seq<int>>, codeLayout: seq<seq<int>>,
                            uncoupled: seq<seq<int>>, groupCode: map<int, int>, groups: map<int, seq<int>>,
                            additional: seq<int>, matrix: Mat)
    requires HhOk(h)
  {
    && SymbolsAre(h, layout, dataLayout, codeLayout, uncoupled, groupCode, additional)
    && GroupsAre(h, groups, Groups(h)) && matrix == EncMatrix(f, h)
  }

  ghost predicate SymbolsAre(h: Hh, layout: seq<seq<int>>, dataLayout: seq<seq<int>>, codeLayout: seq<seq<int>>,
                             uncoupled: seq<seq<int>>, groupCode: map<int, int>, additional: seq<int>)
    requires HhOk(h)
  {
    && LayoutIs(h, layout, 0, h.n) && LayoutIs(h, dataLayout, 0, h.k) && LayoutIs(h, codeLayout, h.k, h.n - h.k)
    && UncoupledIs(h, uncoupled) && CodesAre(h, groupCode, Groups(h))
    && |additional| == Additional(h) && (forall t :: 0 <= t < |additional| ==> additional[t] == Base(h) + t)
  }

  method BuildTables(h: Hh)
    returns (layout: seq<seq<int>>, dataLayout: seq<seq<int>>, codeLayout: seq<seq<int>>, uncoupled: seq<seq<int>>,
             groupCode: map<int, int>, additional: seq<int>)
    requires HhOk(h)
    ensures SymbolsAre(h, layout, dataLayout, codeLayout, uncoupled, groupCode, additional)
  {
    layout, additional := InitLayout(h);
    dataLayout := [layout[0][..h.k], layout[1][..h.k]];
    codeLayout := [layout[0][h.k..], layout[1][h.k..]];
    uncoupled, groupCode := AssignSymbols(h, codeLayout, additional);
  }

  // ------------------------------------------------------ what is made of what

  // Encoding: an uncoupled parity from all data of its half, a group sum from
  // the group, a stored parity that carries a sum from what it adds up.
  predicate EncodeRule(h: Hh, s: Sym, srcs: seq<Sym>)
    requires HhOk(h) && SymOk(h, s)
  {
    match s
    case U0 => srcs == DataSyms(h, 0)
    case U1(_) => srcs == DataSyms(h, 1)
    case Gr(p) => srcs == GroupSyms(h, p)
    case D(sp, node) =>
      if sp == 0 && node == h.k + 1 then srcs == [U0, U1(1), Gr(1)]
      else if sp == 1 && node > h.k then srcs == [U1(node - h.k), Gr(node - h.k)]
      else srcs == DataSyms(h, sp)
    case Last => false
  }

  // Repair: everything of the second half from what is read of it; a group sum
  // from its carrier; the sub-symbol of the first half from its group, or, for
  // the last data node, from the sum of all carriers.
  ghost predicate RepairRule(h: Hh, failed: nat, s: Sym, srcs: seq<Sym>)
    requires HhOk(h) && SymOk(h, s) && failed < h.k
  {
    match s
    case U0 => false
    case U1(_) => srcs == FirstSyms(h, failed)
    case Gr(p) => srcs == [U1(p), D(1, h.k + p)]
    case D(sp, node) =>
      && node == failed
      && if sp == 1 then srcs == FirstSyms(h, failed)
         else if failed == h.k - 1 then srcs == [Last]
         else exists p: nat :: FromGroup(h, failed, p, srcs)
    case Last => srcs == CoupleSyms(h, Groups(h))
  }

  ghost predicate FromGroup(h: Hh, failed: nat, p: nat, srcs: seq<Sym>)
    requires HhOk(h)
  {
    InGroup(h, p, failed) && srcs == RestSyms(h, p, failed - GroupStart(h, p))
  }

  ghost predicate Rule(h: Hh, known: set<Sym>, s: Sym, srcs: seq<Sym>)
    requires HhOk(h) && SymOk(h, s)
  {
    if known == DataKnown(h) then EncodeRule(h, s, srcs)
    else exists failed: nat :: failed < h.k && known == Needed(h, failed) && RepairRule(h, failed, s, srcs)
  }

  // A joined symbol has the children that the rule calls for.
  ghost predicate Ruled(h: Hh, known: set<Sym>, nodes: Graph, s: Sym)
    requires HhOk(h)
  {
    SymOk(h, s) && exists srcs: seq<Sym> :: Rule(h, known, s, srcs) && MadeOf(nodes, Ix(h, s), IxAll(h, srcs))
  }

  ghost predicate ByRule(h: Hh, known: set<Sym>, s: Sym, srcs: seq<Sym>)
    requires HhOk(h)
  {
    forall x: int {:trigger Peek(x)} :: Peek(x) ==> SymOk(h, s) && Rule(h, known, s, srcs)
  }

  ghost predicate AllRuled(h: Hh, known: set<Sym>, done: set<Sym>, nodes: Graph)
    requires HhOk(h)
  {
    forall x: int {:trigger Peek(x)} :: Peek(x) ==> forall s {:trigger s in done} :: s in done ==> Ruled(h, known, nodes, s)
  }

  lemma RuledMore(h: Hh, known: set<Sym>, done: set<Sym>, before: Graph, after: Graph, t: Sym, srcs: seq<Sym>)
    requires HhOk(h) && AllRuled(h, known, done, before) && Extends(before, after)
    requires ByRule(h, known, t, srcs) && MadeOf(after, Ix(h, t), IxAll(h, srcs))
    ensures AllRuled(h, known, done + {t}, after)
  {
    assert Peek(0);
    forall s | s in done + {t} ensures Ruled(h, known, after, s) {
      if s in done { RuledStays(h, known, before, after, s); }
    }
  }

  lemma RuledStays(h: Hh, known: set<Sym>, before: Graph, after: Graph, s: Sym)
    requires HhOk(h) && Ruled(h, known, before, s) && Extends(before, after)
    ensures Ruled(h, known, after, s)
  {
    var srcs: seq<Sym> :| Rule(h, known, s, srcs) && MadeOf(before, Ix(h, s), IxAll(h, srcs));
    assert MadeOf(after, Ix(h, s), IxAll(h, srcs));
  }

  lemma EncodeByRule(h: Hh, s: Sym, srcs: seq<Sym>)
    requires HhOk(h) && SymOk(h, s) && EncodeRule(h, s, srcs)
    ensures ByRule(h, DataKnown(h), s, srcs)
  {
  }

  lemma RepairByRule(h: Hh, failed: nat, s: Sym, srcs: seq<Sym>)
    requires HhOk(h) && SymOk(h, s) && failed < h.k && RepairRule(h, failed, s, srcs)
    ensures ByRule(h, Needed(h, failed), s, srcs)
  {
    assert IsNeeded(h, failed, D(1, h.k));
    assert D(1, h.k) in Needed(h, failed) && D(1, h.k) !in DataKnown(h);
  }

  lemma MemberByRule(h: Hh, p: nat, at: nat, failed: nat)
    requires HhOk(h) && GroupOk(h, p) && at < GroupSize(h, p) && failed == GroupStart(h, p) + at && failed < h.k
    ensures ByRule(h, Needed(h, failed), D(0, failed), RestSyms(h, p, at))
  {
    GroupRange(h, p);
    assert FromGroup(h, failed, p, RestSyms(h, p, at));
    RepairByRule(h, failed, D(0, failed), RestSyms(h, p, at));
  }

  // What the repair joins.
  ghost predicate Rejoined(h: Hh, failed: nat, s: Sym)
    requires HhOk(h) && failed < h.k
  {
    || s == D(0, failed) || s == D(1, failed)
    || (failed < h.k - 1 && (s == U1(Home(h, failed)) || s == Gr(Home(h, failed))))
    || (failed == h.k - 1 && (s == Last || (s.U1? && GroupOk(h, s.p))))
  }

  // All of it; closed until it is used.
  ghost predicate AllRejoined(h: Hh, failed: nat, done: set<Sym>)
    requires HhOk(h) && failed < h.k
  {
    forall x: int {:trigger Peek(x)} :: Peek(x) ==> forall s {:trigger s in done} :: s in done <==> Rejoined(h, failed, s)
  }

  lemma OpenRejoined(h: Hh, failed: nat, done: set<Sym>)
    requires HhOk(h) && failed < h.k && AllRejoined(h, failed, done)
    ensures forall s {:trigger s in done} :: s in done <==> Rejoined(h, failed, s)
  {
    assert Peek(0);
  }

  lemma AfterMember(h: Hh, failed: nat, done: set<Sym>)
    requires HhOk(h) && failed + 1 < h.k
    requires done == {D(1, failed), U1(Home(h, failed)), Gr(Home(h, failed)), D(0, failed)}
    ensures AllRejoined(h, failed, done)
  {
  }

  lemma AfterUncoupled(h: Hh, failed: nat, done: set<Sym>)
    requires HhOk(h) && failed == h.k - 1
    requires forall s {:trigger s in done} :: s in done <==> s == D(1, failed) || (s.U1? && GroupOk(h, s.p))
    ensures Last !in done && D(0, failed) !in done && forall q {:trigger U1(q)} :: GroupOk(h, q) ==> U1(q) in done
    ensures AllRejoined(h, failed, done + {Last} + {D(0, failed)})
  {
  }

  lemma RuleOfEncoding(h: Hh, done: set<Sym>, nodes: Graph, s: Sym)
    requires HhOk(h) && AllRuled(h, DataKnown(h), done, nodes) && s in done
    ensures SymOk(h, s) && exists srcs: seq<Sym> :: EncodeRule(h, s, srcs) && MadeOf(nodes, Ix(h, s), IxAll(h, srcs))
  {
    assert Peek(0) && Ruled(h, DataKnown(h), nodes, s);
  }

  lemma RuleOfRepair(h: Hh, failed: nat, done: set<Sym>, nodes: Graph, s: Sym)
    requires HhOk(h) && failed < h.k && AllRuled(h, Needed(h, failed), done, nodes) && s in done
    ensures SymOk(h, s) && exists srcs: seq<Sym> :: RepairRule(h, failed, s, srcs) && MadeOf(nodes, Ix(h, s), IxAll(h, srcs))
  {
    assert Peek(0) && Ruled(h, Needed(h, failed), nodes, s);
    assert IsNeeded(h, failed, D(1, h.k));
    assert D(1, h.k) in Needed(h, failed) && D(1, h.k) !in DataKnown(h);
    var srcs: seq<Sym> :| Rule(h, Needed(h, failed), s, srcs) && MadeOf(nodes, Ix(h, s), IxAll(h, srcs));
    var other: nat :| other < h.k && Needed(h, failed) == Needed(h, other) && RepairRule(h, other, s, srcs);
    NeededApart(h, failed, other);
  }

  lemma NeededApart(h: Hh, a: nat, b: nat)
    requires HhOk(h) && a < h.k && b < h.k && Needed(h, a) == Needed(h, b)
    ensures a == b
  {
    assert D(1, a) in Needed(h, a) <==> IsNeeded(h, a, D(1, a));
    assert D(1, a) in Needed(h, b) <==> IsNeeded(h, b, D(1, a));
    assert IsNeeded(h, b, D(1, a)) <==> a != b;
  }

  class HHXORPlus {
    const h: Hh
    const f: Field
    const invert: Mat -> Mat
    var layout: seq<seq<int>>
    var dataLayout: seq<seq<int>>
    var codeLayout: seq<seq<int>>
    var uncoupled: seq<seq<int>>
    var groupCode: map<int, int>
    var groups: map<int, seq<int>>
    var additional: seq<int>
    var matrix: Mat

    ghost predicate Valid()
      reads this
    {
      HhOk(h) && IsField(f) && Inverts(f, invert) && forall x {:trigger Look(x)} :: Look(x) ==> Tables()
    }

    // The tables hold the numbers of the symbols.
    ghost predicate Tables()
      requires HhOk(h)
      reads this
    {
      TablesAre(h, f, layout, dataLayout, codeLayout, uncoupled, groupCode, groups, additional, matrix)
    }

    constructor (p: Hh, field: Field, inv: Mat -> Mat)
      requires HhOk(p) && IsField(field) && Inverts(field, inv)
      ensures Valid() && h == p && f == field && invert == inv
    {
      h, f, invert := p, field, inv;
      matrix, layout, dataLayout, codeLayout, uncoupled, groupCode, groups, additional := [], [], [], [], [], map[], map[], [];
      new;
      matrix := MakeMatrix(f, h);
      groups := DivideGroups(h);
      layout, dataLayout, codeLayout, uncoupled, groupCode, additional := BuildTables(h);
    }

    ghost predicate Holds(dag: ECDAG, known: set<Sym>, done: set<Sym>)
      requires HhOk(h)
      reads dag
    {
      forall x {:trigger Look(x)} :: Look(x) ==>
        && dag.Valid() && Certain(f, WordsOf(f, h), Ixs(h, known), Ixs(h, done), dag.nodes, dag.joins, true)
        && AllRuled(h, known, done, dag.nodes)
    }

    // Before the first Join, and after the last.
    lemma Start(dag: ECDAG, known: set<Sym>)
      requires HhOk(h) && dag.Valid() && dag.nodes == map[] && dag.joins == multiset{}
      ensures Holds(dag, known, {})
    {
      NothingYet(f, WordsOf(f, h), Ixs(h, known));
      assert Ixs(h, {}) == {};
    }

    lemma Open(dag: ECDAG, known: set<Sym>, done: set<Sym>)
      requires Valid() && Holds(dag, known, done)
      ensures dag.Valid() && Decoded(f, h, known, done, dag.nodes, dag.joins) && AllRuled(h, known, done, dag.nodes)
    {
      assert Look(0);
      Uncertain(f, WordsOf(f, h), Ixs(h, known), Ixs(h, done), dag.nodes, dag.joins, true);
    }

    // ---------------------------------------------------------------- encoding

    method EncodeParities(dag: ECDAG) returns (ghost done: set<Sym>)
      requires Valid() && Holds(dag, DataKnown(h), {})
      modifies dag
      ensures Holds(dag, DataKnown(h), done)
      ensures forall s {:trigger s in done} :: s in done <==> ParityBefore(h, s, 2, 0)
    {
      done := {};
      var sp := 0;
      while sp < 2
        invariant 0 <= sp <= 2 && Holds(dag, DataKnown(h), done)
        invariant forall s {:trigger s in done} :: s in done <==> ParityBefore(h, s, sp, 0)
      {
        done := EncodeHalf(dag, sp, done);
        sp := sp + 1;
      }
    }

    method EncodeHalf(dag: ECDAG, sp: nat, ghost done0: set<Sym>) returns (ghost done: set<Sym>)
      requires Valid() && sp < 2 && Holds(dag, DataKnown(h), done0)
      requires forall s {:trigger s in done0} :: s in done0 <==> ParityBefore(h, s, sp, 0)
      modifies dag
      ensures Holds(dag, DataKnown(h), done)
      ensures forall s {:trigger s in done} :: s in done <==> ParityBefore(h, s, sp + 1, 0)
    {
      done := done0;
      var i := 0;
      while i < h.n - h.k
        invariant 0 <= i <= h.n - h.k && Holds(dag, DataKnown(h), done)
        invariant forall s {:trigger s in done} :: s in done <==> ParityBefore(h, s, sp, i)
      {
        NextParity(h, sp, i, done);
        EncodeParity(dag, sp, i, done);
        done := done + {Uncoupled(h, sp, i)};
        i := i + 1;
      }
      NextHalf(h, sp, done);
    }

    // Looking a symbol up.
    function UncoupledAt(sp: nat, i: nat): (v: int)
      requires Valid() && sp < 2 && i < h.n - h.k
      reads this
      ensures v == Ix(h, Uncoupled(h, sp, i))
    {
      assert Look(0);
      uncoupled[sp][i]
    }

    function StoredAt(sp: nat, node: nat): (v: int)
      requires Valid() && sp < 2 && node < h.n
      reads this
      ensures v == Ix(h, D(sp, node))
    {
      assert Look(0);
      layout[sp][node]
    }

    function GroupCodeAt(p: nat): (v: int)
      requires Valid() && GroupOk(h, p)
      reads this
      ensures v == Ix(h, Gr(p))
    {
      assert Look(0);
      groupCode[p]
    }

    function RowAt(i: nat): (row: Row)
      requires Valid() && i < h.n
      reads this
      ensures row == EncRow(f, h, i)
    {
      assert Look(0);
      matrix[i]
    }

    function DataAt(sp: nat): (row: seq<int>)
      requires Valid() && sp < 2
      reads this
      ensures row == IxAll(h, DataSyms(h, sp))
    {
      assert Look(0);
      assert dataLayout[sp] == IxAll(h, DataSyms(h, sp));
      dataLayout[sp]
    }

    function GroupAt(p: nat): (group: seq<int>)
      requires Valid() && GroupOk(h, p)
      reads this
      ensures group == Group(h, p)
    {
      assert Look(0);
      groups[p]
    }

    // One Join on symbols.
    method JoinSym(dag: ECDAG, t: int, cs: seq<int>, coefs: seq<int>, ghost s: Sym, ghost srcs: seq<Sym>,
                   ghost known: set<Sym>, ghost done: set<Sym>)
      requires Valid() && Holds(dag, known, done) && srcs != []
      requires SymOk(h, s) && s !in known && s !in done && AllReady(h, known, done, srcs)
      requires t == Ix(h, s) && cs == IxAll(h, srcs) && Gives(f, h, s, srcs, coefs) && ByRule(h, known, s, srcs)
      modifies dag
      ensures Holds(dag, known, done + {s})
    {
      assert Look(0);
      IxIn(h, known, s);
      IxIn(h, done, s);
      IxsAdd(h, done, s);
      ReadyThere(h, known, done, srcs);
      ghost var before := dag.nodes;
      JoinOne(dag, t, cs, coefs, f, WordsOf(f, h), Ixs(h, known), Ixs(h, done), true);
      RuledMore(h, known, done, before, dag.nodes, s, srcs);
    }

    method EncodeParity(dag: ECDAG, sp: nat, i: nat, ghost done: set<Sym>)
      requires Valid() && Holds(dag, DataKnown(h), done) && sp < 2 && i < h.n - h.k && Uncoupled(h, sp, i) !in done
      modifies dag
      ensures Holds(dag, DataKnown(h), done + {Uncoupled(h, sp, i)})
    {
      ParityGives(f, h, sp, i);
      DataReady(h, done, sp);
      UncoupledFits(h, sp, i);
      var t := UncoupledAt(sp, i);
      var cs := DataAt(sp);
      var coefs := RowAt(h.k + i);
      EncodeByRule(h, Uncoupled(h, sp, i), DataSyms(h, sp));
      JoinSym(dag, t, cs, coefs, Uncoupled(h, sp, i), DataSyms(h, sp), DataKnown(h), done);
    }

    method EncodeGroup(dag: ECDAG, p: nat, ghost done: set<Sym>)
      requires Valid() && Holds(dag, DataKnown(h), done) && GroupOk(h, p) && Gr(p) !in done
      modifies dag
      ensures Holds(dag, DataKnown(h), done + {Gr(p)})
    {
      var t := GroupCodeAt(p);
      var cs := GroupIndices(p);
      var coefs := GroupRow(p);
      GroupGives(f, h, p);
      GroupReady(h, done, p);
      EncodeByRule(h, Gr(p), GroupSyms(h, p));
      JoinSym(dag, t, cs, coefs, Gr(p), GroupSyms(h, p), DataKnown(h), done);
    }

    method GroupIndices(p: nat) returns (cidx: seq<int>)
      requires Valid() && GroupOk(h, p)
      ensures cidx == IxAll(h, GroupSyms(h, p))
    {
      GroupRange(h, p);
      var group := GroupAt(p);
      cidx := [];
      var i := 0;
      while i < |group|
        invariant 0 <= i <= |group| && |cidx| == i
        invariant forall a :: 0 <= a < i ==> cidx[a] == Ix(h, D(0, group[a]))
      {
        cidx := cidx + [StoredAt(0, group[i])];
        i := i + 1;
      }
      assert cidx == IxAll(h, GroupSyms(h, p));
    }

    method GroupRow(p: nat) returns (coefs: Row)
      requires Valid() && GroupOk(h, p)
      ensures coefs == GroupCoefs(f, h, p)
    {
      GroupRange(h, p);
      var group := GroupAt(p);
      var row := RowAt(h.k + 1);
      coefs := [];
      var i := 0;
      while i < |group|
        invariant 0 <= i <= |group| && |coefs| == i
        invariant forall a :: 0 <= a < i ==> coefs[a] == row[group[a]]
      {
        coefs := coefs + [row[group[i]]];
        i := i + 1;
      }
      assert coefs == GroupCoefs(f, h, p);
    }

    method EncodeCouple(dag: ECDAG, ghost done: set<Sym>)
      requires Valid() && Holds(dag, DataKnown(h), done) && D(0, h.k + 1) !in done
      requires U0 in done && U1(1) in done && Gr(1) in done
      modifies dag
      ensures Holds(dag, DataKnown(h), done + {D(0, h.k + 1)})
    {
      CoupleGives(f, h);
      var t := StoredAt(0, h.k + 1);
      var a := UncoupledAt(0, 1);
      var b := UncoupledAt(1, 1);
      var c := GroupCodeAt(1);
      assert [a, b, c] == IxAll(h, [U0, U1(1), Gr(1)]);
      EncodeByRule(h, D(0, h.k + 1), [U0, U1(1), Gr(1)]);
      JoinSym(dag, t, [a, b, c], [1, 1, 1], D(0, h.k + 1), [U0, U1(1), Gr(1)], DataKnown(h), done);
    }

    method EncodePiggyback(dag: ECDAG, p: nat, ghost done: set<Sym>)
      requires Valid() && Holds(dag, DataKnown(h), done) && GroupOk(h, p) && D(1, h.k + p) !in done
      requires U1(p) in done && Gr(p) in done
      modifies dag
      ensures Holds(dag, DataKnown(h), done + {D(1, h.k + p)})
    {
      PiggybackGives(f, h, p);
      var t := StoredAt(1, h.k + p);
      var a := UncoupledAt(1, p);
      var b := GroupCodeAt(p);
      assert [a, b] == IxAll(h, [U1(p), Gr(p)]);
      EncodeByRule(h, D(1, h.k + p), [U1(p), Gr(p)]);
      JoinSym(dag, t, [a, b], [1, 1], D(1, h.k + p), [U1(p), Gr(p)], DataKnown(h), done);
    }

    method NextGroup(dag: ECDAG, p: nat, ghost done: set<Sym>) returns (ghost after: set<Sym>)
      requires Valid() && GroupOk(h, p) && Holds(dag, DataKnown(h), done)
      requires forall s {:trigger s in done} :: s in done <==> Uncovered(h, s, p)
      modifies dag
      ensures Holds(dag, DataKnown(h), after)
      ensures forall s {:trigger s in after} :: s in after <==> Uncovered(h, s, p + 1)
    {
      EncodeGroup(dag, p, done);
      after := done + {Gr(p)};
    }

    method EncodeGroups(dag: ECDAG, ghost done0: set<Sym>) returns (ghost done: set<Sym>)
      requires Valid() && Holds(dag, DataKnown(h), done0)
      requires forall s {:trigger s in done0} :: s in done0 <==> ParityBefore(h, s, 2, 0)
      modifies dag
      ensures Holds(dag, DataKnown(h), done)
      ensures forall s {:trigger s in done} :: s in done <==> Uncovered(h, s, h.n - h.k)
    {
      done := done0;
      var p := 1;
      while p <= h.n - h.k - 1
        invariant 1 <= p <= h.n - h.k && Holds(dag, DataKnown(h), done)
        invariant forall s {:trigger s in done} :: s in done <==> Uncovered(h, s, p)
      {
        done := NextGroup(dag, p, done);
        p := p + 1;
      }
    }

    method EncodePiggybacks(dag: ECDAG, ghost done0: set<Sym>) returns (ghost done: set<Sym>)
      requires Valid() && Holds(dag, DataKnown(h), done0)
      requires forall s {:trigger s in done0} :: s in done0 <==> Covered(h, s, 1)
      modifies dag
      ensures Holds(dag, DataKnown(h), done)
      ensures forall s {:trigger s in done} :: s in done <==> Covered(h, s, h.n - h.k)
    {
      done := done0;
      var p := 1;
      while p <= h.n - h.k - 1
        invariant 1 <= p <= h.n - h.k && Holds(dag, DataKnown(h), done)
        invariant forall s {:trigger s in done} :: s in done <==> Covered(h, s, p)
      {
        EncodePiggyback(dag, p, done);
        done := done + {D(1, h.k + p)};
        p := p + 1;
      }
    }

    // Every parity, group sum and coupled parity is joined once, from data and
    // from what was joined before, by an equation of the code.
    method Encode(dag: ECDAG) returns (ghost done: set<Sym>)
      requires Valid() && dag.Valid() && dag.nodes == map[] && dag.joins == multiset{}
      modifies dag
      ensures dag.Valid() && Decoded(f, h, DataKnown(h), done, dag.nodes, dag.joins)
      ensures forall s {:trigger s in done} :: s in done <==> Encoded(h, s)
      ensures AllRuled(h, DataKnown(h), done, dag.nodes)
    {
      Start(dag, DataKnown(h));
      done := EncodeParities(dag);
      done := EncodeGroups(dag, done);
      EncodeCouple(dag, done);
      done := done + {D(0, h.k + 1)};
      done := EncodePiggybacks(dag, done);
      Open(dag, DataKnown(h), done);
    }

    // ---------------------------------------------------- repair of a data node

    // The node that stores a symbol, if any does.
    method FindNode(symbol: int) returns (found: int)
      requires Valid()
      ensures found == StoredBy(h, symbol)
    {
      found := -1;
      var w := 0;
      while w < 2
        invariant 0 <= w <= 2 && FoundIn(h, symbol, w, 0, found)
      {
        var i := 0;
        while i < h.n
          invariant 0 <= i <= h.n && FoundIn(h, symbol, w, i, found)
        {
          if symbol == StoredAt(w, i) {
            found := i;
            OnlyPlace(h, symbol, w, i);
            break;
          }
          i := i + 1;
        }
        w := w + 1;
      }
      StoredByIs(h, symbol, found);
    }

    // The data nodes that still have symbols, in order.
    method AvailableData(from: seq<int>, ghost failed: nat) returns (avail: seq<nat>)
      requires Valid() && failed < h.k && Offers(h, failed, from)
      ensures |avail| == h.k - 1 && forall i :: 0 <= i < h.k - 1 ==> avail[i] == Other(failed, i)
    {
      var nodeSyms: map<int, seq<int>> := map[];
      var i := 0;
      while i < |from|
        invariant 0 <= i <= |from|
        invariant forall b {:trigger b in nodeSyms} :: b in nodeSyms <==> b != -1 && Stores(h, b, from[..i])
      {
        assert from[..i + 1] == from[..i] + [from[i]];
        StoresMore(h, from[..i], from[i]);
        var alive := FindNode(from[i]);
        if alive != -1 {
          nodeSyms := nodeSyms[alive := (if alive in nodeSyms then nodeSyms[alive] else []) + [from[i]]];
        }
        i := i + 1;
      }
      assert from[..|from|] == from;
      avail := [];
      var b: nat := 0;
      while b < h.k
        invariant 0 <= b <= h.k && |avail| == if b <= failed then b else b - 1
        invariant forall x :: 0 <= x < |avail| ==> avail[x] == Other(failed, x)
      {
        if b in nodeSyms { avail := avail + [b]; }
        b := b + 1;
      }
    }

    // What a repair asks for, in the order of the source: for a parity node
    // all data.
    method GetRequiredSymbolsSingle(failed: nat) returns (required: seq<int>)
      requires Valid()
      ensures required == IxAll(h, if failed < h.k then NeededList(h, failed) else HalfData(h, 0) + HalfData(h, 1))
    {
      if failed < h.k {
        required := RequiredForData(failed);
      } else {
        var first := DataOfHalf(0);
        var second := DataOfHalf(1);
        required := first + second;
      }
    }

    method DataOfHalf(sp: nat) returns (list: seq<int>)
      requires Valid() && sp < 2
      ensures list == IxAll(h, HalfData(h, sp))
    {
      list := [];
      var j := 0;
      while j < h.k
        invariant 0 <= j <= h.k && list == IxAll(h, HalfData(h, sp))[..j]
      {
        list := list + [StoredAt(sp, j)];
        j := j + 1;
      }
    }

    method RequiredForData(failed: nat) returns (required: seq<int>)
      requires Valid() && failed < h.k
      ensures required == IxAll(h, NeededList(h, failed))
    {
      required := [];
      var j := 0;
      while j < h.k
        invariant 0 <= j <= h.k && |required| == if j <= failed then j else j - 1
        invariant forall x :: 0 <= x < |required| ==> required[x] == Ix(h, D(1, Other(failed, x)))
      {
        if j != failed { required := required + [StoredAt(1, j)]; }
        j := j + 1;
      }
      required := required + [StoredAt(1, h.k)];
      assert required == IxAll(h, FirstSyms(h, failed));
      ghost var first := required;
      if failed < h.k - 1 {
        var p := GroupOf(failed);
        var more := MembersOf(p, failed);
        required := required + more + [StoredAt(1, h.k + p)];
        HomeIs(h, p, failed);
        assert required == IxAll(h, FirstSyms(h, failed) + MemberSyms(h, p, failed) + [D(1, h.k + p)]);
      } else {
        var more := CarriersAfter();
        required := required + more + [StoredAt(0, h.k + 1)];
        assert required == IxAll(h, FirstSyms(h, failed) + CarrierSyms(h) + [D(0, h.k + 1)]);
      }
    }

    // The group that has the node; groups are looked through to the end.
    method GroupOf(failed: nat) returns (home: nat)
      requires Valid() && failed < h.k - 1
      ensures InGroup(h, home, failed)
    {
      home := 0;
      var p := 1;
      EveryNodeHasGroup(h, failed);
      while p <= h.n - h.k - 1
        invariant 1 <= p <= h.n - h.k
        invariant home == 0 ==> forall q :: 1 <= q < p ==> !InGroup(h, q, failed)
        invariant home != 0 ==> InGroup(h, home, failed)
      {
        GroupRange(h, p);
        var group := GroupAt(p);
        var i := 0;
        while i < |group|
          invariant 0 <= i <= |group|
          invariant home == 0 ==> forall q :: 1 <= q < p ==> !InGroup(h, q, failed)
          invariant home != 0 ==> InGroup(h, home, failed)
          invariant home == 0 ==> forall x :: 0 <= x < i ==> group[x] != failed
        {
          if group[i] == failed {
            home := p;
            break;
          }
          i := i + 1;
        }
        assert InGroup(h, p, failed) ==> group[failed - GroupStart(h, p)] == failed;
        p := p + 1;
      }
    }

    // The other members of the group, in the first half.
    method MembersOf(p: nat, failed: nat) returns (more: seq<int>)
      requires Valid() && InGroup(h, p, failed)
      ensures more == IxAll(h, MemberSyms(h, p, failed))
    {
      GroupRange(h, p);
      var group := GroupAt(p);
      more := [];
      var i := 0;
      while i < |group|
        invariant 0 <= i <= |group| && |more| == (if i <= failed - GroupStart(h, p) then i else i - 1)
        invariant forall x :: 0 <= x < |more| ==> more[x] == Ix(h, D(0, GroupStart(h, p) + Other(failed - GroupStart(h, p), x)))
      {
        if group[i] != failed { more := more + [StoredAt(0, group[i])]; }
        i := i + 1;
      }
      assert more == IxAll(h, MemberSyms(h, p, failed));
    }

    method CarriersAfter() returns (more: seq<int>)
      requires Valid()
      ensures more == IxAll(h, CarrierSyms(h))
    {
      more := [];
      var p := 1;
      while p <= h.n - h.k - 1
        invariant 1 <= p <= h.n - h.k && |more| == (if p == 1 then 0 else p - 2)
        invariant forall x :: 0 <= x < |more| ==> more[x] == Ix(h, D(1, h.k + 2 + x))
      {
        if p != 1 { more := more + [StoredAt(1, h.k + p)]; }
        p := p + 1;
      }
      assert more == IxAll(h, CarrierSyms(h));
    }

    // The rows of what is read: the other data nodes, then the first parity.
    method FirstMatrix(avail: seq<nat>, ghost failed: nat) returns (m: Mat)
      requires Valid() && failed < h.k && |avail| == h.k - 1
      requires forall i :: 0 <= i < h.k - 1 ==> avail[i] == Other(failed, i)
      ensures m == FirstRows(f, h, failed)
    {
      m := [];
      var i := 0;
      while i < |avail|
        invariant 0 <= i <= |avail| && |m| == i && forall x :: 0 <= x < i ==> m[x] == FirstRows(f, h, failed)[x]
      {
        m := m + [RowAt(avail[i])];
        i := i + 1;
      }
      m := m + [RowAt(h.k)];
      assert m == FirstRows(f, h, failed);
    }

    method FirstIndices(avail: seq<nat>, ghost failed: nat) returns (cidx: seq<int>)
      requires Valid() && failed < h.k && |avail| == h.k - 1
      requires forall i :: 0 <= i < h.k - 1 ==> avail[i] == Other(failed, i)
      ensures cidx == IxAll(h, FirstSyms(h, failed))
    {
      cidx := [];
      var i := 0;
      while i < |avail|
        invariant 0 <= i <= |avail| && |cidx| == i && forall x :: 0 <= x < i ==> cidx[x] == Ix(h, D(1, avail[x]))
      {
        cidx := cidx + [StoredAt(1, avail[i])];
        i := i + 1;
      }
      cidx := cidx + [StoredAt(1, h.k)];
      assert cidx == IxAll(h, FirstSyms(h, failed));
    }

    ghost predicate Inverted(failed: nat, inverse: Mat, cidx: seq<int>)
      requires HhOk(h) && failed < h.k
    {
      forall x {:trigger Look(x)} :: Look(x) ==>
        inverse == invert(FirstRows(f, h, failed)) && cidx == IxAll(h, FirstSyms(h, failed))
    }

    method JoinSecond(dag: ECDAG, failed: nat, inverse: Mat, cidx: seq<int>)
      requires Valid() && failed < h.k && Holds(dag, Needed(h, failed), {})
      requires Inverted(failed, inverse, cidx)
      modifies dag
      ensures Holds(dag, Needed(h, failed), {D(1, failed)})
    {
      assert inverse == invert(FirstRows(f, h, failed)) && cidx == IxAll(h, FirstSyms(h, failed)) by { assert Look(0); }
      DataGives(f, h, invert, failed);
      FirstReady(h, {}, failed);
      RepairByRule(h, failed, D(1, failed), FirstSyms(h, failed));
      JoinSym(dag, StoredAt(1, failed), cidx, inverse[failed], D(1, failed), FirstSyms(h, failed), Needed(h, failed), {});
      assert {} + {D(1, failed)} == {D(1, failed)};
    }

    method JoinParityBack(dag: ECDAG, p: nat, inverse: Mat, cidx: seq<int>, ghost failed: nat, ghost done: set<Sym>)
      requires Valid() && failed < h.k && GroupOk(h, p) && Holds(dag, Needed(h, failed), done) && U1(p) !in done
      requires Inverted(failed, inverse, cidx)
      modifies dag
      ensures Holds(dag, Needed(h, failed), done + {U1(p)})
    {
      assert inverse == invert(FirstRows(f, h, failed)) && cidx == IxAll(h, FirstSyms(h, failed)) by { assert Look(0); }
      ParityBackGives(f, h, invert, failed, p);
      FirstReady(h, done, failed);
      RepairByRule(h, failed, U1(p), FirstSyms(h, failed));
      JoinSym(dag, UncoupledAt(1, p), cidx, RowTimes(f, RowAt(h.k + p), inverse, h.k), U1(p), FirstSyms(h, failed),
              Needed(h, failed), done);
    }

    method JoinGroupBack(dag: ECDAG, p: nat, ghost failed: nat, ghost done: set<Sym>)
      requires Valid() && failed < h.k && InGroup(h, p, failed) && Holds(dag, Needed(h, failed), done) && Gr(p) !in done && U1(p) in done
      modifies dag
      ensures Holds(dag, Needed(h, failed), done + {Gr(p)})
    {
      GroupBackGives(f, h, p);
      SumReady(h, done, p, failed);
      RepairByRule(h, failed, Gr(p), [U1(p), D(1, h.k + p)]);
      assert [UncoupledAt(1, p), StoredAt(1, h.k + p)] == IxAll(h, [U1(p), D(1, h.k + p)]);
      JoinSym(dag, GroupCodeAt(p), [UncoupledAt(1, p), StoredAt(1, h.k + p)], [1, 1], Gr(p), [U1(p), D(1, h.k + p)],
              Needed(h, failed), done);
    }

    // The rows of the other members of the group, and the row of the group.
    method MemberMatrix(p: nat, at: nat) returns (m: Mat)
      requires Valid() && GroupOk(h, p) && at < GroupSize(h, p)
      ensures m == GroupRows(f, h, p, at)
    {
      var row := GroupRow(p);
      CoefsSize(f, h, p);
      var size := |row|;
      m := [];
      var i := 0;
      while i < size
        invariant 0 <= i <= size && |m| == (if i <= at then i else i - 1)
        invariant forall x :: 0 <= x < |m| ==> m[x] == GroupRows(f, h, p, at)[x]
      {
        if i != at { m := m + [Unit(size, i)]; }
        i := i + 1;
      }
      m := m + [row];
      assert m == GroupRows(f, h, p, at);
    }

    method MemberIndices(p: nat, at: nat) returns (cidx: seq<int>)
      requires Valid() && GroupOk(h, p) && at < GroupSize(h, p)
      ensures cidx == IxAll(h, RestSyms(h, p, at))
    {
      GroupRange(h, p);
      var group := GroupAt(p);
      cidx := [];
      var i := 0;
      while i < |group|
        invariant 0 <= i <= |group| && |cidx| == (if i <= at then i else i - 1)
        invariant forall x :: 0 <= x < |cidx| ==> cidx[x] == Ix(h, D(0, GroupStart(h, p) + Other(at, x)))
      {
        if i != at { cidx := cidx + [StoredAt(0, group[i])]; }
        i := i + 1;
      }
      cidx := cidx + [GroupCodeAt(p)];
      assert cidx == IxAll(h, RestSyms(h, p, at));
    }

    method JoinMember(dag: ECDAG, p: nat, at: nat, failed: nat, ghost done: set<Sym>)
      requires Valid() && GroupOk(h, p) && at < GroupSize(h, p) && failed == GroupStart(h, p) + at < h.k
      requires Valid() && Holds(dag, Needed(h, failed), done) && D(0, failed) !in done && Gr(p) in done
      modifies dag
      ensures Holds(dag, Needed(h, failed), done + {D(0, failed)})
    {
      var m := MemberMatrix(p, at);
      var cidx := MemberIndices(p, at);
      var inverse := invert(m);
      MemberGives(f, h, invert, p, at);
      RestReady(h, done, p, at);
      MemberByRule(h, p, at, failed);
      JoinSym(dag, StoredAt(0, failed), cidx, inverse[at], D(0, failed), RestSyms(h, p, at), Needed(h, failed), done);
    }

    // A node in a group: find the group, get its sum, and solve for the node.
    method DecodeMember(dag: ECDAG, failed: nat, inverse: Mat, cidx: seq<int>)
      returns (ghost done: set<Sym>)
      requires Valid() && failed + 1 < h.k && Holds(dag, Needed(h, failed), {D(1, failed)})
      requires Inverted(failed, inverse, cidx)
      modifies dag
      ensures Holds(dag, Needed(h, failed), done)
      ensures done == {D(1, failed), U1(Home(h, failed)), Gr(Home(h, failed)), D(0, failed)}
    {
      done := {D(1, failed)};
      var p := 1;
      ghost var home := 0;
      while p <= h.n - h.k - 1
        invariant 1 <= p <= h.n - h.k && Holds(dag, Needed(h, failed), done)
        invariant home == 0 ==> done == {D(1, failed)} && (p <= Groups(h) ==> GroupStart(h, p) <= failed) && p <= Groups(h)
        invariant home != 0 ==> GroupOk(h, home) && home < p && failed < GroupEnd(h, home)
        invariant home != 0 ==> home == Home(h, failed) && done == {D(1, failed), U1(home), Gr(home), D(0, failed)}
      {
        GroupRange(h, p);
        var group := GroupAt(p);
        if home != 0 { OneGroup(h, home, p, failed); }
        if GroupStart(h, p) <= failed < GroupEnd(h, p) {
          assert group[failed - GroupStart(h, p)] == failed;
          JoinParityBack(dag, p, inverse, cidx, failed, done);
          done := done + {U1(p)};
          JoinGroupBack(dag, p, failed, done);
          done := done + {Gr(p)};
          JoinMember(dag, p, failed - group[0], failed, done);
          done := done + {D(0, failed)};
          home := p;
          HomeIs(h, p, failed);
        }
        p := p + 1;
      }
    }

    // The last data node is in no group: add up all uncoupled parities and all
    // coupled ones.
    method DecodeLast(dag: ECDAG, failed: nat, inverse: Mat, cidx: seq<int>) returns (ghost done: set<Sym>)
      requires Valid() && failed == h.k - 1 && Holds(dag, Needed(h, failed), {D(1, failed)})
      requires Inverted(failed, inverse, cidx)
      modifies dag
      ensures Holds(dag, Needed(h, failed), done) && AllRejoined(h, failed, done)
    {
      done := JoinUncoupled(dag, failed, inverse, cidx);
      AfterUncoupled(h, failed, done);
      JoinLast(dag, failed, done);
      done := done + {Last} + {D(0, failed)};
    }

    method JoinLast(dag: ECDAG, failed: nat, ghost before: set<Sym>)
      requires Valid() && failed == h.k - 1 && Holds(dag, Needed(h, failed), before)
      requires Last !in before && D(0, failed) !in before && forall q {:trigger U1(q)} :: GroupOk(h, q) ==> U1(q) in before
      modifies dag
      ensures Holds(dag, Needed(h, failed), before + {Last} + {D(0, failed)})
    {
      JoinCouples(dag, failed, before);
      JoinScaled(dag, failed, before + {Last});
    }

    method JoinUncoupled(dag: ECDAG, failed: nat, inverse: Mat, cidx: seq<int>) returns (ghost done: set<Sym>)
      requires Valid() && failed < h.k && Holds(dag, Needed(h, failed), {D(1, failed)})
      requires Inverted(failed, inverse, cidx)
      modifies dag
      ensures Holds(dag, Needed(h, failed), done)
      ensures forall s {:trigger s in done} :: s in done <==> s == D(1, failed) || (s.U1? && GroupOk(h, s.p))
    {
      done := {D(1, failed)};
      var p := 1;
      while p <= h.n - h.k - 1
        invariant 1 <= p <= h.n - h.k && Holds(dag, Needed(h, failed), done)
        invariant forall s {:trigger s in done} :: s in done <==> s == D(1, failed) || (s.U1? && 1 <= s.p < p)
      {
        JoinParityBack(dag, p, inverse, cidx, failed, done);
        done := done + {U1(p)};
        p := p + 1;
      }
    }

    method JoinScaled(dag: ECDAG, failed: nat, ghost done: set<Sym>)
      requires Valid() && failed == h.k - 1 && Holds(dag, Needed(h, failed), done) && Last in done && D(0, failed) !in done
      modifies dag
      ensures Holds(dag, Needed(h, failed), done + {D(0, failed)})
    {
      LastGives(f, h);
      assert [SpareAt()] == IxAll(h, [Last]);
      RepairByRule(h, failed, D(0, failed), [Last]);
      var coef := f.inv(RowAt(h.k + 1)[h.k - 1]);
      JoinSym(dag, StoredAt(0, failed), [SpareAt()], [coef], D(0, failed), [Last], Needed(h, failed), done);
    }

    function SpareAt(): (v: int)
      requires Valid()
      reads this
      ensures v == Ix(h, Last)
    {
      assert Look(0);
      additional[Additional(h) - 1]
    }

    method JoinCouples(dag: ECDAG, ghost failed: nat, ghost done: set<Sym>)
      requires Valid() && failed == h.k - 1 && Holds(dag, Needed(h, failed), done) && Last !in done
      requires forall q {:trigger U1(q)} :: GroupOk(h, q) ==> U1(q) in done
      modifies dag
      ensures Holds(dag, Needed(h, failed), done + {Last})
    {
      var cs, coefs := CoupleIndices();
      CouplesGive(f, h);
      CouplesReady(h, done, Groups(h));
      RepairByRule(h, failed, Last, CoupleSyms(h, Groups(h)));
      JoinSym(dag, SpareAt(), cs, coefs, Last, CoupleSyms(h, Groups(h)), Needed(h, failed), done);
    }

    method CoupleIndices() returns (cs: seq<int>, coefs: Row)
      requires Valid()
      ensures cs == IxAll(h, CoupleSyms(h, Groups(h))) && coefs == Ones(2 * Groups(h))
    {
      cs, coefs := [], [];
      var p := 1;
      while p <= h.n - h.k - 1
        invariant 1 <= p <= h.n - h.k && cs == IxAll(h, CoupleSyms(h, p - 1)) && coefs == Ones(2 * (p - 1))
      {
        cs := cs + [UncoupledAt(1, p)];
        if p != 1 { cs := cs + [StoredAt(1, h.k + p)]; } else { cs := cs + [StoredAt(0, h.k + 1)]; }
        coefs := coefs + [1] + [1];
        assert cs == IxAll(h, CoupleSyms(h, p)) && coefs == Ones(2 * p);
        p := p + 1;
      }
    }

    // Repair of one data node: both of its sub-symbols are joined by equations
    // of the code, and whatever else is offered, only what is needed is read.
    method DecodeSingle(dag: ECDAG, from: seq<int>, to: int, ghost sp: int, ghost failed: nat)
      returns (ghost done: set<Sym>)
      requires Valid() && dag.Valid() && dag.nodes == map[] && dag.joins == multiset{}
      requires failed < h.k && 0 <= sp < 2 && to == Ix(h, D(sp, failed)) && Offers(h, failed, from)
      modifies dag
      ensures dag.Valid() && Decoded(f, h, Needed(h, failed), done, dag.nodes, dag.joins)
      ensures forall s {:trigger s in done} :: s in done <==> Rejoined(h, failed, s)
      ensures AllRuled(h, Needed(h, failed), done, dag.nodes)
    {
      StoredIs(h, sp, failed);
      var node := FindNode(to);
      var inverse, cidx := InvertFirst(from, failed);
      Start(dag, Needed(h, failed));
      done := DecodeNode(dag, node, inverse, cidx);
      OpenRejoined(h, failed, done);
      Open(dag, Needed(h, failed), done);
    }

    method DecodeNode(dag: ECDAG, failed: nat, inverse: Mat, cidx: seq<int>) returns (ghost done: set<Sym>)
      requires Valid() && failed < h.k && Holds(dag, Needed(h, failed), {})
      requires Inverted(failed, inverse, cidx)
      modifies dag
      ensures Holds(dag, Needed(h, failed), done) && AllRejoined(h, failed, done)
    {
      JoinSecond(dag, failed, inverse, cidx);
      if failed + 1 < h.k {
        done := DecodeMember(dag, failed, inverse, cidx);
        AfterMember(h, failed, done);
      } else {
        done := DecodeLast(dag, failed, inverse, cidx);
      }
    }

    method InvertFirst(from: seq<int>, ghost failed: nat) returns (inverse: Mat, cidx: seq<int>)
      requires Valid() && failed < h.k && Offers(h, failed, from)
      ensures Inverted(failed, inverse, cidx)
    {
      var avail := AvailableData(from, failed);
      var m := FirstMatrix(avail, failed);
      inverse := invert(m);
      cidx := FirstIndices(avail, failed);
    }
  }

  // ------------------------------------------------------- what is offered

  ghost predicate Sits(h: Hh, symbol: int, sp: int, node: int) {
    0 <= sp < 2 && 0 <= node < h.n && symbol == Ix(h, D(sp, node))
  }

  ghost function StoredBy(h: Hh, symbol: int): (node: int)
    ensures node == -1 || exists sp :: Sits(h, symbol, sp, node)
    ensures node == -1 ==> forall sp, b :: !Sits(h, symbol, sp, b)
  {
    if sp, b :| Sits(h, symbol, sp, b) then b else -1
  }

  lemma StoredIs(h: Hh, sp: int, node: int)
    requires HhOk(h) && 0 <= sp < 2 && 0 <= node < h.n
    ensures StoredBy(h, Ix(h, D(sp, node))) == node
  {
    var symbol := Ix(h, D(sp, node));
    assert Sits(h, symbol, sp, node);
    var a, b := 0, StoredBy(h, symbol);
    a :| Sits(h, symbol, a, b);
    LayoutApart(h, sp, node, a, b);
  }

  // The search has looked at the places before (w, i).
  ghost predicate FoundIn(h: Hh, symbol: int, w: int, i: int, found: int) {
    if found == -1 then forall sp, node :: Sits(h, symbol, sp, node) ==> sp > w || (sp == w && node >= i)
    else exists sp :: Sits(h, symbol, sp, found)
  }

  lemma OnlyPlace(h: Hh, symbol: int, w: int, i: int)
    requires 0 <= w < 2 && 0 <= i < h.n && symbol == Ix(h, D(w, i))
    ensures Sits(h, symbol, w, i)
  {
  }

  lemma StoredByIs(h: Hh, symbol: int, found: int)
    requires HhOk(h) && FoundIn(h, symbol, 2, 0, found)
    ensures found == StoredBy(h, symbol)
  {
    if found != -1 {
      var sp :| Sits(h, symbol, sp, found);
      StoredIs(h, sp, found);
    }
  }

  // Some symbol of the list is stored by the node.
  ghost predicate Stores(h: Hh, node: int, from: seq<int>) {
    exists i :: 0 <= i < |from| && StoredBy(h, from[i]) == node
  }

  lemma StoresMore(h: Hh, from: seq<int>, symbol: int)
    ensures forall b {:trigger Stores(h, b, from + [symbol])} ::
              Stores(h, b, from + [symbol]) <==> Stores(h, b, from) || b == StoredBy(h, symbol)
  {
    forall b ensures Stores(h, b, from + [symbol]) <==> Stores(h, b, from) || b == StoredBy(h, symbol) {
      var all := from + [symbol];
      if Stores(h, b, all) {
        var i :| 0 <= i < |all| && StoredBy(h, all[i]) == b;
        if i < |from| { assert from[i] == all[i]; }
      }
      if Stores(h, b, from) {
        var i :| 0 <= i < |from| && StoredBy(h, from[i]) == b;
        assert all[i] == from[i];
      }
      assert all[|from|] == symbol;
    }
  }

  // Every other data node offers something, and the failed one nothing; other
  // entries do not matter.
  ghost predicate Offers(h: Hh, failed: int, from: seq<int>) {
    !Stores(h, failed, from) && forall b {:trigger Stores(h, b, from)} :: 0 <= b < h.k && b != failed ==> Stores(h, b, from)
  }

  // ------------------------------------------------------ what is asked for

  function MemberSyms(h: Hh, p: int, failed: int): (r: seq<Sym>)
    requires HhOk(h) && InGroup(h, p, failed)
    ensures |r| == GroupSize(h, p) - 1
    ensures forall i :: 0 <= i < |r| ==> r[i] == D(0, GroupStart(h, p) + Other(failed - GroupStart(h, p), i))
  {
    seq(GroupSize(h, p) - 1, (i: nat) => D(0, GroupStart(h, p) + Other(failed - GroupStart(h, p), i)))
  }

  function CarrierSyms(h: Hh): (r: seq<Sym>)
    requires HhOk(h)
    ensures |r| == Groups(h) - 1 && forall i :: 0 <= i < |r| ==> r[i] == D(1, h.k + 2 + i)
  {
    seq(Groups(h) - 1, (i: nat) => D(1, h.k + 2 + i))
  }

  ghost function Home(h: Hh, failed: int): (p: int)
    requires HhOk(h) && 0 <= failed < h.k - 1
    ensures InGroup(h, p, failed)
  {
    EveryNodeHasGroup(h, failed);
    var p :| InGroup(h, p, failed);
    p
  }

  lemma HomeIs(h: Hh, p: int, failed: int)
    requires HhOk(h) && 0 <= failed < h.k - 1 && InGroup(h, p, failed)
    ensures p == Home(h, failed)
  {
    var q := Home(h, failed);
    if p < q { OneGroup(h, p, q, failed); }
    if q < p { OneGroup(h, q, p, failed); }
  }

  lemma EveryNodeHasGroup(h: Hh, node: int)
    requires HhOk(h) && 0 <= node < h.k - 1
    ensures exists p :: InGroup(h, p, node)
  {
    var p := 1;
    GroupRange(h, 1);
    while p < Groups(h) && node >= GroupEnd(h, p)
      invariant 1 <= p <= Groups(h) && GroupStart(h, p) <= node
      decreases Groups(h) - p
    {
      GroupRange(h, p);
      p := p + 1;
    }
    assert InGroup(h, p, node);
  }

  // One half of all data nodes.
  function HalfData(h: Hh, sp: int): (r: seq<Sym>)
    ensures |r| == h.k && forall j :: 0 <= j < h.k ==> r[j] == D(sp, j)
  {
    seq<Sym>(h.k, j => D(sp, j))
  }

  ghost function NeededList(h: Hh, failed: nat): (r: seq<Sym>)
    requires HhOk(h) && failed < h.k
  {
    if failed < h.k - 1 then
      var p := Home(h, failed);
      FirstSyms(h, failed) + MemberSyms(h, p, failed) + [D(1, h.k + p)]
    else FirstSyms(h, failed) + CarrierSyms(h) + [D(0, h.k + 1)]
  }

  // It is exactly what the repair reads, each symbol once: k symbols of the
  // second half, and as many more as the group has members - or, for the last
  // data node, as there are groups - where a conventional repair reads 2k.
  lemma NeededOnce(h: Hh, failed: nat)
    requires HhOk(h) && failed < h.k
    ensures forall s :: s in NeededList(h, failed) <==> IsNeeded(h, failed, s)
    ensures forall i, j :: 0 <= i < j < |NeededList(h, failed)| ==> NeededList(h, failed)[i] != NeededList(h, failed)[j]
    ensures |NeededList(h, failed)| == h.k + if failed < h.k - 1 then GroupSize(h, Home(h, failed)) else Groups(h)
  {
    forall s | IsNeeded(h, failed, s) ensures s in NeededList(h, failed) { NeededIsListed(h, failed, s); }
    ListedIsNeeded(h, failed);
    ListedOnce(h, failed);
  }

  lemma ListedIsNeeded(h: Hh, failed: nat)
    requires HhOk(h) && failed < h.k
    ensures forall i :: 0 <= i < |NeededList(h, failed)| ==> IsNeeded(h, failed, NeededList(h, failed)[i])
  {
    var r := NeededList(h, failed);
    if failed < h.k - 1 {
      var p := Home(h, failed);
      GroupRange(h, p);
      forall i | 0 <= i < |r| ensures IsNeeded(h, failed, r[i]) {
        if i >= h.k { assert HelpsThrough(h, p, failed, r[i]); }
      }
    }
  }

  lemma ListedOnce(h: Hh, failed: nat)
    requires HhOk(h) && failed < h.k
    ensures forall i, j :: 0 <= i < j < |NeededList(h, failed)| ==> NeededList(h, failed)[i] != NeededList(h, failed)[j]
    ensures |NeededList(h, failed)| == h.k + if failed < h.k - 1 then GroupSize(h, Home(h, failed)) else Groups(h)
  {
    if failed < h.k - 1 { GroupRange(h, Home(h, failed)); }
  }

  lemma NeededIsListed(h: Hh, failed: nat, s: Sym)
    requires HhOk(h) && failed < h.k && IsNeeded(h, failed, s)
    ensures s in NeededList(h, failed)
  {
    var r := NeededList(h, failed);
    if s.sp == 1 && s.node <= h.k {
      var i := if s.node == h.k then h.k - 1 else PlaceOf(failed, s.node);
      assert FirstSyms(h, failed)[i] == s;
      assert r[i] == s;
    } else if failed < h.k - 1 {
      var q :| HelpsThrough(h, q, failed, s);
      HomeIs(h, q, failed);
      GroupRange(h, q);
      if s == D(1, h.k + q) {
        assert r[|r| - 1] == s;
      } else {
        var a := GroupStart(h, q);
        var i := PlaceOf(failed - a, s.node - a);
        assert MemberSyms(h, q, failed)[i] == s;
        assert r[h.k + i] == s;
      }
    } else if s == D(0, h.k + 1) {
      assert r[|r| - 1] == s;
    } else {
      assert CarrierSyms(h)[s.node - h.k - 2] == s;
      assert r[h.k + (s.node - h.k - 2)] == s;
    }
  }

  // Asking for exactly that is enough.
  lemma RequiredOffers(h: Hh, failed: nat)
    requires HhOk(h) && failed < h.k
    ensures Offers(h, failed, IxAll(h, NeededList(h, failed)))
  {
    var list := NeededList(h, failed);
    var from := IxAll(h, list);
    NeededOnce(h, failed);
    forall i | 0 <= i < |from| ensures StoredBy(h, from[i]) == list[i].node && list[i].node != failed {
      assert list[i] in list;
      StoredIs(h, list[i].sp, list[i].node);
    }
    forall b | 0 <= b < h.k && b != failed ensures Stores(h, b, from) {
      assert IsNeeded(h, failed, D(1, b));
      var i :| 0 <= i < |list| && list[i] == D(1, b);
      assert StoredBy(h, from[i]) == b;
    }
  }
}
