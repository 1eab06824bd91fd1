// For every queue of a repair: the one task that fills it and the one task
// that drains it.
module Sites {
  import opened Util
  import opened GF
  import opened Dag
  import opened EcDag
  import opened Tasks
  import N = Network
  import opened Programs

  function Top(j: Job): int { |j.levels| - 1 }

  // What a job has to satisfy at one vertex.
  ghost predicate VertexOk(j: Job, level: map<int, nat>, v: int)
    requires Closed(j) && v in j.g && level.Keys == j.g.Keys
  {
    && j.col[v] >= -1
    // the last level holds the roots and nothing else does
    && (if level[v] == Top(j) then j.col[v] >= 0 && 0 <= REQUESTOR - v < j.n && NoDup(j.g[v].children) else IdOk(v))
    // a leaf is on a node when its block exists, and known to be zero when not
    && (level[v] == 0 ==> (j.col[v] == -1 <==> v / j.w >= j.n))
    // what is known to be zero is made of zeros
    && (j.col[v] == -1 ==> forall c :: c in j.g[v].children ==> c in j.g && j.col[c] == -1)
  }

  predicate UsersMeet(j: Job, v: int, a: int, b: int)
    requires Closed(j) && v in j.g
  {
    && a in j.g && b in j.g && v in j.g[a].children && v in j.g[b].children
    && j.col[a] == j.col[b] && j.col[a] != -1
  }

  // One node uses a vertex on one level only, and for one root only.
  ghost predicate SharedOk(j: Job, level: map<int, nat>)
    requires Closed(j) && level.Keys == j.g.Keys
  {
    forall v, a, b {:trigger UsersMeet(j, v, a, b)} :: v in j.g && UsersMeet(j, v, a, b) ==> !TwoUses(j, level, a, b)
  }

  ghost predicate TwoUses(j: Job, level: map<int, nat>, a: int, b: int)
    requires level.Keys == j.g.Keys && a in j.g && b in j.g
  {
    level[a] != level[b] || (level[a] == Top(j) && a != b)
  }

  ghost predicate BlocksOk(j: Job, level: map<int, nat>)
    requires Closed(j) && level.Keys == j.g.Keys
  {
    forall v, u :: v in j.g && u in j.g && level[v] == 0 && level[u] == 0 && v / j.w == u / j.w < j.n ==>
      j.col[v] == j.col[u] && v / j.w >= 0
  }

  // Every edge goes up, and every vertex meets its conditions.
  ghost predicate Sane(j: Job, level: map<int, nat>) {
    && Closed(j) && |j.levels| >= 2
    && level.Keys == j.g.Keys
    && (forall v {:trigger VertexOk(j, level, v)} :: v in j.g ==> VertexOk(j, level, v))
    && (forall p, v :: p in j.g && v in j.g[p].children ==> v in j.g && level[v] < level[p])
    && (forall p :: p in j.g ==> level[p] <= Top(j))
  }

  // A job that can be compiled: its levels are a leveling of its DAG ...
  ghost predicate Compilable(j: Job, level: map<int, nat>) {
    && Closed(j) && |j.levels| >= 2
    && Leveling(j.g, j.levels, level)
    && (forall v {:trigger VertexOk(j, level, v)} :: v in j.g ==> VertexOk(j, level, v))
    && BlocksOk(j, level)
  }

  // ... and one that can also be executed.
  ghost predicate Planned(j: Job, level: map<int, nat>) {
    Compilable(j, level) && SharedOk(j, level)
  }

  lemma CompilableIsSane(j: Job, level: map<int, nat>)
    requires Compilable(j, level)
    ensures Sane(j, level)
  {
    assert forall p, v :: p in j.g && v in j.g[p].children ==> v in j.g && level[v] < level[p] by {
      EdgesRise(j.g, level);
    }
    assert forall p :: p in j.g ==> level[p] <= Top(j) by { LevelsBounded(j.levels, level); }
  }

  lemma EdgesRise(g: Graph, level: map<int, nat>)
    requires Linked(g) && IsLevelMap(g, level)
    ensures forall p, v :: p in g && v in g[p].children ==> v in g && level[v] < level[p]
  {
    forall p, v | p in g && v in g[p].children ensures v in g && level[v] < level[p] {
      assert OneAbove(g, level, p);
    }
  }

  lemma LevelsBounded(levels: seq<seq<int>>, level: map<int, nat>)
    requires Lists(levels, level)
    ensures forall p :: p in level ==> level[p] <= |levels| - 1
  {
  }

  // ------------------------------------------------------- facts about the DAG

  lemma ParentIffChild(j: Job, c: int, v: int)
    requires Closed(j) && c in j.g
    ensures v in j.g[c].parents <==> v in j.g && c in j.g[v].children
  {
    if v in j.g {
      assert Count(j.g[c].parents, v) == Count(j.g[v].children, c);
    }
  }

  lemma UsedBy(j: Job, v: int, c: int)
    requires Closed(j) && v in j.g
    ensures UsedAt(j, v, c) <==> exists p :: p in j.g && v in j.g[p].children && j.col[p] == c
  {
    UsedAtParent(j, v, c);
    forall p ensures p in j.g[v].parents <==> p in j.g && v in j.g[p].children {
      ParentIffChild(j, v, p);
    }
  }

  lemma ChildBelow(j: Job, level: map<int, nat>, p: int, v: int)
    requires Sane(j, level) && p in j.g && v in j.g[p].children
    ensures v in j.g && level[v] < level[p] <= Top(j)
  {
  }

  // Something active is used by nodes, never by a known zero.
  lemma ActiveUse(j: Job, level: map<int, nat>, v: int, c: int)
    requires Sane(j, level) && v in j.g
    requires Active(j, level[v], v) && UsedAt(j, v, c)
    ensures c != -1
  {
    UsedBy(j, v, c);
    var p :| p in j.g && v in j.g[p].children && j.col[p] == c;
    assert VertexOk(j, level, p) && VertexOk(j, level, v);
  }

  // Being active is being on a node.
  lemma ActiveColor(j: Job, level: map<int, nat>, v: int)
    requires Sane(j, level) && v in j.g
    ensures Active(j, level[v], v) <==> j.col[v] != -1
  {
    assert VertexOk(j, level, v);
  }

  // list holds what the task of this kind, level and node works on.
  ghost predicate Works(j: Job, level: map<int, nat>, k: Kind, l: nat, c: int, list: seq<int>)
    requires Closed(j) && level.Keys == j.g.Keys
  {
    forall v :: v in list <==> v in j.g && level[v] == l && Chosen(j, k, l, c, v)
  }

  ghost predicate WorkOk(j: Job, level: map<int, nat>, k: Kind, l: nat, c: int)
    requires Closed(j) && level.Keys == j.g.Keys && l < Top(j)
  {
    Works(j, level, k, l, c, Work(j, k, l, c)) && NoDup(Work(j, k, l, c)) && IdsOk(Work(j, k, l, c))
  }

  ghost predicate ReadOk(j: Job, level: map<int, nat>, b: int)
    requires Closed(j) && level.Keys == j.g.Keys && |j.levels| >= 2
  {
    && (forall v :: v in ReadList(j, b) <==> v in j.g && level[v] == 0 && v / j.w == b)
    && NoDup(ReadList(j, b)) && IdsOk(ReadList(j, b))
  }

  // What each task list holds.
  ghost predicate Laid(j: Job, level: map<int, nat>)
    requires Sane(j, level)
  {
    && (forall k, l: nat, c {:trigger WorkOk(j, level, k, l, c)} :: l < Top(j) ==> WorkOk(j, level, k, l, c))
    && (forall b {:trigger ReadOk(j, level, b)} :: ReadOk(j, level, b))
    && (forall v :: v in j.levels[Top(j)] <==> v in j.g && level[v] == Top(j))
    && BlocksOk(j, level)
  }

  lemma CompilableIsLaid(j: Job, level: map<int, nat>)
    requires Compilable(j, level) && Sane(j, level)
    ensures Laid(j, level)
  {
    forall k, l: nat, c | l < Top(j) ensures WorkOk(j, level, k, l, c) { WorkMembers(j, level, k, l, c); }
    forall b ensures ReadOk(j, level, b) { ReadMembers(j, level, b); }
  }

  lemma LevelMembers(j: Job, level: map<int, nat>, l: nat)
    requires Compilable(j, level) && Sane(j, level) && l < |j.levels|
    ensures forall v :: v in j.levels[l] <==> v in j.g && level[v] == l
    ensures NoDup(j.levels[l])
  {
  }

  lemma WorkMembers(j: Job, level: map<int, nat>, k: Kind, l: nat, c: int)
    requires Compilable(j, level) && Sane(j, level) && l < Top(j)
    ensures WorkOk(j, level, k, l, c)
  {
    LevelMembers(j, level, l);
    PickMembers(j, k, l, c, j.levels[l]);
    AllIdsOk(j, level, Work(j, k, l, c));
  }

  lemma ReadMembers(j: Job, level: map<int, nat>, b: int)
    requires Compilable(j, level) && Sane(j, level)
    ensures ReadOk(j, level, b)
  {
    LevelMembers(j, level, 0);
    AllIdsOk(j, level, ReadList(j, b));
  }

  lemma AllIdsOk(j: Job, level: map<int, nat>, s: seq<int>)
    requires Sane(j, level) && forall v :: v in s ==> v in j.g && level[v] < Top(j)
    ensures IdsOk(s)
  {
    forall i | 0 <= i < |s| ensures IdOk(s[i]) {
      var v := s[i];
      assert v in s && VertexOk(j, level, v);
    }
  }

  // ------------------------------------------------------------------- queues

  // The queues that a repair needs.
  ghost predicate Carried(j: Job, level: map<int, nat>, q: N.Queue)
    requires Sane(j, level)
  {
    var v := Carries(q);
    v in j.g && level[v] < Top(j) &&
    match q
    case Wire(c, _) => Active(j, level[v], v) && c in Remote(j, v)
    case Local(c, k) =>
      if k >= 0 then c != -1 && UsedAt(j, v, c)
      else Active(j, level[v], v) && c == j.col[v] && Remote(j, v) != []
  }

  // The task that produces v.
  function Maker(j: Job, l: nat, v: int): Key
    requires Closed(j) && v in j.g
  {
    if l == 0 then KRead(v / j.w) else KWork(KCalc, l, j.col[v])
  }

  ghost function SrcKey(j: Job, level: map<int, nat>, q: N.Queue): Key
    requires Sane(j, level) && Carried(j, level, q)
  {
    var v := Carries(q);
    var l := level[v];
    match q
    case Wire(c, _) => KWork(KSend, l, j.col[v])
    case Local(c, k) =>
      if !Active(j, l, v) then KWork(KZero, l, c)
      else if k < 0 || c == j.col[v] then Maker(j, l, v)
      else KWork(KRecv, l, c)
  }

  // The vertex for whose sake node c takes v.
  ghost function UserOf(j: Job, v: int, c: int): (p: int)
    requires Closed(j) && v in j.g && UsedAt(j, v, c)
    ensures p in j.g && v in j.g[p].children && j.col[p] == c
  {
    UsedBy(j, v, c);
    var p :| p in j.g && v in j.g[p].children && j.col[p] == c;
    p
  }

  ghost function UseKey(j: Job, level: map<int, nat>, p: int, c: int): Key
    requires level.Keys == j.g.Keys && p in j.g
  {
    if level[p] == Top(j) then KRoot(p) else KWork(KCalc, level[p], c)
  }

  ghost function DstKey(j: Job, level: map<int, nat>, q: N.Queue): Key
    requires Sane(j, level) && Carried(j, level, q)
  {
    var v := Carries(q);
    match q
    case Wire(c, _) => KWork(KRecv, level[v], c)
    case Local(c, k) =>
      if k < 0 then KWork(KSend, level[v], c) else UseKey(j, level, UserOf(j, v, c), c)
  }

  // Whichever parent on node c is asked, the task is the same.
  lemma AnyUser(j: Job, level: map<int, nat>, v: int, p: int)
    requires Sane(j, level) && SharedOk(j, level)
    requires p in j.g && v in j.g && v in j.g[p].children && j.col[p] != -1
    ensures UsedAt(j, v, j.col[p])
    ensures UseKey(j, level, UserOf(j, v, j.col[p]), j.col[p]) == UseKey(j, level, p, j.col[p])
  {
    UsedBy(j, v, j.col[p]);
    assert UsersMeet(j, v, UserOf(j, v, j.col[p]), p);
  }

  function PhaseOf(j: Job, key: Key): int {
    match key
    case KRead(b) => 0
    case KWork(KSend, l, c) => 3 * l + 1
    case KWork(KRecv, l, c) => 3 * l + 2
    case KWork(_, l, c) => 3 * l
    case KRoot(r) => 3 * Top(j)
  }

  // A queue is drained in a later phase than it is filled in.
  lemma PhasesRise(j: Job, level: map<int, nat>, q: N.Queue)
    requires Sane(j, level) && Carried(j, level, q)
    ensures PhaseOf(j, SrcKey(j, level, q)) < PhaseOf(j, DstKey(j, level, q))
  {
    var v := Carries(q);
    if q.Local? && q.key >= 0 {
      ChildBelow(j, level, UserOf(j, v, q.node), v);
    }
  }

  // ------------------------------------------------- who pushes, who pops

  predicate Runs(j: Job, key: Key)
    requires Closed(j) && Present(j, key)
  {
    Shaped(TaskAt(j, key))
  }

  lemma TaskShaped(j: Job, key: Key)
    requires Closed(j) && Present(j, key)
    ensures Runs(j, key)
  {
  }

  function Line(j: Job, key: Key): seq<N.Op>
    requires Closed(j) && Present(j, key)
  {
    OpsOf(NodeAt(j, key), TaskAt(j, key))
  }

  ghost predicate Fills(j: Job, level: map<int, nat>, key: Key, q: N.Queue)
    requires Sane(j, level)
  {
    Carried(j, level, q) && SrcKey(j, level, q) == key
  }

  ghost predicate Drains(j: Job, level: map<int, nat>, key: Key, q: N.Queue)
    requires Sane(j, level)
  {
    Carried(j, level, q) && DstKey(j, level, q) == key
  }

  // Read and compute tasks fill the queues of their sub-packets.
  lemma PublishesList(j: Job, list: seq<int>, c: int, q: N.Queue)
    requires Closed(j) && InGraph(j, list) && IdsOk(list)
    requires forall i :: 0 <= i < |list| ==> j.col[list[i]] == c
    ensures ReadInto(q, c, list, Usages(j, list)) <==>
      q.Local? && q.node == c && Carries(q) in list && Carries(q) in j.g &&
      if q.key >= 0 then UsedAt(j, Carries(q), c) else Remote(j, Carries(q)) != []
  {
    var v := Carries(q);
    if ReadInto(q, c, list, Usages(j, list)) {
      var i :| 0 <= i < |list| && Published(q, c, list[i], Usages(j, list)[i].0, Usages(j, list)[i].1);
      KeysApart(c, list[i], list[i]);
      assert list[i] in list;
    }
    if q.Local? && q.node == c && v in list &&
       (if q.key >= 0 then UsedAt(j, v, c) else Remote(j, v) != [])
    {
      var i :| 0 <= i < |list| && list[i] == v;
      assert q.key == if q.key >= 0 then v else Cache(v);
      assert Published(q, c, list[i], Usages(j, list)[i].0, Usages(j, list)[i].1);
    }
  }

  lemma BlockColor(j: Job, level: map<int, nat>, b: int)
    requires Sane(j, level) && Laid(j, level) && Present(j, KRead(b))
    ensures NodeAt(j, KRead(b)) != -1
    ensures forall i :: 0 <= i < |ReadList(j, b)| ==> j.col[ReadList(j, b)[i]] == NodeAt(j, KRead(b))
    ensures forall v :: v in ReadList(j, b) ==> v in j.g && j.col[v] == NodeAt(j, KRead(b))
  {
    assert ReadOk(j, level, b);
    FirstLeaf(j, b);
    var f := BlockLeaves(j, b, j.levels[0])[0];
    assert VertexOk(j, level, f);
    forall i | 0 <= i < |ReadList(j, b)| ensures j.col[ReadList(j, b)[i]] == NodeAt(j, KRead(b)) {
      var v := ReadList(j, b)[i];
      assert v in ReadList(j, b);
    }
  }

  // A line that fills and drains the queues of its task and no others.
  ghost predicate SiteOk(j: Job, level: map<int, nat>, key: Key, ops: seq<N.Op>)
    requires Sane(j, level)
  {
    && Fine(ops)
    && (forall q :: q in Pushes(ops) <==> Fills(j, level, key, q))
    && (SharedOk(j, level) ==> forall q :: q in Pops(ops) <==> Drains(j, level, key, q))
  }

  lemma ReadSite(j: Job, level: map<int, nat>, b: int, c: int, list: seq<int>)
    requires Sane(j, level) && b < j.n && c != -1
    requires forall v :: v in list <==> v in j.g && level[v] == 0 && v / j.w == b
    requires InGraph(j, list) && NoDup(list) && IdsOk(list)
    requires forall i :: 0 <= i < |list| ==> j.col[list[i]] == c
    requires forall v :: v in list ==> v in j.g && j.col[v] == c
    ensures SiteOk(j, level, KRead(b), ReadOps(c, list, Usages(j, list)))
  {
    ReadOpsFacts(c, list, Usages(j, list));
    forall q ensures ReadInto(q, c, list, Usages(j, list)) <==> Fills(j, level, KRead(b), q) {
      PublishesList(j, list, c, q);
      ReadFills(j, level, b, list, c, q);
    }
    forall q ensures !Drains(j, level, KRead(b), q) {
      if Carried(j, level, q) { NeverDrained(j, level, q); }
    }
  }

  lemma ReadFills(j: Job, level: map<int, nat>, b: int, s: seq<int>, c: int, q: N.Queue)
    requires Sane(j, level) && b < j.n
    requires forall v :: v in s <==> v in j.g && level[v] == 0 && v / j.w == b
    requires c != -1 && forall v :: v in s ==> v in j.g && j.col[v] == c
    ensures (q.Local? && q.node == c && Carries(q) in s && Carries(q) in j.g &&
             if q.key >= 0 then UsedAt(j, Carries(q), c) else Remote(j, Carries(q)) != [])
            <==> Fills(j, level, KRead(b), q)
  {
    if Carries(q) in j.g { ActiveColor(j, level, Carries(q)); }
  }

  lemma ZeroSite(j: Job, level: map<int, nat>, l: nat, c: int, list: seq<int>)
    requires Sane(j, level) && l < Top(j) && Works(j, level, KZero, l, c, list) && NoDup(list) && IdsOk(list)
    ensures SiteOk(j, level, KWork(KZero, l, c), ZeroOps(c, list))
  {
    ZeroOpsFacts(c, list);
    forall q: N.Queue ensures q.Local? && q.node == c && q.key in list <==> Fills(j, level, KWork(KZero, l, c), q) {
      ZeroFills(j, level, l, c, list, q);
    }
    forall q ensures !Drains(j, level, KWork(KZero, l, c), q) {
      if Carried(j, level, q) { NeverDrained(j, level, q); }
    }
  }

  lemma ZeroFills(j: Job, level: map<int, nat>, l: nat, c: int, list: seq<int>, q: N.Queue)
    requires Sane(j, level) && l < Top(j) && Works(j, level, KZero, l, c, list)
    ensures q.Local? && q.node == c && q.key in list <==> Fills(j, level, KWork(KZero, l, c), q)
  {
    if q.Local? && q.key in list { assert VertexOk(j, level, q.key); }
  }

  lemma NeverDrained(j: Job, level: map<int, nat>, q: N.Queue)
    requires Sane(j, level) && Carried(j, level, q)
    ensures !DstKey(j, level, q).KRead?
    ensures DstKey(j, level, q).KWork? ==> DstKey(j, level, q).k != KZero
    ensures !SrcKey(j, level, q).KRoot?
  {
  }

  lemma SendSite(j: Job, level: map<int, nat>, l: nat, c: int, list: seq<int>)
    requires Sane(j, level) && l < Top(j) && Works(j, level, KSend, l, c, list)
    requires InGraph(j, list) && NoDup(list) && IdsOk(list)
    ensures SiteOk(j, level, KWork(KSend, l, c), SendOps(c, list, Destinations(j, list)))
  {
    var dests := Destinations(j, list);
    SendOpsFacts(c, list, dests);
    forall q ensures SentTo(q, list, dests) <==> Fills(j, level, KWork(KSend, l, c), q) {
      SentToMeans(j, list, q);
      SendFills(j, level, l, c, list, q);
    }
    forall q ensures CachedIn(q, c, list) <==> Drains(j, level, KWork(KSend, l, c), q) {
      SendDrains(j, level, l, c, list, q);
    }
  }

  lemma SendFills(j: Job, level: map<int, nat>, l: nat, c: int, list: seq<int>, q: N.Queue)
    requires Sane(j, level) && l < Top(j) && Works(j, level, KSend, l, c, list)
    ensures q.Wire? && q.dagidx in list && q.dagidx in j.g && q.node in Remote(j, q.dagidx)
            <==> Fills(j, level, KWork(KSend, l, c), q)
  {
    if Carried(j, level, q) && q.Local? { ActiveColor(j, level, Carries(q)); }
  }

  lemma SendDrains(j: Job, level: map<int, nat>, l: nat, c: int, list: seq<int>, q: N.Queue)
    requires Sane(j, level) && l < Top(j) && Works(j, level, KSend, l, c, list)
    ensures CachedIn(q, c, list) <==> Drains(j, level, KWork(KSend, l, c), q)
  {
    if CachedIn(q, c, list) { assert VertexOk(j, level, Carries(q)); }
    if Carried(j, level, q) { assert VertexOk(j, level, Carries(q)); }
  }

  lemma SentToMeans(j: Job, list: seq<int>, q: N.Queue)
    requires Closed(j) && InGraph(j, list)
    ensures SentTo(q, list, Destinations(j, list)) <==>
      q.Wire? && q.dagidx in list && q.dagidx in j.g && q.node in Remote(j, q.dagidx)
  {
    var dests := Destinations(j, list);
    if SentTo(q, list, dests) {
      var i :| 0 <= i < |list| && list[i] == q.dagidx && q.node in dests[i];
    }
    if q.Wire? && q.dagidx in list && q.node in Remote(j, q.dagidx) {
      var i :| 0 <= i < |list| && list[i] == q.dagidx;
      assert q.node in dests[i];
    }
  }

  lemma RecvSite(j: Job, level: map<int, nat>, l: nat, c: int, list: seq<int>)
    requires Sane(j, level) && l < Top(j) && Works(j, level, KRecv, l, c, list) && NoDup(list) && IdsOk(list)
    ensures SiteOk(j, level, KWork(KRecv, l, c), RecvOps(c, list))
  {
    RecvOpsFacts(c, list);
    forall q: N.Queue ensures q.Local? && q.node == c && q.key in list <==> Fills(j, level, KWork(KRecv, l, c), q) {
      RecvFills(j, level, l, c, list, q);
    }
    forall q: N.Queue ensures q.Wire? && q.node == c && q.dagidx in list <==> Drains(j, level, KWork(KRecv, l, c), q) {
      RecvDrains(j, level, l, c, list, q);
    }
  }

  lemma RecvFills(j: Job, level: map<int, nat>, l: nat, c: int, list: seq<int>, q: N.Queue)
    requires Sane(j, level) && l < Top(j) && Works(j, level, KRecv, l, c, list)
    ensures q.Local? && q.node == c && q.key in list <==> Fills(j, level, KWork(KRecv, l, c), q)
  {
    if q.Local? && q.node == c && q.key in list {
      assert VertexOk(j, level, q.key);
      ActiveUse(j, level, q.key, c);
    }
  }

  lemma RecvDrains(j: Job, level: map<int, nat>, l: nat, c: int, list: seq<int>, q: N.Queue)
    requires Sane(j, level) && l < Top(j) && Works(j, level, KRecv, l, c, list)
    ensures q.Wire? && q.node == c && q.dagidx in list <==> Drains(j, level, KWork(KRecv, l, c), q)
  {
  }

  lemma ItemLists(j: Job, s: seq<int>)
    requires Closed(j) && InGraph(j, s)
    ensures Targets(Items(j, s)) == s && Flags(Items(j, s)) == Usages(j, s)
  {
  }

  lemma ItemSources(j: Job, s: seq<int>, v: int)
    requires Closed(j) && InGraph(j, s)
    ensures v in AllSources(Items(j, s)) <==> exists p :: p in s && p in j.g && v in j.g[p].children
  {
    var items := Items(j, s);
    SourceOf(items, v);
    if v in AllSources(items) {
      var i :| 0 <= i < |items| && v in items[i].srcs;
      assert s[i] in s && s[i] in j.g && v in j.g[s[i]].children;
    }
    if p :| p in s && p in j.g && v in j.g[p].children {
      var i :| 0 <= i < |s| && s[i] == p;
      assert v in items[i].srcs;
    }
  }

  lemma InputsOk(j: Job, level: map<int, nat>, s: seq<int>)
    requires Sane(j, level) && InGraph(j, s)
    ensures IdsOk(Inputs(Items(j, s)))
  {
    var vs := Inputs(Items(j, s));
    forall i | 0 <= i < |vs| ensures IdOk(vs[i]) {
      var v := vs[i];
      assert v in vs;
      ItemSources(j, s, v);
      var p :| p in s && p in j.g && v in j.g[p].children;
      ChildBelow(j, level, p, v);
      assert VertexOk(j, level, v);
    }
  }

  lemma ComputeSite(j: Job, level: map<int, nat>, l: nat, c: int, s: seq<int>)
    requires Sane(j, level) && 0 < l < Top(j) && Works(j, level, KCalc, l, c, s)
    requires InGraph(j, s) && NoDup(s) && IdsOk(s)
    ensures SiteOk(j, level, KWork(KCalc, l, c), ComputeOps(c, Items(j, s)))
  {
    var items := Items(j, s);
    ItemLists(j, s);
    InputsOk(j, level, s);
    ComputeOpsFacts(c, items);
    ColorsInWork(j, level, l, c, s);
    forall q ensures ReadInto(q, c, s, Usages(j, s)) <==> Fills(j, level, KWork(KCalc, l, c), q) {
      PublishesList(j, s, c, q);
      ComputeFills(j, level, l, c, s, q);
    }
    forall q: N.Queue | SharedOk(j, level)
      ensures q.Local? && q.node == c && q.key in AllSources(items) <==> Drains(j, level, KWork(KCalc, l, c), q)
    {
      ItemSources(j, s, if q.Local? then q.key else 0);
      ComputeDrains(j, level, l, c, s, q);
    }
  }

  lemma ColorsInWork(j: Job, level: map<int, nat>, l: nat, c: int, s: seq<int>)
    requires Sane(j, level) && Works(j, level, KCalc, l, c, s) && InGraph(j, s)
    ensures forall i :: 0 <= i < |s| ==> s[i] in j.col && j.col[s[i]] == c
  {
    forall i | 0 <= i < |s| ensures s[i] in j.col && j.col[s[i]] == c {
      var v := s[i];
      assert v in s && v in j.g;
    }
  }

  lemma ComputeFills(j: Job, level: map<int, nat>, l: nat, c: int, s: seq<int>, q: N.Queue)
    requires Sane(j, level) && 0 < l < Top(j) && Works(j, level, KCalc, l, c, s)
    ensures (q.Local? && q.node == c && Carries(q) in s && Carries(q) in j.g &&
             if q.key >= 0 then UsedAt(j, Carries(q), c) else Remote(j, Carries(q)) != [])
            <==> Fills(j, level, KWork(KCalc, l, c), q)
  {
    if Carries(q) in j.g { ActiveColor(j, level, Carries(q)); }
  }

  lemma ComputeDrains(j: Job, level: map<int, nat>, l: nat, c: int, s: seq<int>, q: N.Queue)
    requires Sane(j, level) && SharedOk(j, level) && 0 < l < Top(j) && Works(j, level, KCalc, l, c, s)
    ensures (q.Local? && q.node == c && exists p :: p in s && p in j.g && q.key in j.g[p].children)
            <==> Drains(j, level, KWork(KCalc, l, c), q)
  {
    if q.Local? && q.node == c {
      if p :| p in s && p in j.g && q.key in j.g[p].children {
        ChildBelow(j, level, p, q.key);
        assert VertexOk(j, level, q.key);
        AnyUser(j, level, q.key, p);
      }
    }
    if Drains(j, level, KWork(KCalc, l, c), q) {
      var p := UserOf(j, Carries(q), q.node);
      ChildBelow(j, level, p, q.key);
      assert p in s;
    }
  }

  lemma RootSite(j: Job, level: map<int, nat>, r: int)
    requires Sane(j, level) && r in j.g && level[r] == Top(j)
    ensures SiteOk(j, level, KRoot(r), PersistOps(j.col[r], j.g[r].children))
  {
    var list := j.g[r].children;
    RootInputsOk(j, level, r);
    PersistOpsFacts(j.col[r], list);
    forall q: N.Queue | SharedOk(j, level)
      ensures q.Local? && q.node == j.col[r] && q.key in list <==> Drains(j, level, KRoot(r), q)
    {
      RootDrains(j, level, r, q);
    }
    forall q ensures !Fills(j, level, KRoot(r), q) {
      if Carried(j, level, q) { NeverDrained(j, level, q); }
    }
  }

  lemma RootInputsOk(j: Job, level: map<int, nat>, r: int)
    requires Sane(j, level) && r in j.g && level[r] == Top(j)
    ensures IdsOk(j.g[r].children) && NoDup(j.g[r].children)
  {
    var list := j.g[r].children;
    assert VertexOk(j, level, r);
    forall i | 0 <= i < |list| ensures IdOk(list[i]) {
      var v := list[i];
      assert v in list;
      ChildBelow(j, level, r, v);
      assert VertexOk(j, level, v);
    }
  }

  lemma RootDrains(j: Job, level: map<int, nat>, r: int, q: N.Queue)
    requires Sane(j, level) && SharedOk(j, level) && r in j.g && level[r] == Top(j)
    ensures q.Local? && q.node == j.col[r] && q.key in j.g[r].children <==> Drains(j, level, KRoot(r), q)
  {
    assert VertexOk(j, level, r);
    if q.Local? && q.node == j.col[r] && q.key in j.g[r].children {
      ChildBelow(j, level, r, q.key);
      assert VertexOk(j, level, q.key);
      AnyUser(j, level, q.key, r);
    }
  }

  // Each task fills exactly the queues whose source it is and drains exactly
  // those whose destination it is.
  lemma Site(j: Job, level: map<int, nat>, key: Key)
    requires Sane(j, level) && Laid(j, level) && Present(j, key)
    ensures SiteOk(j, level, key, Line(j, key))
  {
    if key.KRead? { ReadLine(j, level, key); }
    else if key.KWork? { WorkLine(j, level, key); }
    else { RootLine(j, level, key); }
  }

  lemma ReadLine(j: Job, level: map<int, nat>, key: Key)
    requires Sane(j, level) && Laid(j, level) && Present(j, key) && key.KRead?
    ensures SiteOk(j, level, key, Line(j, key))
  {
    assert ReadOk(j, level, key.b);
    BlockColor(j, level, key.b);
    ReadSite(j, level, key.b, NodeAt(j, key), ReadList(j, key.b));
  }

  lemma WorkLine(j: Job, level: map<int, nat>, key: Key)
    requires Sane(j, level) && Laid(j, level) && Present(j, key) && key.KWork?
    ensures SiteOk(j, level, key, Line(j, key))
  {
    assert WorkOk(j, level, key.k, key.l, key.c);
    WorkSite(j, level, key.k, key.l, key.c, Work(j, key.k, key.l, key.c));
    LineIsOpsFor(j, key);
  }

  lemma RootLine(j: Job, level: map<int, nat>, key: Key)
    requires Sane(j, level) && Laid(j, level) && Present(j, key) && key.KRoot?
    ensures SiteOk(j, level, key, Line(j, key))
  {
    RootSite(j, level, key.r);
  }

  lemma LineIsOpsFor(j: Job, key: Key)
    requires Closed(j) && Present(j, key) && key.KWork?
    ensures Line(j, key) == OpsFor(j, key.k, key.c, Work(j, key.k, key.l, key.c))
  {
  }

  function OpsFor(j: Job, k: Kind, c: int, list: seq<int>): seq<N.Op>
    requires Closed(j) && InGraph(j, list)
  {
    match k
    case KZero => ZeroOps(c, list)
    case KCalc => ComputeOps(c, Items(j, list))
    case KSend => SendOps(c, list, Destinations(j, list))
    case KRecv => RecvOps(c, list)
  }

  lemma WorkSite(j: Job, level: map<int, nat>, k: Kind, l: nat, c: int, list: seq<int>)
    requires Sane(j, level) && l < Top(j) && Works(j, level, k, l, c, list) && list != []
    requires InGraph(j, list) && NoDup(list) && IdsOk(list)
    ensures SiteOk(j, level, KWork(k, l, c), OpsFor(j, k, c, list))
  {
    match k
    case KZero => ZeroSite(j, level, l, c, list);
    case KSend => SendSite(j, level, l, c, list);
    case KRecv => RecvSite(j, level, l, c, list);
    case KCalc =>
      assert list[0] in list;
      ComputeSite(j, level, l, c, list);
  }

  // The tasks at both ends of a queue were generated.
  lemma EndsPresent(j: Job, level: map<int, nat>, q: N.Queue)
    requires Sane(j, level) && Laid(j, level) && Carried(j, level, q)
    ensures Present(j, SrcKey(j, level, q)) && Present(j, DstKey(j, level, q))
  {
    SourcePresent(j, level, q);
    var v := Carries(q);
    match q
    case Wire(c, _) => InWork(j, level, KRecv, level[v], c, v);
    case Local(c, k) =>
      if k < 0 { InWork(j, level, KSend, level[v], c, v); } else { UserPresent(j, level, v, c); }
  }

  lemma UserPresent(j: Job, level: map<int, nat>, v: int, c: int)
    requires Sane(j, level) && Laid(j, level) && v in j.g && UsedAt(j, v, c) && c != -1
    ensures Present(j, UseKey(j, level, UserOf(j, v, c), c))
  {
    var p := UserOf(j, v, c);
    ChildBelow(j, level, p, v);
    if level[p] < Top(j) { InWork(j, level, KCalc, level[p], c, p); }
  }

  lemma SourcePresent(j: Job, level: map<int, nat>, q: N.Queue)
    requires Sane(j, level) && Laid(j, level) && Carried(j, level, q)
    ensures Present(j, SrcKey(j, level, q))
  {
    var v := Carries(q);
    var l := level[v];
    match q
    case Wire(c, _) => InWork(j, level, KSend, l, j.col[v], v);
    case Local(c, k) =>
      if !Active(j, l, v) { InWork(j, level, KZero, l, c, v); }
      else if k < 0 || c == j.col[v] { MakerPresent(j, level, v); }
      else { InWork(j, level, KRecv, l, c, v); }
  }

  lemma InWork(j: Job, level: map<int, nat>, k: Kind, l: nat, c: int, v: int)
    requires Sane(j, level) && Laid(j, level) && v in j.g && level[v] == l < Top(j)
    ensures Chosen(j, k, l, c, v) ==> Present(j, KWork(k, l, c))
  {
    assert WorkOk(j, level, k, l, c);
    if Chosen(j, k, l, c, v) { assert v in Work(j, k, l, c); }
  }

  lemma MakerPresent(j: Job, level: map<int, nat>, v: int)
    requires Sane(j, level) && Laid(j, level) && v in j.g && level[v] < Top(j) && Active(j, level[v], v)
    ensures Present(j, Maker(j, level[v], v))
  {
    if level[v] == 0 {
      var b := v / j.w;
      assert ReadOk(j, level, b);
      assert v in ReadList(j, b);
      assert VertexOk(j, level, v);
    } else {
      InWork(j, level, KCalc, level[v], j.col[v], v);
    }
  }
}
