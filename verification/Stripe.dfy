// src/common/Stripe.cc: the compiler from a coloured ECDAG to the task lists
// of the nodes, as the source builds them, and the proof that it builds the
// plan of module Tasks.
module StripeTasks {
  import opened Util
  import opened GF
  import opened Dag
  import opened EcDag
  import opened Tasks

  // The level that generates a task.
  function StageOf(j: Job, key: Key): int {
    match key
    case KRead(b) => 0
    case KWork(k, l, c) => l
    case KRoot(r) => |j.levels| - 1
  }

  // The order in which tasks are generated: by level, and on a level first what
  // makes sub-packets, then what sends them, what receives them, and the zeros.
  function Turn(j: Job, key: Key): int {
    4 * StageOf(j, key) + if !key.KWork? then 0 else match key.k case KCalc => 0 case KSend => 1 case KRecv => 2 case KZero => 3
  }

  ghost predicate InTurn(j: Job, keys: seq<Key>) {
    forall a, b :: 0 <= a < b < |keys| ==> Turn(j, keys[a]) <= Turn(j, keys[b])
  }

  ghost predicate TurnsBelow(j: Job, keys: seq<Key>, t: int) { forall i :: 0 <= i < |keys| ==> Turn(j, keys[i]) < t }

  // What was added comes after what was there.
  lemma LaterTurn(j: Job, before: seq<Key>, after: seq<Key>, t: int)
    requires InTurn(j, before) && TurnsBelow(j, before, t) && before <= after && NoDup(after)
    requires forall key {:trigger key in after} :: key in after && key !in before ==> Turn(j, key) == t
    ensures InTurn(j, after) && TurnsBelow(j, after, t + 1)
  {
    forall i | 0 <= i < |after| ensures if i < |before| then after[i] == before[i] else Turn(j, after[i]) == t {
      if i >= |before| {
        assert after[i] in after;
        assert forall k :: 0 <= k < |before| ==> after[k] == before[k] && after[k] != after[i];
      }
    }
  }

  predicate InGroup(key: Key, k: Kind, l: nat) {
    key.KWork? && key.k == k && key.l == l
  }

  ghost predicate AllPresent(j: Job, keys: seq<Key>)
    requires Closed(j)
  {
    forall i :: 0 <= i < |keys| ==> Present(j, keys[i])
  }

  // The tasks of node c, in the order in which they were generated.
  ghost function TasksFor(j: Job, keys: seq<Key>, c: int): seq<Task>
    requires Closed(j) && AllPresent(j, keys)
  {
    if keys == [] then []
    else
      var n := |keys| - 1;
      TasksFor(j, keys[..n], c) + if NodeAt(j, keys[n]) == c then [TaskAt(j, keys[n])] else []
  }

  // m[c] collects the sub-packets of one kind of work for node c.
  ghost predicate Collects(m: map<int, seq<int>>, j: Job, k: Kind, l: nat, s: seq<int>, c: int)
    requires Closed(j) && InGraph(j, s)
  {
    && (c in m <==> Pick(j, k, l, c, s) != [])
    && (c in m ==> m[c] == Pick(j, k, l, c, s))
  }

  ghost predicate CollectsAll(m: map<int, seq<int>>, j: Job, k: Kind, l: nat, s: seq<int>)
    requires Closed(j) && InGraph(j, s)
  {
    forall c {:trigger Collects(m, j, k, l, s, c)} :: Collects(m, j, k, l, s, c)
  }

  // ... and likewise the leaves of one block.
  ghost predicate BlockAt(m: map<int, seq<int>>, j: Job, s: seq<int>, b: int)
    requires j.w > 0
  {
    && (b in m <==> b < j.n && BlockLeaves(j, b, s) != [])
    && (b in m ==> m[b] == BlockLeaves(j, b, s))
  }

  ghost predicate BlocksAll(m: map<int, seq<int>>, j: Job, s: seq<int>)
    requires j.w > 0
  {
    forall b {:trigger BlockAt(m, j, s, b)} :: BlockAt(m, j, s, b)
  }

  // What is remembered about every sub-packet that is active on this level.
  ghost predicate Remembers(usage: map<int, (bool, bool)>, sendTo: map<int, seq<int>>, j: Job, l: nat, s: seq<int>)
    requires Closed(j) && InGraph(j, s)
  {
    forall i {:trigger s[i]} :: 0 <= i < |s| && Active(j, l, s[i]) ==>
      && s[i] in usage && usage[s[i]] == Usage(j, s[i])
      && (Remote(j, s[i]) != [] ==> s[i] in sendTo && sendTo[s[i]] == Remote(j, s[i]))
  }

  method AppendTo(m: map<int, seq<int>>, c: int, v: int) returns (r: map<int, seq<int>>)
    ensures r == m[c := (if c in m then m[c] else []) + [v]]
  {
    if c !in m {
      assert [] + [v] == [v];
      r := m[c := [v]];
    } else {
      r := m[c := m[c] + [v]];
    }
  }

  lemma NextOf(cs: seq<int>, i: nat)
    requires NoDup(cs) && i < |cs|
    ensures cs[i] !in cs[..i] && forall c :: c in cs[..i + 1] <==> c in cs[..i] || c == cs[i]
  {
    assert cs[..i + 1] == cs[..i] + [cs[i]];
  }

  // Append v to the list of every node in cs.
  method AppendToAll(m: map<int, seq<int>>, cs: seq<int>, v: int) returns (r: map<int, seq<int>>)
    requires NoDup(cs)
    ensures forall c :: c in r <==> c in m || c in cs
    ensures forall c :: c in r ==> r[c] == (if c in m then m[c] else []) + if c in cs then [v] else []
  {
    r := m;
    var i := 0;
    while i < |cs|
      invariant 0 <= i <= |cs|
      invariant forall c :: c in r <==> c in m || c in cs[..i]
      invariant forall c :: c in r ==> r[c] == (if c in m then m[c] else []) + if c in cs[..i] then [v] else []
    {
      NextOf(cs, i);
      r := AppendTo(r, cs[i], v);
      i := i + 1;
    }
    assert cs[..|cs|] == cs;
  }

  lemma PickStep(j: Job, k: Kind, l: nat, c: int, s: seq<int>, i: nat)
    requires Closed(j) && InGraph(j, s) && i < |s|
    ensures Pick(j, k, l, c, s[..i + 1]) == Pick(j, k, l, c, s[..i]) + if Chosen(j, k, l, c, s[i]) then [s[i]] else []
  {
    assert s[..i + 1][..i] == s[..i];
  }

  // The sub-packets that are active on a level, or those that are not.
  function Split(j: Job, l: nat, s: seq<int>, active: bool): (r: seq<int>)
    requires Closed(j) && InGraph(j, s)
    ensures InGraph(j, r)
  {
    if s == [] then []
    else
      var n := |s| - 1;
      Split(j, l, s[..n], active) + if Active(j, l, s[n]) == active then [s[n]] else []
  }

  lemma {:induction false} SplitMembers(j: Job, l: nat, s: seq<int>, active: bool)
    requires Closed(j) && InGraph(j, s)
    ensures forall v :: v in Split(j, l, s, active) <==> v in s && v in j.g && Active(j, l, v) == active
    ensures NoDup(s) ==> NoDup(Split(j, l, s, active))
  {
    if s != [] {
      var n := |s| - 1;
      assert s == s[..n] + [s[n]];
      SplitMembers(j, l, s[..n], active);
      if NoDup(s) { assert s[n] !in s[..n]; }
    }
  }

  // Work of a kind is found on its own side of the split.
  lemma {:induction false} PickFromSide(j: Job, k: Kind, l: nat, c: int, s: seq<int>)
    requires Closed(j) && InGraph(j, s)
    ensures Pick(j, k, l, c, Split(j, l, s, k != KZero)) == Pick(j, k, l, c, s)
  {
    if s != [] {
      var n := |s| - 1;
      PickFromSide(j, k, l, c, s[..n]);
      var t := Split(j, l, s[..n], k != KZero);
      if Active(j, l, s[n]) == (k != KZero) {
        assert (t + [s[n]])[..|t|] == t;
      } else {
        assert Split(j, l, s, k != KZero) == t && !Chosen(j, k, l, c, s[n]);
      }
    }
  }

  lemma CollectSide(m: map<int, seq<int>>, j: Job, k: Kind, l: nat, s: seq<int>)
    requires Closed(j) && InGraph(j, s)
    requires CollectsAll(m, j, k, l, Split(j, l, s, k != KZero))
    ensures CollectsAll(m, j, k, l, s)
  {
    forall c ensures Collects(m, j, k, l, s, c) {
      assert Collects(m, j, k, l, Split(j, l, s, k != KZero), c);
      PickFromSide(j, k, l, c, s);
    }
  }

  lemma {:induction false} BlocksFromSide(j: Job, b: int, s: seq<int>)
    requires Closed(j) && InGraph(j, s) && b < j.n
    ensures BlockLeaves(j, b, Split(j, 0, s, true)) == BlockLeaves(j, b, s)
  {
    if s != [] {
      var n := |s| - 1;
      BlocksFromSide(j, b, s[..n]);
      var t := Split(j, 0, s[..n], true);
      if Active(j, 0, s[n]) {
        assert (t + [s[n]])[..|t|] == t;
      } else {
        assert Split(j, 0, s, true) == t;
      }
    }
  }

  lemma BlockSide(m: map<int, seq<int>>, j: Job, s: seq<int>)
    requires Closed(j) && InGraph(j, s) && BlocksAll(m, j, Split(j, 0, s, true))
    ensures BlocksAll(m, j, s)
  {
    forall b ensures BlockAt(m, j, s, b) {
      assert BlockAt(m, j, Split(j, 0, s, true), b);
      if b < j.n { BlocksFromSide(j, b, s); }
    }
  }

  // vector::erase of the place where std::find finds x.
  method EraseColor(list: seq<int>, x: int) returns (r: seq<int>)
    requires NoDup(list)
    ensures r == Drop(list, x)
  {
    var i := 0;
    while i < |list| && list[i] != x
      invariant 0 <= i <= |list|
      invariant x !in list[..i]
    {
      i := i + 1;
    }
    DropIs(list, x, i);
    r := if i < |list| then list[..i] + list[i + 1..] else list;
  }

  lemma {:induction false} DropIs(list: seq<int>, x: int, i: nat)
    requires NoDup(list) && i <= |list| && x !in list[..i] && (i < |list| ==> list[i] == x)
    ensures Drop(list, x) == if i < |list| then list[..i] + list[i + 1..] else list
  {
    if list != [] {
      var n := |list| - 1;
      assert list == list[..n] + [list[n]] && list[n] !in list[..n];
      if i < n {
        assert list[..n][..i] == list[..i];
        DropIs(list[..n], x, i);
        assert list[..i] + list[i + 1..] == (list[..i] + list[..n][i + 1..]) + [list[n]];
      } else {
        assert list[..n][..n] == list[..n];
        assert x !in list[..n] by { if i == n + 1 { assert list[..i] == list; } }
        DropIs(list[..n], x, n);
        if i == n { assert list[..n] + list[n + 1..] == list[..n]; }
      }
    }
  }

  // One more sub-packet was appended to the lists of exactly the nodes that
  // work on it.
  lemma CollectStep(m: map<int, seq<int>>, r: map<int, seq<int>>, j: Job, k: Kind, l: nat, s: seq<int>, i: nat)
    requires Closed(j) && InGraph(j, s) && i < |s|
    requires CollectsAll(m, j, k, l, s[..i])
    requires forall c :: c in r <==> c in m || Chosen(j, k, l, c, s[i])
    requires forall c :: c in r ==>
               r[c] == (if c in m then m[c] else []) + if Chosen(j, k, l, c, s[i]) then [s[i]] else []
    ensures CollectsAll(r, j, k, l, s[..i + 1])
  {
    var t := s[..i + 1];
    forall c ensures Collects(r, j, k, l, t, c) {
      assert Collects(m, j, k, l, s[..i], c);
      PickStep(j, k, l, c, s, i);
    }
  }

  lemma BlockStep(m: map<int, seq<int>>, r: map<int, seq<int>>, j: Job, s: seq<int>, i: nat)
    requires j.w > 0 && i < |s| && BlocksAll(m, j, s[..i])
    requires s[i] / j.w < j.n ==> r == m[s[i] / j.w := (if s[i] / j.w in m then m[s[i] / j.w] else []) + [s[i]]]
    requires s[i] / j.w >= j.n ==> r == m
    ensures BlocksAll(r, j, s[..i + 1])
  {
    assert s[..i + 1][..i] == s[..i];
    var t := s[..i + 1];
    forall b ensures BlockAt(r, j, t, b) {
      assert BlockAt(m, j, s[..i], b);
    }
  }

  lemma RememberStep(usage: map<int, (bool, bool)>, sendTo: map<int, seq<int>>,
                     usage': map<int, (bool, bool)>, sendTo': map<int, seq<int>>, j: Job, l: nat, s: seq<int>, i: nat)
    requires Closed(j) && InGraph(j, s) && i < |s| && NoDup(s)
    requires Remembers(usage, sendTo, j, l, s[..i])
    requires if Active(j, l, s[i]) then
        usage' == usage[s[i] := Usage(j, s[i])]
        && sendTo' == if Remote(j, s[i]) != [] then sendTo[s[i] := Remote(j, s[i])] else sendTo
      else usage' == usage && sendTo' == sendTo
    ensures Remembers(usage', sendTo', j, l, s[..i + 1])
  {
    forall a | 0 <= a < i + 1 && Active(j, l, s[..i + 1][a])
      ensures s[a] in usage' && usage'[s[a]] == Usage(j, s[a])
      ensures Remote(j, s[a]) != [] ==> s[a] in sendTo' && sendTo'[s[a]] == Remote(j, s[a])
    {
      if a < i { assert s[..i][a] == s[a]; }
    }
  }

  // Every entry on a failed node is moved to the node that takes its place, and
  // every other entry stays.
  ghost predicate Moved(col: map<int, int>, moved: map<int, int>, r: map<int, int>) {
    r.Keys == col.Keys && forall v :: v in col ==> r[v] == if col[v] in moved then moved[col[v]] else col[v]
  }

  // A task sits where some vertex of the job is coloured.
  lemma TaskNode(j: Job, key: Key)
    requires Closed(j) && Present(j, key)
    ensures exists v :: v in j.g && j.col[v] == NodeAt(j, key)
  {
    match key
    case KRead(b) => FirstLeaf(j, b);
    case KWork(k, l, c) =>
      var v := Work(j, k, l, c)[0];
      PickMembers(j, k, l, c, j.levels[l]);
      assert v in Work(j, k, l, c);
      ChosenNode(j, k, l, c, v);
    case KRoot(r) =>
  }

  lemma ChosenNode(j: Job, k: Kind, l: nat, c: int, v: int)
    requires Closed(j) && v in j.g && Chosen(j, k, l, c, v)
    ensures exists u :: u in j.g && j.col[u] == c
  {
    ParentsKnown(j, v);
    if j.col[v] != c {
      var cs := ColorsOf(j.col, j.g[v].parents);
      assert c in Users(j, v);
      assert c in cs;
      var i :| 0 <= i < |cs| && cs[i] == c;
      var p := j.g[v].parents[i];
      assert p in j.g && j.col[p] == c;
    }
  }

  lemma {:induction false} TaskHasKey(j: Job, keys: seq<Key>, c: int, task: Task)
    requires Closed(j) && AllPresent(j, keys) && task in TasksFor(j, keys, c)
    ensures exists key :: key in keys && Present(j, key) && NodeAt(j, key) == c
  {
    var n := |keys| - 1;
    if task in TasksFor(j, keys[..n], c) {
      TaskHasKey(j, keys[..n], c, task);
      var key :| key in keys[..n] && Present(j, key) && NodeAt(j, key) == c;
      assert key in keys;
    } else {
      assert keys[n] in keys;
    }
  }

  lemma {:induction false} KeyHasTask(j: Job, keys: seq<Key>, i: nat)
    requires Closed(j) && AllPresent(j, keys) && i < |keys|
    ensures TaskAt(j, keys[i]) in TasksFor(j, keys, NodeAt(j, keys[i]))
  {
    var n := |keys| - 1;
    if i < n {
      assert keys[..n][i] == keys[i];
      KeyHasTask(j, keys[..n], i);
    }
  }

  lemma MovedAway(col: map<int, int>, moved: map<int, int>, r: map<int, int>, v: int)
    requires Moved(col, moved, r) && v in r && forall d :: d in moved ==> moved[d] !in moved
    ensures r[v] !in moved
  {
    var d := col[v];
    if d in moved { assert moved[d] !in moved; }
  }

  // No task is left on a failed node, when those that take their places are
  // not failed themselves.
  lemma NobodyOnFailed(j: Job, keys: seq<Key>, col: map<int, int>, moved: map<int, int>, c: int)
    requires Closed(j) && AllPresent(j, keys) && Moved(col, moved, j.col) && c in moved
    requires forall d :: d in moved ==> moved[d] !in moved
    ensures TasksFor(j, keys, c) == []
  {
    var tasks := TasksFor(j, keys, c);
    if tasks != [] {
      var task := tasks[0];
      assert task in tasks;
      TaskHasKey(j, keys, c, task);
      var key :| key in keys && Present(j, key) && NodeAt(j, key) == c;
      TaskNode(j, key);
      var v :| v in j.g && j.col[v] == c;
      assert v in j.col;
      MovedAway(col, moved, j.col, v);
    }
  }

  // The file of root RootOf(b) is block b, over the root's children in order.
  lemma PersistNames(j: Job, b: int)
    requires Closed(j) && Present(j, KRoot(RootOf(b)))
    ensures TaskAt(j, KRoot(RootOf(b))) == Persist(j.g[RootOf(b)].children, b) && NodeAt(j, KRoot(RootOf(b))) == j.col[RootOf(b)]
  {
  }

  // A read names the block of all that it lists, and lists every leaf of that
  // block once, in increasing order.
  lemma ReadNames(j: Job, b: int)
    requires Closed(j) && Present(j, KRead(b))
    ensures var t := TaskAt(j, KRead(b));
      && t.ReadBlock? && t.blk == b && (forall v :: v in t.list <==> v in j.levels[0] && v / j.w == b)
      && Increasing(t.list) && (NoDup(j.levels[0]) ==> NoDup(t.list))
  {
  }

  lemma OneMoreKey(j: Job, keys: seq<Key>, key: Key)
    requires Closed(j) && AllPresent(j, keys) && Present(j, key)
    ensures AllPresent(j, keys + [key])
    ensures forall d {:trigger TasksFor(j, keys + [key], d)} ::
              TasksFor(j, keys + [key], d) == TasksFor(j, keys, d) + if d == NodeAt(j, key) then [TaskAt(j, key)] else []
  {
    assert AllPresent(j, keys + [key]);
    assert (keys + [key])[..|keys|] == keys;
  }

  lemma RootIsFiled(j: Job, keys: seq<Key>, r: int)
    requires Closed(j) && Complete(j, keys) && AllPresent(j, keys) && |j.levels| >= 2 && r in j.levels[|j.levels| - 1]
    ensures r in j.g && Persist(j.g[r].children, REQUESTOR - r) in TasksFor(j, keys, j.col[r])
  {
    var last := j.levels[|j.levels| - 1];
    var i :| 0 <= i < |last| && last[i] == r;
    assert r in j.g && Present(j, KRoot(r));
    assert KRoot(r) in keys;
    var t :| 0 <= t < |keys| && keys[t] == KRoot(r);
    KeyHasTask(j, keys, t);
  }

  class Stripe {
    const ecdag: ECDAG
    var coloring: map<int, int>
    var taskmap: map<int, seq<Task>>

    constructor (dag: ECDAG, col: map<int, int>)
      ensures ecdag == dag && coloring == col && taskmap == map[]
    {
      ecdag, coloring, taskmap := dag, col, map[];
    }

    // The job that the methods below work on is what the fields hold.
    ghost predicate WorksOn(j: Job)
      reads this, ecdag
    {
      j.g == ecdag.nodes && j.col == coloring && Closed(j)
    }

    // The task map holds the tasks of keys and nothing else.
    ghost predicate Emitted(j: Job, keys: seq<Key>)
      requires Closed(j) && AllPresent(j, keys)
      reads `taskmap
    {
      forall c {:trigger TasksFor(j, keys, c)} ::
        if c in taskmap then taskmap[c] == TasksFor(j, keys, c) else TasksFor(j, keys, c) == []
    }

    method Emit(c: int, task: Task, ghost j: Job, ghost keys: seq<Key>, ghost key: Key)
      requires Closed(j) && AllPresent(j, keys) && Emitted(j, keys)
      requires Present(j, key) && c == NodeAt(j, key) && task == TaskAt(j, key)
      modifies `taskmap
      ensures AllPresent(j, keys + [key]) && Emitted(j, keys + [key])
    {
      OneMoreKey(j, keys, key);
      assert forall d {:trigger TasksFor(j, keys, d)} :: d !in taskmap ==> TasksFor(j, keys, d) == [];
      if c !in taskmap {
        taskmap := taskmap[c := [task]];
      } else {
        taskmap := taskmap[c := taskmap[c] + [task]];
      }
    }

    // ------------------------------------------------- looking at one vertex

    // The distinct colours of the parents.
    method ParentColors(v: int, ghost j: Job) returns (list: seq<int>)
      requires WorksOn(j) && v in j.g
      ensures list == Users(j, v)
    {
      ParentsKnown(j, v);
      list := DistinctColors(coloring, ecdag.nodes[v].parents);
    }

    // The same without -1: parents that are zero themselves are made later.
    method ParentNodes(v: int, ghost j: Job) returns (list: seq<int>)
      requires WorksOn(j) && v in j.g
      ensures NoDup(list) && forall c :: c in list <==> c in Users(j, v) && c != -1
    {
      list := [];
      var ps := ecdag.nodes[v].parents;
      ParentsKnown(j, v);
      ghost var cs := ColorsOf(j.col, ps);
      var i := 0;
      while i < |ps|
        invariant 0 <= i <= |ps|
        invariant NoDup(list) && forall c :: c in list <==> c in cs[..i] && c != -1
      {
        assert cs[..i + 1] == cs[..i] + [cs[i]];
        var color := coloring[ps[i]];
        i := i + 1;
        if color == -1 { continue; }
        if color !in list { list := list + [color]; }
      }
      assert cs[..|cs|] == cs;
    }

    // <used on its own node, used elsewhere>, with the early exit.
    method UsageOf(list: seq<int>, mine: int) returns (same: bool, diff: bool)
      ensures same <==> mine in list
      ensures diff <==> exists c :: c in list && c != mine
    {
      same, diff := false, false;
      var i := 0;
      while i < |list| && !(same && diff)
        invariant 0 <= i <= |list|
        invariant same <==> mine in list[..i]
        invariant diff <==> exists c :: c in list[..i] && c != mine
      {
        var color := list[i];
        assert list[..i + 1] == list[..i] + [color];
        assert color in list[..i + 1];
        assert forall c :: c in list[..i + 1] <==> c in list[..i] || c == color;
        if color == mine { same := true; } else { diff := true; }
        i := i + 1;
      }
      assert forall c :: c in list[..i] ==> c in list;
      if i == |list| { assert list[..i] == list; }
    }

    // --------------------------------------------------- looking at one level

    method SplitLevel0(leaves: seq<int>, n: nat, w: int, ghost j: Job) returns (reals: seq<int>, virt: seq<int>)
      requires WorksOn(j) && InGraph(j, leaves) && j.n == n && j.w == w
      ensures reals == Split(j, 0, leaves, true) && virt == Split(j, 0, leaves, false)
    {
      reals, virt := [], [];
      var i := 0;
      while i < |leaves|
        invariant 0 <= i <= |leaves|
        invariant reals == Split(j, 0, leaves[..i], true) && virt == Split(j, 0, leaves[..i], false)
      {
        assert leaves[..i + 1][..i] == leaves[..i];
        var blkidx := leaves[i] / w;
        if blkidx < n { reals := reals + [leaves[i]]; } else { virt := virt + [leaves[i]]; }
        i := i + 1;
      }
      assert leaves[..|leaves|] == leaves;
    }

    method SplitInner(leaves: seq<int>, ghost l: nat, ghost j: Job) returns (reals: seq<int>, zero: seq<int>)
      requires WorksOn(j) && InGraph(j, leaves) && l > 0
      ensures reals == Split(j, l, leaves, true) && zero == Split(j, l, leaves, false)
    {
      reals, zero := [], [];
      var i := 0;
      while i < |leaves|
        invariant 0 <= i <= |leaves|
        invariant reals == Split(j, l, leaves[..i], true) && zero == Split(j, l, leaves[..i], false)
      {
        assert leaves[..i + 1][..i] == leaves[..i];
        var v := leaves[i];
        assert v in j.g && v in j.col;
        var color := coloring[v];
        if color != -1 { reals := reals + [leaves[i]]; } else { zero := zero + [leaves[i]]; }
        i := i + 1;
      }
      assert leaves[..|leaves|] == leaves;
    }

    // Usage, senders and receivers of one more active sub-packet.
    method PlanVertex(v: int, usage: map<int, (bool, bool)>, sendFrom: map<int, seq<int>>, sendTo: map<int, seq<int>>,
                      recv: map<int, seq<int>>, ghost j: Job, ghost l: nat, ghost s: seq<int>, ghost i: nat)
      returns (usage': map<int, (bool, bool)>, sendFrom': map<int, seq<int>>, sendTo': map<int, seq<int>>,
               recv': map<int, seq<int>>)
      requires WorksOn(j) && InGraph(j, s) && NoDup(s) && i < |s| && s[i] == v && Active(j, l, v)
      requires Remembers(usage, sendTo, j, l, s[..i])
      requires CollectsAll(sendFrom, j, KSend, l, s[..i]) && CollectsAll(recv, j, KRecv, l, s[..i])
      ensures Remembers(usage', sendTo', j, l, s[..i + 1])
      ensures CollectsAll(sendFrom', j, KSend, l, s[..i + 1]) && CollectsAll(recv', j, KRecv, l, s[..i + 1])
    {
      var mine := coloring[v];
      var list := ParentColors(v, j);
      var same, diff := UsageOf(list, mine);
      list := EraseColor(list, mine);
      assert diff == (Remote(j, v) != []) by { SomeRemote(j, v); }
      usage' := usage[v := (same, diff)];
      sendFrom', sendTo' := sendFrom, sendTo;
      if |list| > 0 {
        sendFrom' := AppendTo(sendFrom, mine, v);
        sendTo' := sendTo[v := list];
      }
      recv' := AppendToAll(recv, list, v);
      RememberStep(usage, sendTo, usage', sendTo', j, l, s, i);
      CollectStep(sendFrom, sendFrom', j, KSend, l, s, i);
      CollectStep(recv, recv', j, KRecv, l, s, i);
    }

    // The nodes that need a zero made in place.
    method ZeroNodes(zero: seq<int>, ghost l: nat, ghost j: Job) returns (m: map<int, seq<int>>)
      requires WorksOn(j) && InGraph(j, zero) && forall i :: 0 <= i < |zero| ==> !Active(j, l, zero[i])
      ensures CollectsAll(m, j, KZero, l, zero)
    {
      m := map[];
      var i := 0;
      while i < |zero|
        invariant 0 <= i <= |zero|
        invariant CollectsAll(m, j, KZero, l, zero[..i])
      {
        var nodes := ParentNodes(zero[i], j);
        ghost var before := m;
        m := AppendToAll(m, nodes, zero[i]);
        CollectStep(before, m, j, KZero, l, zero, i);
        i := i + 1;
      }
      assert zero[..|zero|] == zero;
    }

    // ----------------------------------------------------- emitting one level

    // The task map and the keys it was built from.
    ghost predicate Recorded(j: Job, keys: seq<Key>)
      requires Closed(j)
      reads `taskmap
    {
      NoDup(keys) && AllPresent(j, keys) && Emitted(j, keys)
    }

    method LookUp(list: seq<int>, sendTo: map<int, seq<int>>, ghost j: Job) returns (dests: seq<seq<int>>)
      requires Closed(j) && InGraph(j, list)
      requires forall i :: 0 <= i < |list| ==> list[i] in sendTo && sendTo[list[i]] == Remote(j, list[i])
      ensures dests == Destinations(j, list)
    {
      dests := [];
      var i := 0;
      while i < |list|
        invariant 0 <= i <= |list| && |dests| == i
        invariant forall k :: 0 <= k < i ==> dests[k] == Remote(j, list[k])
      {
        dests := dests + [sendTo[list[i]]];
        i := i + 1;
      }
    }

    method EmitSends(sendFrom: map<int, seq<int>>, sendTo: map<int, seq<int>>, ghost usage: map<int, (bool, bool)>,
                     ghost j: Job, ghost l: nat, ghost keys0: seq<Key>)
      returns (ghost keys: seq<Key>)
      requires Closed(j) && l < |j.levels| - 1
      requires CollectsAll(sendFrom, j, KSend, l, j.levels[l]) && Remembers(usage, sendTo, j, l, j.levels[l])
      requires Recorded(j, keys0) && forall key :: key in keys0 ==> !InGroup(key, KSend, l)
      modifies `taskmap
      ensures Recorded(j, keys) && keys0 <= keys && Grown(j, keys0, keys, KSend, l)
    {
      keys := keys0;
      var todo := sendFrom.Keys;
      GrownStart(sendFrom, j, keys, KSend, l);
      while todo != {}
        invariant todo <= sendFrom.Keys
        invariant Recorded(j, keys) && keys0 <= keys && GrownBut(j, keys0, keys, KSend, l, todo)
        decreases |todo|
      {
        NonEmpty(todo);
        var c :| c in todo;
        todo := todo - {c};
        assert Collects(sendFrom, j, KSend, l, j.levels[l], c);
        assert c in sendFrom && sendFrom[c] == Work(j, KSend, l, c);
        SendersKnow(usage, sendTo, j, l, c);
        var dests := LookUp(sendFrom[c], sendTo, j);
        GrownStep(j, keys0, keys, KSend, l, todo, c);
        Emit(c, Send(sendFrom[c], dests), j, keys, KWork(KSend, l, c));
        keys := keys + [KWork(KSend, l, c)];
      }
      NoneMissing(sendFrom, j, keys0, keys, KSend, l);
    }

    method EmitRecvs(recv: map<int, seq<int>>, ghost j: Job, ghost l: nat, ghost keys0: seq<Key>)
      returns (ghost keys: seq<Key>)
      requires Closed(j) && l < |j.levels| - 1 && CollectsAll(recv, j, KRecv, l, j.levels[l])
      requires Recorded(j, keys0) && forall key :: key in keys0 ==> !InGroup(key, KRecv, l)
      modifies `taskmap
      ensures Recorded(j, keys) && keys0 <= keys && Grown(j, keys0, keys, KRecv, l)
    {
      keys := keys0;
      var todo := recv.Keys;
      GrownStart(recv, j, keys, KRecv, l);
      while todo != {}
        invariant todo <= recv.Keys
        invariant Recorded(j, keys) && keys0 <= keys && GrownBut(j, keys0, keys, KRecv, l, todo)
        decreases |todo|
      {
        NonEmpty(todo);
        var c :| c in todo;
        todo := todo - {c};
        assert Collects(recv, j, KRecv, l, j.levels[l], c);
        GrownStep(j, keys0, keys, KRecv, l, todo, c);
        Emit(c, Recv(recv[c]), j, keys, KWork(KRecv, l, c));
        keys := keys + [KWork(KRecv, l, c)];
      }
      NoneMissing(recv, j, keys0, keys, KRecv, l);
    }

    method EmitZeros(zero: map<int, seq<int>>, ghost j: Job, ghost l: nat, ghost keys0: seq<Key>)
      returns (ghost keys: seq<Key>)
      requires Closed(j) && l < |j.levels| - 1 && CollectsAll(zero, j, KZero, l, j.levels[l])
      requires Recorded(j, keys0) && forall key :: key in keys0 ==> !InGroup(key, KZero, l)
      modifies `taskmap
      ensures Recorded(j, keys) && keys0 <= keys && Grown(j, keys0, keys, KZero, l)
    {
      keys := keys0;
      var todo := zero.Keys;
      GrownStart(zero, j, keys, KZero, l);
      while todo != {}
        invariant todo <= zero.Keys
        invariant Recorded(j, keys) && keys0 <= keys && GrownBut(j, keys0, keys, KZero, l, todo)
        decreases |todo|
      {
        NonEmpty(todo);
        var c :| c in todo;
        todo := todo - {c};
        assert Collects(zero, j, KZero, l, j.levels[l], c);
        GrownStep(j, keys0, keys, KZero, l, todo, c);
        Emit(c, ReadZero(zero[c]), j, keys, KWork(KZero, l, c));
        keys := keys + [KWork(KZero, l, c)];
      }
      NoneMissing(zero, j, keys0, keys, KZero, l);
    }

    method BuildItems(list: seq<int>, usage: map<int, (bool, bool)>, ghost j: Job) returns (items: seq<Item>)
      requires WorksOn(j) && InGraph(j, list)
      requires forall i :: 0 <= i < |list| ==> list[i] in usage && usage[list[i]] == Usage(j, list[i])
      ensures items == Items(j, list)
    {
      items := [];
      var i := 0;
      while i < |list|
        invariant 0 <= i <= |list| && |items| == i
        invariant forall k :: 0 <= k < i ==> items[k] == ItemOf(j, list[k])
      {
        var v := list[i];
        items := items + [Item(v, ecdag.nodes[v].children, ecdag.nodes[v].coefs, usage[v].0, usage[v].1)];
        i := i + 1;
      }
    }

    method EmitComputes(compute: map<int, seq<int>>, usage: map<int, (bool, bool)>, ghost sendTo: map<int, seq<int>>,
                        ghost j: Job, ghost l: nat, ghost keys0: seq<Key>)
      returns (ghost keys: seq<Key>)
      requires WorksOn(j) && l < |j.levels| - 1
      requires CollectsAll(compute, j, KCalc, l, j.levels[l]) && Remembers(usage, sendTo, j, l, j.levels[l])
      requires Recorded(j, keys0) && forall key :: key in keys0 ==> !InGroup(key, KCalc, l)
      modifies `taskmap
      ensures Recorded(j, keys) && keys0 <= keys && Grown(j, keys0, keys, KCalc, l)
    {
      keys := keys0;
      var todo := compute.Keys;
      GrownStart(compute, j, keys, KCalc, l);
      while todo != {}
        invariant todo <= compute.Keys
        invariant Recorded(j, keys) && keys0 <= keys && GrownBut(j, keys0, keys, KCalc, l, todo)
        decreases |todo|
      {
        NonEmpty(todo);
        var c :| c in todo;
        todo := todo - {c};
        assert Collects(compute, j, KCalc, l, j.levels[l], c);
        assert c in compute && compute[c] == Work(j, KCalc, l, c);
        MakersKnow(usage, sendTo, j, l, c);
        var items := BuildItems(compute[c], usage, j);
        GrownStep(j, keys0, keys, KCalc, l, todo, c);
        Emit(c, Compute(items), j, keys, KWork(KCalc, l, c));
        keys := keys + [KWork(KCalc, l, c)];
      }
      NoneMissing(compute, j, keys0, keys, KCalc, l);
    }

    method UsageList(list: seq<int>, usage: map<int, (bool, bool)>, ghost j: Job) returns (r: seq<(bool, bool)>)
      requires Closed(j) && InGraph(j, list)
      requires forall i :: 0 <= i < |list| ==> list[i] in usage && usage[list[i]] == Usage(j, list[i])
      ensures r == Usages(j, list)
    {
      r := [];
      var i := 0;
      while i < |list|
        invariant 0 <= i <= |list| && |r| == i
        invariant forall k :: 0 <= k < i ==> r[k] == Usage(j, list[k])
      {
        r := r + [usage[list[i]]];
        i := i + 1;
      }
    }

    method EmitReads(blocks: map<int, seq<int>>, usage: map<int, (bool, bool)>, ghost sendTo: map<int, seq<int>>,
                     ghost j: Job, ghost keys0: seq<Key>)
      returns (ghost keys: seq<Key>)
      requires WorksOn(j) && |j.levels| >= 2 && forall i :: 0 <= i < |j.levels[0]| ==> j.levels[0][i] >= 0
      requires BlocksAll(blocks, j, j.levels[0]) && Remembers(usage, sendTo, j, 0, j.levels[0])
      requires Recorded(j, keys0) && forall key :: key in keys0 ==> !key.KRead?
      modifies `taskmap
      ensures Recorded(j, keys) && keys0 <= keys && GrownReads(j, keys0, keys, {})
    {
      keys := keys0;
      var todo := blocks.Keys;
      ReadsStart(blocks, j, keys);
      while todo != {}
        invariant todo <= blocks.Keys
        invariant Recorded(j, keys) && keys0 <= keys && GrownReads(j, keys0, keys, todo)
        decreases |todo|
      {
        NonEmpty(todo);
        var b :| b in todo;
        todo := todo - {b};
        BlockIsPresent(blocks, j, b);
        FirstLeaf(j, b);
        var color := coloring[blocks[b][0]];
        var list := Sorted(blocks[b]);
        ReadersKnow(usage, sendTo, j, b);
        var flags := UsageList(list, usage, j);
        ReadsStep(j, keys0, keys, todo, b);
        Emit(color, ReadBlock(b, list, flags), j, keys, KRead(b));
        keys := keys + [KRead(b)];
      }
    }

    // --------------------------------------------------- preparing one level

    method PrepareLevel0(leaves: seq<int>, w: int, ghost j: Job, ghost all: seq<int>)
      returns (blocks: map<int, seq<int>>, usage: map<int, (bool, bool)>, sendFrom: map<int, seq<int>>,
               sendTo: map<int, seq<int>>, recv: map<int, seq<int>>)
      requires WorksOn(j) && j.w == w && InGraph(j, leaves) && NoDup(leaves)
      requires forall i :: 0 <= i < |leaves| ==> Active(j, 0, leaves[i])
      ensures BlocksAll(blocks, j, leaves) && Remembers(usage, sendTo, j, 0, leaves)
      ensures CollectsAll(sendFrom, j, KSend, 0, leaves) && CollectsAll(recv, j, KRecv, 0, leaves)
    {
      blocks, usage, sendFrom, sendTo, recv := map[], map[], map[], map[], map[];
      var i := 0;
      while i < |leaves|
        invariant 0 <= i <= |leaves|
        invariant BlocksAll(blocks, j, leaves[..i]) && Remembers(usage, sendTo, j, 0, leaves[..i])
        invariant CollectsAll(sendFrom, j, KSend, 0, leaves[..i]) && CollectsAll(recv, j, KRecv, 0, leaves[..i])
      {
        ghost var before := blocks;
        blocks := AppendTo(blocks, leaves[i] / w, leaves[i]);
        BlockStep(before, blocks, j, leaves, i);
        usage, sendFrom, sendTo, recv := PlanVertex(leaves[i], usage, sendFrom, sendTo, recv, j, 0, leaves, i);
        i := i + 1;
      }
      assert leaves[..|leaves|] == leaves;
    }

    method PrepareInner(leaves: seq<int>, ghost l: nat, ghost j: Job)
      returns (compute: map<int, seq<int>>, usage: map<int, (bool, bool)>, sendFrom: map<int, seq<int>>,
               sendTo: map<int, seq<int>>, recv: map<int, seq<int>>)
      requires WorksOn(j) && InGraph(j, leaves) && NoDup(leaves) && l > 0
      requires forall i :: 0 <= i < |leaves| ==> Active(j, l, leaves[i])
      ensures CollectsAll(compute, j, KCalc, l, leaves) && Remembers(usage, sendTo, j, l, leaves)
      ensures CollectsAll(sendFrom, j, KSend, l, leaves) && CollectsAll(recv, j, KRecv, l, leaves)
    {
      compute, usage, sendFrom, sendTo, recv := map[], map[], map[], map[], map[];
      var i := 0;
      while i < |leaves|
        invariant 0 <= i <= |leaves|
        invariant CollectsAll(compute, j, KCalc, l, leaves[..i]) && Remembers(usage, sendTo, j, l, leaves[..i])
        invariant CollectsAll(sendFrom, j, KSend, l, leaves[..i]) && CollectsAll(recv, j, KRecv, l, leaves[..i])
      {
        ghost var before := compute;
        compute := AppendTo(compute, coloring[leaves[i]], leaves[i]);
        CollectStep(before, compute, j, KCalc, l, leaves, i);
        usage, sendFrom, sendTo, recv := PlanVertex(leaves[i], usage, sendFrom, sendTo, recv, j, l, leaves, i);
        i := i + 1;
      }
      assert leaves[..|leaves|] == leaves;
    }

    // ---------------------------------------------------------- the generators

    method GenLevel0(leaves: seq<int>, n: nat, w: int, ghost j: Job) returns (ghost keys: seq<Key>)
      requires WorksOn(j) && j.n == n && j.w == w && |j.levels| >= 2 && leaves == j.levels[0] && NoDup(leaves)
      requires forall i :: 0 <= i < |leaves| ==> leaves[i] >= 0
      requires taskmap == map[]
      modifies `taskmap
      ensures Recorded(j, keys) && InTurn(j, keys)
      ensures forall key {:trigger key in keys} :: key in keys <==> Present(j, key) && StageOf(j, key) == 0
    {
      var reals, virt := SplitLevel0(leaves, n, w, j);
      SplitSides(j, 0, leaves);
      var blocks, usage, sendFrom, sendTo, recv := PrepareLevel0(reals, w, j, leaves);
      BlockSide(blocks, j, leaves);
      CollectSide(sendFrom, j, KSend, 0, leaves);
      CollectSide(recv, j, KRecv, 0, leaves);
      RememberSide(usage, sendTo, j, 0, leaves);
      ghost var loads := EmitReads(blocks, usage, sendTo, j, []);
      ghost var sends := EmitSends(sendFrom, sendTo, usage, j, 0, loads);
      ghost var recvs := EmitRecvs(recv, j, 0, sends);
      var zero := ZeroNodes(virt, 0, j);
      CollectSide(zero, j, KZero, 0, leaves);
      keys := EmitZeros(zero, j, 0, recvs);
      Level0Keys(j, loads, sends, recvs, keys);
      LaterTurn(j, [], loads, 0);
      FourTurns(j, 0, loads, sends, recvs, keys);
    }

    method GenIntermediateLevels(leaves: seq<int>, ghost l: nat, ghost j: Job, ghost keys0: seq<Key>)
      returns (ghost keys: seq<Key>)
      requires WorksOn(j) && 0 < l < |j.levels| - 1 && leaves == j.levels[l] && NoDup(leaves)
      requires Recorded(j, keys0) && InTurn(j, keys0) && forall key :: key in keys0 ==> StageOf(j, key) < l
      modifies `taskmap
      ensures Recorded(j, keys) && InTurn(j, keys)
      ensures forall key {:trigger key in keys} ::
                key in keys <==> key in keys0 || (Present(j, key) && StageOf(j, key) == l)
    {
      var reals, virt := SplitInner(leaves, l, j);
      SplitSides(j, l, leaves);
      var compute, usage, sendFrom, sendTo, recv := PrepareInner(reals, l, j);
      CollectSide(compute, j, KCalc, l, leaves);
      CollectSide(sendFrom, j, KSend, l, leaves);
      CollectSide(recv, j, KRecv, l, leaves);
      RememberSide(usage, sendTo, j, l, leaves);
      ghost var calcs := EmitComputes(compute, usage, sendTo, j, l, keys0);
      ghost var sends := EmitSends(sendFrom, sendTo, usage, j, l, calcs);
      ghost var recvs := EmitRecvs(recv, j, l, sends);
      var zero := ZeroNodes(virt, l, j);
      CollectSide(zero, j, KZero, l, leaves);
      keys := EmitZeros(zero, j, l, recvs);
      InnerKeys(j, l, keys0, calcs, sends, recvs, keys);
      StagesBelow(j, keys0, l);
      LaterTurn(j, keys0, calcs, 4 * l);
      FourTurns(j, l, calcs, sends, recvs, keys);
    }

    method GenLastLevel(leaves: seq<int>, ghost j: Job, ghost keys0: seq<Key>) returns (ghost keys: seq<Key>)
      requires WorksOn(j) && |j.levels| >= 2 && leaves == j.levels[|j.levels| - 1] && NoDup(leaves)
      requires Recorded(j, keys0) && InTurn(j, keys0) && forall key :: key in keys0 ==> StageOf(j, key) < |j.levels| - 1
      modifies `taskmap
      ensures Recorded(j, keys) && InTurn(j, keys)
      ensures forall key {:trigger key in keys} ::
                key in keys <==> key in keys0 || (Present(j, key) && StageOf(j, key) == |j.levels| - 1)
    {
      keys := keys0;
      var i := 0;
      assert InGraph(j, leaves);
      while i < |leaves|
        invariant 0 <= i <= |leaves|
        invariant Recorded(j, keys) && keys0 <= keys
        invariant forall key {:trigger key in keys} :: key in keys <==> key in keys0 || (key.KRoot? && key.r in leaves[..i])
      {
        var root := leaves[i];
        assert leaves[..i + 1] == leaves[..i] + [root] && root !in leaves[..i];
        assert root in leaves && root in j.g && root in j.col;
        assert KRoot(root) !in keys;
        Emit(coloring[root], Persist(ecdag.nodes[root].children, REQUESTOR - root), j, keys, KRoot(root));
        NoDupAppend(keys, KRoot(root));
        keys := keys + [KRoot(root)];
        i := i + 1;
      }
      assert leaves[..|leaves|] == leaves;
      StagesBelow(j, keys0, |j.levels| - 1);
      LaterTurn(j, keys0, keys, 4 * (|j.levels| - 1));
    }

    // The new node of every failed one; each entry is moved once.
    method Recolor(moved: map<int, int>)
      modifies `coloring
      ensures Moved(old(coloring), moved, coloring)
    {
      ghost var col := coloring;
      var items := coloring;
      var todo := items.Keys;
      while todo != {}
        invariant todo <= col.Keys && items == col && coloring.Keys == col.Keys
        invariant forall v :: v in col ==> coloring[v] == if v !in todo && col[v] in moved then moved[col[v]] else col[v]
        decreases |todo|
      {
        NonEmpty(todo);
        var v :| v in todo;
        todo := todo - {v};
        if items[v] in moved { coloring := coloring[v := moved[items[v]]]; }
      }
    }

    method GenLevel(level: nat, numLevel: nat, leaves: seq<int>, n: nat, w: int, ghost j: Job, ghost keys0: seq<Key>)
      returns (ghost keys: seq<Key>)
      requires WorksOn(j) && j.n == n && j.w == w && level < numLevel == |j.levels| && numLevel >= 2
      requires leaves == j.levels[level] && NoDup(leaves)
      requires forall i :: 0 <= i < |j.levels[0]| ==> j.levels[0][i] >= 0
      requires Recorded(j, keys0) && InTurn(j, keys0) && (level == 0 ==> taskmap == map[])
      requires forall key {:trigger key in keys0} :: key in keys0 <==> Present(j, key) && StageOf(j, key) < level
      modifies `taskmap
      ensures Recorded(j, keys) && InTurn(j, keys)
      ensures forall key {:trigger key in keys} :: key in keys <==> Present(j, key) && StageOf(j, key) < level + 1
    {
      if level == 0 {
        keys := GenLevel0(leaves, n, w, j);
      } else if level == numLevel - 1 {
        keys := GenLastLevel(leaves, j, keys0);
      } else {
        keys := GenIntermediateLevels(leaves, level, j, keys0);
      }
    }

    method GenAllLevels(levels: seq<seq<int>>, n: nat, w: int, ghost j: Job) returns (ghost keys: seq<Key>)
      requires WorksOn(j) && j.n == n && j.w == w && levels == j.levels && |levels| >= 2
      requires forall l :: 0 <= l < |levels| ==> NoDup(levels[l])
      requires forall i :: 0 <= i < |levels[0]| ==> levels[0][i] >= 0
      requires taskmap == map[]
      modifies `taskmap
      ensures Complete(j, keys) && Emitted(j, keys) && InTurn(j, keys)
    {
      keys := [];
      var l := 0;
      while l < |levels|
        invariant 0 <= l <= |levels|
        invariant Recorded(j, keys) && InTurn(j, keys) && (l == 0 ==> taskmap == map[])
        invariant forall key {:trigger key in keys} :: key in keys <==> Present(j, key) && StageOf(j, key) < l
      {
        keys := GenLevel(l, |levels|, levels[l], n, w, j, keys);
        l := l + 1;
      }
    }

    method Compile(levels: seq<seq<int>>, n: nat, w: int, fail2repair: map<int, int>)
      returns (ghost j: Job, ghost keys: seq<Key>)
      requires w > 0 && taskmap == map[] && Linked(ecdag.nodes) && ecdag.nodes.Keys <= coloring.Keys
      requires LevelsFit(ecdag.nodes, levels)
      modifies `coloring, `taskmap
      ensures Moved(old(coloring), fail2repair, coloring)
      ensures j == Job(ecdag.nodes, coloring, levels, n, w) && WorksOn(j)
      ensures Complete(j, keys) && Emitted(j, keys) && InTurn(j, keys)
    {
      Recolor(fail2repair);
      j := Job(ecdag.nodes, coloring, levels, n, w);
      keys := GenAllLevels(levels, n, w, j);
    }

    // The task map of a fresh stripe holds every task of the plan of its
    // leveled, recoloured DAG exactly once, on the node it is for.
    method GenRepairTasks(n: nat, w: int, fail2repair: map<int, int>)
      returns (ghost j: Job, ghost level: map<int, nat>, ghost keys: seq<Key>)
      requires ecdag.Valid() && w > 0 && taskmap == map[]
      requires ecdag.nodes.Keys <= coloring.Keys
      requires exists v :: v in ecdag.nodes && ecdag.nodes[v].children != []
      requires forall v :: v in ecdag.nodes && ecdag.nodes[v].children == [] ==> v >= 0
      modifies `coloring, `taskmap
      ensures forall v :: v in coloring <==> v in old(coloring)
      ensures forall v :: v in old(coloring) ==>
                coloring[v] == if old(coloring)[v] in fail2repair then fail2repair[old(coloring)[v]] else old(coloring)[v]
      ensures j.g == ecdag.nodes && j.col == coloring && j.n == n && j.w == w && WorksOn(j)
      ensures Leveling(j.g, j.levels, level) && |j.levels| >= 2
      ensures Complete(j, keys) && Emitted(j, keys) && InTurn(j, keys)
    {
      var levels;
      levels, level := ecdag.GenLeveledTopologicalSorting();
      LevelingFits(ecdag.nodes, levels, level);
      j, keys := Compile(levels, n, w, fail2repair);
    }

    // The node of root r has a task that files the root's children as the block
    // of that root.
    ghost predicate Files(j: Job, r: int)
      reads this
    {
      r in j.g && r in j.col && j.col[r] in taskmap && Persist(j.g[r].children, REQUESTOR - r) in taskmap[j.col[r]]
    }

    // What GenRepairTasks leaves, put to use: when no replacement is itself a
    // failed node, no task sits on a failed node; and every root of the last
    // level is filed under the number of its block.
    lemma PlacesAre(col: map<int, int>, moved: map<int, int>, j: Job, keys: seq<Key>)
      requires WorksOn(j) && Complete(j, keys) && Emitted(j, keys) && Moved(col, moved, j.col) && |j.levels| >= 2
      ensures (forall d :: d in moved ==> moved[d] !in moved) ==> forall c :: c in moved && c in taskmap ==> taskmap[c] == []
      ensures forall r :: r in j.levels[|j.levels| - 1] ==> Files(j, r)
    {
      if forall d :: d in moved ==> moved[d] !in moved {
        forall c | c in moved && c in taskmap ensures taskmap[c] == [] { NobodyOnFailed(j, keys, col, moved, c); }
      }
      forall r | r in j.levels[|j.levels| - 1] ensures Files(j, r) { RootIsFiled(j, keys, r); }
    }
  }

  // keys grew by the present keys of one group.
  ghost predicate Grown(j: Job, before: seq<Key>, after: seq<Key>, k: Kind, l: nat)
    requires Closed(j)
  {
    forall key {:trigger key in after} :: key in after <==> key in before || (InGroup(key, k, l) && Present(j, key))
  }

  // ... all but those of the nodes still to be done.
  ghost predicate GrownBut(j: Job, before: seq<Key>, after: seq<Key>, k: Kind, l: nat, todo: set<int>)
    requires Closed(j)
  {
    forall key {:trigger key in after} ::
      key in after <==> key in before || (InGroup(key, k, l) && Present(j, key) && key.c !in todo)
  }

  lemma GrownStep(j: Job, before: seq<Key>, after: seq<Key>, k: Kind, l: nat, todo: set<int>, c: int)
    requires Closed(j) && Present(j, KWork(k, l, c))
    requires GrownBut(j, before, after, k, l, todo + {c}) && c !in todo && NoDup(after)
    requires forall key :: key in before ==> !InGroup(key, k, l)
    ensures GrownBut(j, before, after + [KWork(k, l, c)], k, l, todo) && NoDup(after + [KWork(k, l, c)])
  {
    var x := KWork(k, l, c);
    assert x !in after;
    NoDupAppend(after, x);
    forall key ensures key in after + [x] <==> key in before || (InGroup(key, k, l) && Present(j, key) && key.c !in todo) {
      assert key in after + [x] <==> key in after || key == x;
    }
  }

  lemma NoneMissing(m: map<int, seq<int>>, j: Job, before: seq<Key>, after: seq<Key>, k: Kind, l: nat)
    requires Closed(j) && l < |j.levels| - 1
    requires GrownBut(j, before, after, k, l, {})
    ensures Grown(j, before, after, k, l)
  {
  }

  lemma GrownStart(m: map<int, seq<int>>, j: Job, keys: seq<Key>, k: Kind, l: nat)
    requires Closed(j) && l < |j.levels| - 1 && CollectsAll(m, j, k, l, j.levels[l])
    ensures GrownBut(j, keys, keys, k, l, m.Keys)
  {
    forall key | InGroup(key, k, l) && Present(j, key) ensures key.c in m {
      assert Collects(m, j, k, l, j.levels[l], key.c);
    }
  }

  lemma SendersKnow(usage: map<int, (bool, bool)>, sendTo: map<int, seq<int>>, j: Job, l: nat, c: int)
    requires Closed(j) && l < |j.levels| - 1 && Remembers(usage, sendTo, j, l, j.levels[l])
    ensures var list := Work(j, KSend, l, c);
      forall i :: 0 <= i < |list| ==> list[i] in sendTo && sendTo[list[i]] == Remote(j, list[i])
  {
    var list := Work(j, KSend, l, c);
    PickMembers(j, KSend, l, c, j.levels[l]);
    forall i | 0 <= i < |list| ensures list[i] in sendTo && sendTo[list[i]] == Remote(j, list[i]) {
      var v := list[i];
      assert v in list;
      var a :| 0 <= a < |j.levels[l]| && j.levels[l][a] == v;
    }
  }

  lemma MakersKnow(usage: map<int, (bool, bool)>, sendTo: map<int, seq<int>>, j: Job, l: nat, c: int)
    requires Closed(j) && l < |j.levels| - 1 && Remembers(usage, sendTo, j, l, j.levels[l])
    ensures var list := Work(j, KCalc, l, c);
      forall i :: 0 <= i < |list| ==> list[i] in usage && usage[list[i]] == Usage(j, list[i])
  {
    var list := Work(j, KCalc, l, c);
    PickMembers(j, KCalc, l, c, j.levels[l]);
    forall i | 0 <= i < |list| ensures list[i] in usage && usage[list[i]] == Usage(j, list[i]) {
      var v := list[i];
      assert v in list;
      var a :| 0 <= a < |j.levels[l]| && j.levels[l][a] == v;
    }
  }

  ghost predicate GrownReads(j: Job, before: seq<Key>, after: seq<Key>, todo: set<int>)
    requires Closed(j)
  {
    forall key {:trigger key in after} ::
      key in after <==> key in before || (key.KRead? && Present(j, key) && key.b !in todo)
  }

  lemma ReadsStart(blocks: map<int, seq<int>>, j: Job, keys: seq<Key>)
    requires Closed(j) && |j.levels| >= 2 && BlocksAll(blocks, j, j.levels[0])
    ensures GrownReads(j, keys, keys, blocks.Keys)
  {
    forall key: Key | key.KRead? && Present(j, key) ensures key.b in blocks {
      assert BlockAt(blocks, j, j.levels[0], key.b);
    }
  }

  lemma ReadsStep(j: Job, before: seq<Key>, after: seq<Key>, todo: set<int>, b: int)
    requires Closed(j) && Present(j, KRead(b))
    requires GrownReads(j, before, after, todo + {b}) && b !in todo && NoDup(after)
    requires forall key :: key in before ==> !key.KRead?
    ensures GrownReads(j, before, after + [KRead(b)], todo) && NoDup(after + [KRead(b)])
  {
    var x := KRead(b);
    assert x !in after;
    NoDupAppend(after, x);
    forall key ensures key in after + [x] <==> key in before || (key.KRead? && Present(j, key) && key.b !in todo) {
      assert key in after + [x] <==> key in after || key == x;
    }
  }

  lemma BlockIsPresent(blocks: map<int, seq<int>>, j: Job, b: int)
    requires Closed(j) && |j.levels| >= 2 && BlocksAll(blocks, j, j.levels[0]) && b in blocks
    requires forall i :: 0 <= i < |j.levels[0]| ==> j.levels[0][i] >= 0
    ensures Present(j, KRead(b)) && blocks[b] == BlockLeaves(j, b, j.levels[0])
  {
    assert BlockAt(blocks, j, j.levels[0], b);
    var v := BlockLeaves(j, b, j.levels[0])[0];
    assert v in BlockLeaves(j, b, j.levels[0]);
    var i :| 0 <= i < |j.levels[0]| && j.levels[0][i] == v;
  }

  lemma ReadersKnow(usage: map<int, (bool, bool)>, sendTo: map<int, seq<int>>, j: Job, b: int)
    requires Closed(j) && |j.levels| >= 2 && b < j.n && Remembers(usage, sendTo, j, 0, j.levels[0])
    ensures var list := ReadList(j, b);
      forall i :: 0 <= i < |list| ==> list[i] in usage && usage[list[i]] == Usage(j, list[i])
  {
    var list := ReadList(j, b);
    forall i | 0 <= i < |list| ensures list[i] in usage && usage[list[i]] == Usage(j, list[i]) {
      var v := list[i];
      assert v in list;
      var a :| 0 <= a < |j.levels[0]| && j.levels[0][a] == v;
    }
  }

  lemma SplitSides(j: Job, l: nat, s: seq<int>)
    requires Closed(j) && InGraph(j, s) && NoDup(s)
    ensures var t := Split(j, l, s, true);
      NoDup(t) && forall i :: 0 <= i < |t| ==> Active(j, l, t[i])
    ensures var t := Split(j, l, s, false);
      NoDup(t) && forall i :: 0 <= i < |t| ==> !Active(j, l, t[i])
  {
    SplitMembers(j, l, s, true);
    SplitMembers(j, l, s, false);
    forall i | 0 <= i < |Split(j, l, s, true)| ensures Active(j, l, Split(j, l, s, true)[i]) {
      var v := Split(j, l, s, true)[i];
      assert v in Split(j, l, s, true);
    }
    forall i | 0 <= i < |Split(j, l, s, false)| ensures !Active(j, l, Split(j, l, s, false)[i]) {
      var v := Split(j, l, s, false)[i];
      assert v in Split(j, l, s, false);
    }
  }

  lemma RememberSide(usage: map<int, (bool, bool)>, sendTo: map<int, seq<int>>, j: Job, l: nat, s: seq<int>)
    requires Closed(j) && InGraph(j, s) && Remembers(usage, sendTo, j, l, Split(j, l, s, true))
    ensures Remembers(usage, sendTo, j, l, s)
  {
    SplitMembers(j, l, s, true);
    var t := Split(j, l, s, true);
    forall i | 0 <= i < |s| && Active(j, l, s[i])
      ensures s[i] in usage && usage[s[i]] == Usage(j, s[i])
      ensures Remote(j, s[i]) != [] ==> s[i] in sendTo && sendTo[s[i]] == Remote(j, s[i])
    {
      var v := s[i];
      assert v in s && v in t;
      var a :| 0 <= a < |t| && t[a] == v;
    }
  }

  lemma Level0Keys(j: Job, loads: seq<Key>, sends: seq<Key>, recvs: seq<Key>, keys: seq<Key>)
    requires Closed(j) && |j.levels| >= 2
    requires GrownReads(j, [], loads, {}) && Grown(j, loads, sends, KSend, 0)
    requires Grown(j, sends, recvs, KRecv, 0) && Grown(j, recvs, keys, KZero, 0)
    ensures forall key {:trigger key in keys} :: key in keys <==> Present(j, key) && StageOf(j, key) == 0
  {
    forall key ensures key in keys <==> Present(j, key) && StageOf(j, key) == 0 {
      assert key in keys <==> key in recvs || (InGroup(key, KZero, 0) && Present(j, key));
      NoComputeAtZero(j, key);
    }
  }

  // Leaves are not computed.
  lemma NoComputeAtZero(j: Job, key: Key)
    requires Closed(j)
    ensures InGroup(key, KCalc, 0) ==> !Present(j, key)
  {
    if InGroup(key, KCalc, 0) && |j.levels| > 0 {
      assert InGraph(j, j.levels[0]);
      NothingToCompute(j, key.c, j.levels[0]);
    }
  }

  lemma {:induction false} NothingToCompute(j: Job, c: int, s: seq<int>)
    requires Closed(j) && InGraph(j, s)
    ensures Pick(j, KCalc, 0, c, s) == []
  {
    if s != [] { NothingToCompute(j, c, s[..|s| - 1]); }
  }

  lemma StagesBelow(j: Job, keys: seq<Key>, l: int)
    requires forall key :: key in keys ==> StageOf(j, key) < l
    ensures TurnsBelow(j, keys, 4 * l)
  {
    forall i | 0 <= i < |keys| ensures Turn(j, keys[i]) < 4 * l { assert keys[i] in keys; }
  }

  lemma FourTurns(j: Job, l: nat, first: seq<Key>, sends: seq<Key>, recvs: seq<Key>, keys: seq<Key>)
    requires Closed(j) && first <= sends <= recvs <= keys && NoDup(keys) && InTurn(j, first) && TurnsBelow(j, first, 4 * l + 1)
    requires Grown(j, first, sends, KSend, l) && Grown(j, sends, recvs, KRecv, l) && Grown(j, recvs, keys, KZero, l)
    ensures InTurn(j, keys)
  {
    NoDupFront(sends, keys);
    NoDupFront(recvs, keys);
    LaterTurn(j, first, sends, 4 * l + 1);
    LaterTurn(j, sends, recvs, 4 * l + 2);
    LaterTurn(j, recvs, keys, 4 * l + 3);
  }

  lemma NoDupFront<T>(s: seq<T>, t: seq<T>)
    requires s <= t && NoDup(t)
    ensures NoDup(s)
  {
  }

  lemma InnerKeys(j: Job, l: nat, keys0: seq<Key>, calcs: seq<Key>, sends: seq<Key>, recvs: seq<Key>, keys: seq<Key>)
    requires Closed(j) && 0 < l < |j.levels| - 1
    requires Grown(j, keys0, calcs, KCalc, l) && Grown(j, calcs, sends, KSend, l)
    requires Grown(j, sends, recvs, KRecv, l) && Grown(j, recvs, keys, KZero, l)
    ensures forall key {:trigger key in keys} ::
              key in keys <==> key in keys0 || (Present(j, key) && StageOf(j, key) == l)
  {
    forall key ensures key in keys <==> key in keys0 || (Present(j, key) && StageOf(j, key) == l) {
      assert key in keys <==> key in recvs || (InGroup(key, KZero, l) && Present(j, key));
    }
  }

  ghost predicate LevelsFit(g: Graph, levels: seq<seq<int>>) {
    && |levels| >= 2
    && (forall l, i :: 0 <= l < |levels| && 0 <= i < |levels[l]| ==> levels[l][i] in g)
    && (forall l :: 0 <= l < |levels| ==> NoDup(levels[l]))
    && (forall i :: 0 <= i < |levels[0]| ==> levels[0][i] >= 0)
  }

  lemma LevelingFits(g: Graph, levels: seq<seq<int>>, level: map<int, nat>)
    requires Leveling(g, levels, level)
    requires exists v :: v in g && g[v].children != []
    requires forall v :: v in g && g[v].children == [] ==> v >= 0
    ensures LevelsFit(g, levels)
  {
    forall l, i | 0 <= l < |levels| && 0 <= i < |levels[l]|
      ensures levels[l][i] in g && (l == 0 ==> levels[l][i] >= 0)
    {
      var v := levels[l][i];
      assert v in levels[l] && v in level && OneAbove(g, level, v);
    }
    var v :| v in g && g[v].children != [];
    assert OneAbove(g, level, v);
  }

  lemma SomeRemote(j: Job, v: int)
    requires Closed(j) && v in j.g
    ensures Remote(j, v) != [] <==> exists c :: c in Users(j, v) && c != j.col[v]
  {
    if Remote(j, v) != [] { assert Remote(j, v)[0] in Remote(j, v); }
  }
}
