// What a repaired stripe holds, for the two codes whose decoders are modelled.
module Blocks {
  import opened Util
  import opened GF
  import opened Dag
  import opened EcDag
  import opened Decoding
  import opened Tasks
  import N = Network
  import opened Programs
  import opened Sites
  import opened Execution
  import opened Recovery
  import P = Planes
  import I = ClayIndex
  import K = ClayCode
  import J = ClayJoin
  import R = ClayRepair
  import L = HHLayout
  import H = HHCode

  // ----------------------------------------------------------- Clay codes

  // One packet of a stripe of a Clay code: the helpers hold what the word
  // gives them, and the shortened nodes stand for zeros.
  ghost predicate ClayPacket(cd: K.Code, r: R.Repair, disk: int -> Byte, word: int -> Byte)
    requires R.RepairOk(r) && cd.g == r.g
  {
    && K.Word(cd, word)
    && forall s {:trigger s in R.Read(r)} :: s in R.Read(r) ==>
         word(I.Ix(r.g, s)) == if R.Stores(r, s.node) then disk(I.Ix(r.g, s)) else 0
  }

  // The symbols leave room for the indices of the roots.
  predicate ClayRoom(g: I.Geo) { 2 * I.Half(g) + g.n <= REQUESTOR + 1 }

  // A coupled symbol lies in the block of its node.
  lemma SymInBlock(g: I.Geo, s: I.Sym)
    requires I.GeoOk(g) && I.SymOk(g, s) && s.C?
    ensures I.Ix(g, s) == I.RealNode(g, s.node) * I.SubChunks(g) + s.z
    ensures I.Ix(g, s) / I.SubChunks(g) == I.RealNode(g, s.node)
  {
    I.ShortRange(g, s);
    P.DivMod(I.RealNode(g, s.node), s.z, I.SubChunks(g));
  }

  lemma ClayIndexBelow(g: I.Geo, ss: set<I.Sym>, v: int)
    requires I.GeoOk(g) && v in K.Ixs(g, ss)
    ensures v < 2 * I.Half(g)
  {
    var s :| s in ss && I.SymOk(g, s) && I.Canon(g, s) == s && I.Ix(g, s) == v;
    I.ShortRange(g, s);
  }

  lemma ClayBelowRoots(g: I.Geo, known: set<I.Sym>, done: set<I.Sym>, start: Graph)
    requires I.GeoOk(g) && ClayRoom(g)
    requires forall v :: v in start ==> v in K.Ixs(g, known) || v in K.Ixs(g, done)
    ensures BelowRoots(start, g.n)
  {
    forall v | v in start ensures v < 2 * I.Half(g) {
      if v in K.Ixs(g, known) { ClayIndexBelow(g, known, v); } else { ClayIndexBelow(g, done, v); }
    }
  }

  lemma LostChunk(g: I.Geo, lost: int, done: set<I.Sym>, b: int, w: nat)
    requires I.GeoOk(g) && I.NodeOk(g, lost) && b == I.RealNode(g, lost) && w == I.SubChunks(g)
    requires forall z :: I.PlaneOk(g, z) ==> I.C(lost, z) in done
    ensures forall v :: v in Chunk(b, w) ==> v in K.Ixs(g, done)
  {
    var list := Chunk(b, w);
    forall v | v in list ensures v in K.Ixs(g, done) {
      var z :| 0 <= z < |list| && list[z] == v;
      SymInBlock(g, I.C(lost, z));
      K.IxIn(g, done, I.C(lost, z));
    }
  }

  lemma ClayStored(cd: K.Code, r: R.Repair, j: Job, disk: int -> Byte, word: int -> Byte)
    requires R.RepairOk(r) && cd.g == r.g && ClayPacket(cd, r, disk, word)
    requires j.n == r.g.n && j.w == I.SubChunks(r.g) && j.w > 0
    ensures PacketStored(j, disk, K.WordsOf(cd), K.Ixs(r.g, R.Read(r)), word)
  {
    forall v | v in K.Ixs(r.g, R.Read(r)) && v in j.g ensures LeafOf(j, disk)(v) == word(v) {
      var s :| s in R.Read(r) && I.SymOk(r.g, s) && I.Ix(r.g, s) == v;
      SymInBlock(r.g, s);
    }
  }

  // One block of a Clay stripe is lost. RepairOneLostChunk builds the DAG from
  // q^(t-1) sub-chunks of each helper, PrepareRepair adds its root, any plan
  // and any run of it follow: in the end the lost block is written, every
  // sub-chunk of every packet as in the word that was stored.
  lemma ClayBlockComesBack(cd: K.Code, r: R.Repair, done: set<I.Sym>, start: Graph, joins: multiset<int>, j: Job,
                           level: map<int, nat>, keys: seq<Key>, net: N.Net, word: nat -> int -> Byte,
                           ss: seq<N.State>, who: seq<nat>)
    requires K.CodeOk(cd) && net.f == cd.f && R.RepairOk(r) && cd.g == r.g && ClayRoom(r.g)
    requires K.Decoded(cd, R.Read(r), done, start, joins) && Linked(start)
    requires forall z :: I.PlaneOk(r.g, z) ==> I.C(r.lost, z) in done
    requires j.n == r.g.n && j.w == I.SubChunks(r.g) && forall p: nat :: ClayPacket(cd, r, net.disk(p), word(p))
    requires Repairs(net, start, j, level, keys, I.RealNode(r.g, r.lost), ss, who)
    ensures |ss| > |who| && BlockWritten(net, j, keys, ss[|who|], I.RealNode(r.g, r.lost), word)
  {
    var b := I.RealNode(r.g, r.lost);
    I.PlanesPos(r.g);
    ClayBelowRoots(r.g, R.Read(r), done, start);
    LostChunk(r.g, r.lost, done, b, j.w);
    forall p: nat ensures PacketStored(j, net.disk(p), K.WordsOf(cd), K.Ixs(r.g, R.Read(r)), word(p)) {
      ClayStored(cd, r, j, net.disk(p), word(p));
    }
    BlockComesBack(net, K.WordsOf(cd), K.Ixs(r.g, R.Read(r)), K.Ixs(r.g, done), start, joins, j, level, keys, word, ss, who, b);
  }

  // The DAG of that repair as the two methods build it, one after the other.
  method ClayRepairDag(clay: J.Clay, dag: ECDAG, r: R.Repair)
    returns (ghost done: set<I.Sym>, ghost start: Graph, ghost joins: multiset<int>)
    requires R.RepairOk(r) && clay.code.g == r.g && clay.Valid() && J.Solvable(clay.code, R.Erasures(r))
    requires dag.Valid() && dag.nodes == map[] && dag.joins == multiset{}
    requires ClayRoom(r.g) && R.Stores(r, r.lost)
    modifies dag
    ensures dag.Valid() && K.Decoded(clay.code, R.Read(r), done, start, joins) && Linked(start)
    ensures forall z :: I.PlaneOk(r.g, z) ==> I.C(r.lost, z) in done
    ensures RepairDag(start, dag.nodes, [I.RealNode(r.g, r.lost)], I.SubChunks(r.g))
  {
    done := R.RepairOneLostChunk(clay, dag, r);
    start, joins := dag.nodes, dag.joins;
    var b, w := I.RealNode(r.g, r.lost), I.SubChunks(r.g);
    var to := Chunks([b], w);
    I.PlanesPos(r.g);
    ClayBelowRoots(r.g, R.Read(r), done, start);
    OneChunk(b, w);
    LostChunk(r.g, r.lost, done, b, w);
    PrepareRepair(dag, to, [b], r.g.n, w);
  }

  lemma OneChunk(b: int, w: nat)
    ensures Chunks([b], w) == Chunk(b, w)
  {
    assert [b][..0] == [];
    assert Chunks([b], w) == [] + Chunk(b, w);
  }

  // -------------------------------------------------- Hitchhiker-XOR+ codes

  ghost predicate HhPacket(f: Field, h: L.Hh, failed: nat, disk: int -> Byte, word: int -> Byte)
    requires L.HhOk(h)
  {
    && H.Word(f, h, word)
    && forall s :: H.IsNeeded(h, failed, s) ==> word(L.Ix(h, s)) == disk(L.Ix(h, s))
  }

  // One instance, and room for the indices of the roots.
  predicate HhRoom(h: L.Hh) { L.HhOk(h) && h.ins == 1 && L.Base(h) + L.Additional(h) + h.n <= REQUESTOR + 1 }

  lemma HhInBlock(h: L.Hh, sp: int, node: int)
    requires HhRoom(h) && 0 <= sp < 2
    ensures L.Ix(h, L.D(sp, node)) == node * 2 + sp && L.Ix(h, L.D(sp, node)) / 2 == node
  {
  }

  lemma HhIndexBelow(h: L.Hh, ss: set<L.Sym>, v: int)
    requires HhRoom(h) && v in H.Ixs(h, ss)
    ensures v < L.Base(h) + L.Additional(h)
  {
    var s :| s in ss && L.SymOk(h, s) && L.Ix(h, s) == v;
    if s.D? { L.LayoutBelow(h, s.sp, s.node); }
  }

  lemma HhBelowRoots(h: L.Hh, known: set<L.Sym>, done: set<L.Sym>, start: Graph)
    requires HhRoom(h) && forall v :: v in start ==> v in H.Ixs(h, known) || v in H.Ixs(h, done)
    ensures BelowRoots(start, h.n)
  {
    forall v | v in start ensures v < L.Base(h) + L.Additional(h) {
      if v in H.Ixs(h, known) { HhIndexBelow(h, known, v); } else { HhIndexBelow(h, done, v); }
    }
  }

  lemma HhStored(f: Field, h: L.Hh, failed: nat, j: Job, disk: int -> Byte, word: int -> Byte)
    requires HhRoom(h) && HhPacket(f, h, failed, disk, word) && j.n == h.n && j.w == 2
    ensures PacketStored(j, disk, H.WordsOf(f, h), H.Ixs(h, H.Needed(h, failed)), word)
  {
    forall v | v in H.Ixs(h, H.Needed(h, failed)) && v in j.g ensures LeafOf(j, disk)(v) == word(v) {
      var s :| s in H.Needed(h, failed) && L.SymOk(h, s) && L.Ix(h, s) == v;
      HhInBlock(h, s.sp, s.node);
    }
  }

  lemma HhLost(h: L.Hh, failed: nat, done: set<L.Sym>)
    requires HhRoom(h) && failed < h.k && L.D(0, failed) in done && L.D(1, failed) in done
    ensures forall v :: v in Chunk(failed, 2) ==> v in H.Ixs(h, done)
  {
    forall v | v in Chunk(failed, 2) ensures v in H.Ixs(h, done) {
      var sp :| 0 <= sp < 2 && Chunk(failed, 2)[sp] == v;
      HhInBlock(h, sp, failed);
      H.IxIn(h, done, L.D(sp, failed));
    }
  }

  // The same for a lost data block of a Hitchhiker-XOR+ stripe, repaired by
  // DecodeSingle from the symbols it needs and no others.
  lemma HhBlockComesBack(f: Field, h: L.Hh, failed: nat, done: set<L.Sym>, start: Graph, joins: multiset<int>, j: Job,
                         level: map<int, nat>, keys: seq<Key>, net: N.Net, word: nat -> int -> Byte,
                         ss: seq<N.State>, who: seq<nat>)
    requires IsField(f) && net.f == f && HhRoom(h) && failed < h.k
    requires H.Decoded(f, h, H.Needed(h, failed), done, start, joins) && Linked(start)
    requires L.D(0, failed) in done && L.D(1, failed) in done
    requires j.n == h.n && j.w == 2 && forall p: nat :: HhPacket(f, h, failed, net.disk(p), word(p))
    requires Repairs(net, start, j, level, keys, failed, ss, who)
    ensures |ss| > |who| && BlockWritten(net, j, keys, ss[|who|], failed, word)
  {
    HhBelowRoots(h, H.Needed(h, failed), done, start);
    HhLost(h, failed, done);
    forall p: nat ensures PacketStored(j, net.disk(p), H.WordsOf(f, h), H.Ixs(h, H.Needed(h, failed)), word(p)) {
      HhStored(f, h, failed, j, net.disk(p), word(p));
    }
    BlockComesBack(net, H.WordsOf(f, h), H.Ixs(h, H.Needed(h, failed)), H.Ixs(h, done), start, joins, j, level, keys, word, ss, who, failed);
  }
}
