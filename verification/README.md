# Parallel repair of erasure-coded stripes: a verified model

The repository plans and runs the repair of erasure-coded stripes. A coding
scheme describes a repair as a DAG of linear combinations (`ECDAG`); the
controller colours the vertices with nodes, compiles the coloured DAG into
read, send, receive, compute and persist tasks, and every node runs one thread
per task over first-in first-out queues. This project models that pipeline and
what surrounds it, and proves it against independent definitions.

`dafny verify dfyconfig.toml` checks everything.

## Modules

| file | what it models |
|---|---|
| `Util.dfy`, `GF.dfy` | facts about lists and sets; the field the codes compute in, as a parameter with its laws |
| `Dag.dfy`, `Join.dfy`, `ECDAG.dfy`, `Topo.dfy` | the DAG, what `Join` does to it, its meaning, the class `ECDAG` with its leveling and its topological order |
| `Tasks.dfy`, `Stripe.dfy` | the plan a coloured DAG calls for, and the class that builds it loop by loop as the source does |
| `Traffic.dfy`, `Totals.dfy` | what a colouring makes every node send and receive: full count, hand-written updates, and the generated tasks against both |
| `Network.dfy`, `Programs.dfy`, `Wiring.dfy`, `Sites.dfy`, `Execution.dfy`, `Deadlock.dfy`, `DataMaps.dfy` | the worker threads of all nodes as one step machine; each task as a line of queue operations; correctness, progress, and when progress fails; the queues a node creates |
| `Planes.dfy`, `PlaneCount.dfy`, `ClayIndex.dfy`, `Matrix.dfy`, `TwoLost.dfy` | Clay codes: base-q planes, index maps, coding matrices, and which two lost nodes they bear |
| `Clay.dfy`, `ClayJoin.dfy`, `ClayLayered.dfy`, `ClayDecode.dfy`, `ClayEncode.dfy`, `ClayWord.dfy`, `ClayRepair.dfy` | Clay codes: pairs, layered decoding of m erasures, encoding, repair of one node |
| `Trace.dfy`, `TraceRun.dfy`, `Greedy.dfy` | repair strategies over failure traces, whole runs, and the choice of nodes |
| `Pipe.dfy` | the RSPIPE chain against the RSCONV combination |
| `Patch.dfy`, `HHLayout.dfy`, `HHXOR.dfy`, `HHSingle.dfy`, `HHRepair.dfy`, `HHWords.dfy` | Hitchhiker-XOR+: symbol tables, code words, encoding, repair of one data node, and the inverses it needs |
| `Curve.dfy` | the trade-off curve between load and bandwidth: the linked list, one update, the search |
| `Codec.dfy`, `Wire.dfy` | task commands and compute items: writing and reading them, and what stands at which octet |
| `Decoding.dfy` | what every decoder does with the DAG, for all words of a code at once; shared by Clay, Hitchhiker-XOR+ and the chains |
| `Recovery.dfy`, `Blocks.dfy` | from the DAG of a code to the files that are written: roots of the lost blocks, dangling roots, and the theorem about the whole repair of a stripe |
| `Smallest.dfy`, `Failures.dfy` | a smallest repair that meets all conditions; an input for every failure named below |

Two classes named `Stripe` (in `StripeTasks` and in `StripeTraffic`) model the
compiler and the accounting of the one source class; `IndexMaps` and `Clay`
together model the source class `Clay`. A blocking thread cannot be a Dafny
method, so the worker functions are lines of operations (`Programs.dfy`) that
the step machine of `Network.dfy` executes one at a time, in any order the
scheduler likes.

## What the theorems assume

- **Field.** `IsField` states the laws of a field of characteristic 2 on the
  bytes 0..255. Jerasure's inversion is a function `invert` with the one
  hypothesis `Inverts`: whatever has an inverse, it inverts.
- **Coloured DAG.** `Sites.Compilable`: every vertex has a colour; the last
  level holds only roots and their colours are nodes; the leaves of an
  existing block share one colour, those of a missing block have none; a vertex
  without a node has only such children; the roots list no child twice; other
  indices lie in 0..32766, where the queue keys do not collide.
  `Sites.SharedOk`: the uses of a vertex on one node lie on one level (and for
  at most one root). `Planned` is both. `CompletesIffShared` shows that the
  second condition is exactly what a completed repair needs.
- **Code word.** `ClayCode.Word`: the coupled and uncoupled symbols satisfy the
  pairwise rows (1,0), (0,1), (1,1), (1,2) and, in every plane, the parity rows.
  `Solvable`: the MDS rows of the survivors have an inverse. For two parity
  nodes this is proved, with its exact condition (`TwoLost.SolvableTwo`).
- **Traces.** `UniqueIds`: stripe identifiers are unique (the source keeps the
  last stripe of an identifier in its maps).
- **Hitchhiker-XOR+.** `HhOk` are the conditions the constructor checks;
  `HHCode.Word` are the equations of the code, and `WordExists` shows that every
  choice of data meets them. Nothing about invertibility is assumed beyond
  `Inverts`: `FirstInverts` and `GroupInverts` prove it.
- **Trade-off curve.** The load and the bandwidth of a colouring are a function
  of the colouring (`StripeTraffic.Stripe.EvaluateColoring`); the random first
  colouring is a parameter.
- **Commands.** Integers are 32 bits wide. Names fit into the buffer after one
  doubling of what it has grown to (`Codec.Sendable`).
- **Reed-Solomon.** The decoders hand k to the inversion as the field width, so
  the inverter is a function of matrix and width of which only the shape of its
  result is assumed; `Pipe.RightIff` and `LostComesBack` say what follows.
- **Whole repairs.** `Recovery.Repairs` is a plan, its programs and a run to its
  end; `Stored`, `ClayPacket` and `HhPacket` say that the disks hold a word of
  the code. `ClayRoom` and `HhRoom`: indices of symbols stay below those of the
  roots.

## Where the code differs from what one would expect

- `changeColor` and `evaluateChange` are wrong for some calls. The exact
  condition on the call is `StripeTraffic.Exact`; `ChangeColor` proves that the
  counters afterwards are those of a full recount if and only if it holds, and
  `InexactMiscounts` names a wrong counter when it does not. `EvaluateChange`
  has the same condition, and `SomeChangeMiscounts` is a call that misses it.
- A local value is pushed once per packet and popped once by every task that
  uses it, so a node that needs a vertex on two levels never finishes
  (`TwoLevelsNeverComplete`; `SomeRepairIsStuck` is such a job).
- Only the last level gets tasks that write, so of several lost blocks those
  with a root on a lower level are never written (`Recovery.BlocksComeBack`,
  both directions; `SomeBlockIsNotWritten` is such a job). With one lost block
  this cannot happen (`Recovery.OnlyRoot`).
- `Join` on an index that exists adds no edge but still creates the children
  and takes them out of the list of roots; `ECDAG.Join` models this.
- Reed-Solomon decoders pass the number of data blocks as the field width of
  the inversion. What comes back is right for all data exactly when the
  coefficients undo the rows of the survivors in the field of the code
  (`Pipe.RightIff`). For one data block, the chain joins nothing
  (`Pipe.DecodePipe`, both directions).
- `updateTradeoffCurve` puts a solution with the load and the bandwidth of an
  entry beside that entry, so the list is strict only without such ties
  (`UpdateIsFront`, both directions); the search rules them out with its maps.
  `SomeUpdateTies` is such a tie.
  The returned flag is true for some solutions that are not inserted.
- `Clay::Encode` treats only pairs of two parity nodes. When d is chosen so
  that n - k is not a multiple of q = d - k + 1, a group holds data and parity
  nodes, and the first Join of the second pass names an uncoupled symbol that is
  not there yet and stays a leaf for ever (`ClayEncode.Encode`, both directions;
  `SomeGroupIsSplit`). All callers pass d = n - 1, where this does not happen.
  Such a code has code words all the same (`ClayWord.WordExists`), and the
  decoders are right for them.
- The command buffer is doubled once when a string does not fit; `WriteString`
  requires that one doubling is enough. A name with a zero octet arrives cut
  (`ArrivesIntact`, both directions; `SomeCommandIsCut`).

## Model

| member | source | states |
|---|---|---|
| `Join.JoinKeeps` | src/ec/ECDAG.cc:22-93 | whatever is joined, a vertex that exists keeps its children and coefficients for ever (a leaf never becomes an inner vertex); exactly the given parent and children are added; a parent that was unknown gets exactly the given lists |
| `Join.EveryBuildIsSound` | src/ec/ECDAG.cc:22-93 | for every sequence of calls, with repeated, unknown or self-referring indices, the graph is acyclic and each parent list mirrors the child lists with multiplicity |
| `Join.JoinSound` | src/ec/ECDAG.cc:22-93 | an assignment of values that satisfies every inner vertex still does after a Join, provided the new identity holds or the call is one that adds no edge |
| `Join.SoundIsEvaluation` | src/ec/ECDAG.cc:22-93 | an assignment that satisfies every Join is exactly what evaluating the DAG from its leaves gives |
| `Dag.EvaluationExists` | src/ec/ECNode.cc:38-110 | an acyclic coefficient DAG has a central evaluation |
| `Dag.EvaluationUnique` | src/ec/ECNode.cc:38-110 | and only one: two evaluations from the same leaves agree on every vertex |
| `EcDag.ECDAG.TakeChildren` | src/ec/ECDAG.cc:36-66 | step 0 of Join: unknown children become leaves, known ones leave the list of roots |
| `EcDag.ECDAG.LinkParent` | src/ec/ECDAG.cc:86-89 | step 1 of Join: one parent entry per listed child |
| `EcDag.ECDAG.Join` | src/ec/ECDAG.cc:22-93 | the imperative update equals the function JoinGraph, even when the parent exists; roots and leaves change exactly as stated; the class invariant (acyclic, mirrored lists, roots have no parents, leaves no children) is kept |
| `EcDag.ECDAG.AddRoot` | src/ec/ECDAG.cc:117-128 | one root of Concact: nothing is lost, an empty block adds nothing, an unused root gets exactly the block |
| `EcDag.ECDAG.Concact` | src/ec/ECDAG.cc:104-129 | when the root indices are unused, root b ends up over exactly the sub-packets of block b, in the given order; blocks without any get no root; the list of concacts grows by the new roots in block order, each joined once, and nothing is added but them and the listed sub-packets |
| `TopoOrder.GenTopoIdxs` | src/ec/ECDAG.cc:2297-2347 | every vertex that is neither a leaf nor a root made by Concact is listed exactly once, and after all of its children that are listed |
| `EcDag.ECDAG.GenLeveledTopologicalSorting` | src/ec/ECDAG.cc:2178-2241 | terminates and lists every vertex exactly once, under the level that is one above its highest child; no level is empty |
| `EcDag.ECDAG.RemoveLevel` | src/ec/ECDAG.cc:2209-2234 | after a level is taken out, every counter is again the number of children that wait |
| `EcDag.LevelUnique` | src/ec/ECDAG.cc:2178-2241 | the level of a vertex does not depend on the order in which maps are walked |
| `Tasks.DistinctColors` | src/common/Stripe.cc:1044-1052 | the std::find loop yields the distinct colours in order of first occurrence |
| `Tasks.FirstComeFirst` | src/common/Stripe.cc:1044-1052 | of two listed colours the first is the one that occurs first |
| `StripeTasks.AppendToAll` | src/common/Stripe.cc:1097-1105 | one vertex is appended to the list of each given node and to no other |
| `StripeTasks.Stripe.UsageOf` | src/common/Stripe.cc:1059-1072 | the usage pair: used on its own node, used on another node |
| `StripeTasks.Stripe.PlanVertex` | src/common/Stripe.cc:1019-1106 | what is remembered about one vertex: usage, senders and receivers |
| `StripeTasks.Stripe.EmitSends` | src/common/Stripe.cc:1178-1199 | one send task per sending node, listing exactly its sent vertices with their distinct remote destinations |
| `StripeTasks.Stripe.EmitRecvs` | src/common/Stripe.cc:1201-1216 | one receive task per receiving node |
| `StripeTasks.Stripe.EmitZeros` | src/common/Stripe.cc:1276-1293 | one zero-read task per node that needs known zeros |
| `StripeTasks.Stripe.EmitReads` | src/common/Stripe.cc:1151-1176 | one read task per real block, over its sorted leaves, with their usage, on the node of the block |
| `StripeTasks.Stripe.EmitComputes` | src/common/Stripe.cc:1411-1436 | one compute task per node and level |
| `StripeTasks.Stripe.GenLevel0` | src/common/Stripe.cc:971-1294 | level 0 adds exactly its read, zero, send and receive tasks, once each |
| `StripeTasks.Stripe.GenIntermediateLevels` | src/common/Stripe.cc:1296-1550 | an inner level adds exactly its zero, compute, send and receive tasks, once each |
| `StripeTasks.Stripe.GenLastLevel` | src/common/Stripe.cc:1552-1576 | the last level adds one persist task per root, over the root's children in order, filed under the block of the root, and nothing else; it comes after everything that was generated before |
| `StripeTasks.Stripe.GenRepairTasks` | src/common/Stripe.cc:917-969 | a vertex whose colour is a failed node gets the node that replaces it, and every other vertex keeps its colour; the task map of a fresh stripe holds every task of the plan of the leveled, recoloured DAG exactly once, on the node it is for, and no other, generated level by level and on each level makers, senders, receivers, zeros |
| `StripeTasks.Stripe.PlacesAre` | src/common/Stripe.cc:926-932 | put to use: when no replacement is itself a failed node, no task is left on a failed node; and every root of the last level is filed by its own node under the number of its block |
| `StripeTasks.PersistNames` | src/common/Stripe.cc:1562-1571 | the task of the root of block b writes block b, over the children of the root in order, on the node of the root |
| `StripeTasks.ReadNames` | src/common/Stripe.cc:1151-1176 | the read task of block b names block b and lists exactly the leaves of that block, once each, in increasing order |
| `StripeTasks.LevelingFits` | src/common/Stripe.cc:917-969 | a leveling of a DAG with an edge has at least two levels and only leaves on level 0 |
| `Programs.ReadOpsFacts` | src/common/Worker.cc:532-665 | the line of a read pushes exactly one copy per use, under keys that cannot collide, and pops nothing |
| `Programs.ZeroOpsFacts` | src/common/Worker.cc:667-710 | the line of a zero read pushes one zero packet per listed vertex |
| `Programs.SendOpsFacts` | src/common/Worker.cc:712-861 | the line of a send pops each cached vertex once and pushes it to exactly its destinations |
| `Programs.RecvOpsFacts` | src/common/Worker.cc:1209-1286 | the line of a receive moves each listed vertex from the wire to its local queue |
| `Programs.ComputeOpsFacts` | src/common/Worker.cc:1288-1472 | the line of a compute pops each distinct input once, whatever the number of items that use it, and publishes each result per use |
| `Programs.PersistOpsFacts` | src/common/Worker.cc:1742-1797 | the line of a persist pops each collected vertex once |
| `Programs.PersistEmits` | src/common/Worker.cc:1742-1797 | per packet, the file gets the values of the collected vertices in list order |
| `Programs.KeysApart` | src/common/Worker.cc:363-371 | within index range, local keys and cache keys never collide and the key tells the vertex (KEY0 stands for the cache of 0) |
| `DataMaps.DataMap.CreateQueue` | src/common/Worker.hh:87-92 | a new key gets an empty queue, a known key keeps its queue |
| `DataMaps.DataMap.PrepareDataMap` | src/common/Worker.cc:342-413 | exactly the keys of the task are added |
| `DataMaps.PrepareStripe` | src/common/Worker.cc:130-147 | all queues of the node's tasks exist, empty, before a thread starts |
| `DataMaps.TaskMakesWhatItPushes` | src/common/Worker.cc:342-413 | for every task, the queues created for it are exactly the local queues its thread pushes to |
| `DataMaps.StartIsPrepared` | src/common/Worker.cc:121-175 | the local queues the machine starts with are exactly the prepared ones, node by node |
| `DataMaps.EveryQueueExists` | src/common/Worker.cc:342-413 | no thread of a planned repair ever pushes to or pops from a local queue that its node did not create |
| `Network.InitInv` | src/util/BlockingQueue.hh:12-32 | the start state satisfies the invariant |
| `Network.StepInv` | src/util/BlockingQueue.hh:12-32 | every step of every thread keeps it: each queue holds, in order, the values pushed but not yet popped, each thread's buffers and output hold the right values |
| `Network.NoDeadlock` | src/common/Worker.cc:415-530 | in every state that satisfies the invariant, if a thread is unfinished some thread can step |
| `Network.RunsAreBounded` | src/common/Worker.cc:415-530 | no run is longer than the work there was |
| `Network.StuckMeansDone` | src/common/Worker.cc:415-530 | a run that cannot go on has finished all threads, drained all queues and written all output |
| `Sites.Site` | src/common/Stripe.cc:971-1576 | each generated task fills exactly the queues whose source it is and, when no node uses a vertex on two levels, drains exactly those whose destination it is |
| `Sites.PhasesRise` | src/common/Stripe.cc:971-1576 | a queue is drained by a task of a later phase than the one that fills it |
| `Execution.QueuesAre` | src/common/Stripe.cc:971-1576 | the queues pushed by the generated tasks are exactly those the coloured DAG needs |
| `Execution.RepairIsConnected` | src/common/Worker.cc:415-530 | the generated tasks of any planned job form a network in which every queue has one filling and one draining place and every operation means its central value |
| `Execution.ColorlessIsZero` | src/common/Stripe.cc:1218-1293 | a vertex without a node is zero in every packet |
| `Execution.RepairIsCorrect` | src/common/Stripe.cc:917-1576 | for any number of nodes, levels and packets and any interleaving: a run is bounded by the work, and when nothing can move, every thread is finished, every queue empty, and the file of every root holds, packet by packet, the values central evaluation gives the root's children in order |
| `Execution.RepairedAt` | src/common/Worker.cc:1742-1797 | byte p * w + i of such a file is the value of child i in packet p, and the file ends after the last packet |
| `Execution.RepairNeverDeadlocks` | src/common/Worker.cc:415-530 | after any prefix of any run, an unfinished repair has a thread that can step |
| `Deadlock.RunBalance` | src/util/BlockingQueue.hh:12-32 | in every state of every run, a queue holds as many packets as were pushed minus popped |
| `Deadlock.TwoLevelsNeverComplete` | src/common/Worker.cc:1288-1472 | if one node uses a vertex on two levels (or for two roots), no run of the repair completes, whatever the scheduler does |
| `Deadlock.CompletesIffShared` | src/common/Worker.cc:1288-1472 | a run that cannot go on has completed if and only if no node uses a vertex on two levels |
| `StripeTraffic.Stripe.EvaluateColoring` | src/common/Stripe.cc:712-778 | the counters are those of the set of transfers of the colouring: per node in and out, their total, and the largest |
| `StripeTraffic.Stripe.ChangeColor` | src/common/Stripe.cc:193-328 | the hand-written update leaves all four fields as a full recount would if and only if the call meets the condition Exact; counters never go negative |
| `StripeTraffic.AfterIsTransfers` | src/common/Stripe.cc:193-328 | under the condition, the transfers counted by hand are those of the new colouring |
| `StripeTraffic.InexactMiscounts` | src/common/Stripe.cc:298-307 | a call that does not meet the condition leaves a wrong counter at some node |
| `StripeTraffic.Stripe.ChangeColors` | src/common/Stripe.cc:193-328 | any number of updates, each to a node other than the present one, keeps the fields equal to a full recount |
| `StripeTraffic.Stripe.EvalColoringGlobal` | src/common/Stripe.cc:880-915 | every row of the shared table grows by exactly what evaluateColoring counts for this stripe |
| `StripeTraffic.Stripe.EvaluateChange` | src/common/Stripe.cc:456-573 | the table for a change that is not made is that of a full recount after the change if and only if the call meets the condition Exact; the stripe is not touched |
| `StripeTraffic.InIsConserved` | src/common/Stripe.cc:712-778 | what all nodes receive adds up to the bandwidth |
| `StripeTraffic.OutIsConserved` | src/common/Stripe.cc:712-778 | and so does what all nodes send |
| `Totals.SendsMatchRecvs` | src/common/Stripe.cc:1019-1106 | a send of a vertex to a node is planned if and only if that node has a receive of it, on the same level; nobody else sends it |
| `Totals.MessagesAreCounted` | src/common/Stripe.cc:1019-1106 | the generated tasks of every node send exactly _out and receive exactly _in messages per packet |
| `Planes.PowInt` | src/ec/Clay.cc:132-141 | square and multiply computes the power |
| `Planes.GetPlaneVector` | src/ec/Clay.cc:187-193 | the loop computes the base-q digits of z |
| `Planes.VecNum` | src/ec/Clay.cc:187-193 | digits to plane to digits is the identity |
| `Planes.NumVec` | src/ec/Clay.cc:187-193 | plane to digits to plane is the identity |
| `Planes.VecAt` | src/ec/Clay.cc:187-193 | digit i is z / q^(t-1-i) mod q: the first counts most |
| `Planes.SwapIs` | src/ec/Clay.cc:301-363 | z + (x - z_y) * q^(t-1-y) is the plane that agrees with z except for digit x in group y |
| `Planes.SwapFacts` | src/ec/Clay.cc:301-363 | it is a plane, changes only that digit, moves down exactly when the digit gets smaller, and swapping back restores z |
| `Planes.GetRepairSubchunks` | src/ec/Clay.cc:1753-1764 | the loop yields the runs that RepairPlanes is about |
| `Planes.RepairPlanes` | src/ec/Clay.cc:1753-1764 | the runs list exactly the planes whose digit in the lost node's group is the lost node, once each, increasing, q^(t-1) of them |
| `PlaneCount.GetRepairSubChunkCount` | src/ec/Clay.cc:1766-1778 | the product formula is the number of planes in which at least one of the given nodes is unpaired |
| `ClayIndex.IndexMaps.constructor` | src/ec/Clay.cc:16-130 | the parameters and both index maps as the constructor fills them |
| `ClayIndex.IndexMaps.IndexOf` | src/ec/Clay.cc:301-363 | the index a symbol has in the DAG |
| `ClayIndex.IndexMaps.GetRealFromShort` | src/ec/Clay.cc:2257-2262 | the real index of every symbol; an index that is in no map stands for itself |
| `ClayIndex.IndexMaps.RoundTrip` | src/ec/Clay.cc:2257-2269 | from short to real and back is the index one started from, for every symbol of the code |
| `ClayIndex.IxApart` | src/ec/Clay.cc:16-130 | two symbols share an index exactly when they are the same symbol after folding unpaired ones |
| `ClayIndex.StoredInOrder` | src/ec/Clay.cc:16-130 | the nodes that store something take the blocks 0 to n - 1 in their own order, the shortened ones come behind all of them |
| `Matrix.GenerateMatrix` | src/ec/Clay.cc:2208-2231 | identity on top; below, every row starts with 1 and each entry is the one before it times 1, 2, 3, ... by row |
| `TwoLost.TwoDataLost` | src/ec/Clay.cc:2208-2231 | the rows of the surviving data nodes and of the first two parity nodes make up for two lost data nodes if and only if the powers of 2 at the two differ |
| `TwoLost.SolvableTwo` | src/ec/Clay.cc:2208-2231 | with two parity nodes, any two erased nodes can be recovered but for two data nodes at which the powers of 2 are the same |
| `Matrix.Associate` | src/ec/Clay.cc:1394-1560 | (row times matrix) applied to a vector equals row applied to (matrix applied to the vector) |
| `Matrix.Recover` | src/ec/Clay.cc:1394-1560 | a code symbol is the given combination of any symbols whose rows have an inverse |
| `Matrix.PairInverse` | src/ec/Clay.cc:1020-1392 | each pair of pairwise rows that the code solves is invertible in every field of characteristic 2 |
| `Matrix.PairRows` | src/ec/Clay.cc:365-450 | the pairwise matrix is (1,0),(0,1),(1,1),(1,2) |
| `ClayCode.Mates` | src/ec/Clay.cc:301-363 | being companions is mutual and swaps node and digit |
| `ClayCode.PairEquations` | src/ec/Clay.cc:365-450 | in numbers: node y * q + x in plane z and node y * q + d in plane z + (x - d) * q^(t-1-y), d < x being digit y of z, have the sum of their coupled symbols, and the sum of the first and twice the second, as uncoupled symbols |
| `ClayCode.PairIdentity` | src/ec/Clay.cc:365-450 | in every code word, two symbols of a pair give the third with the computed coefficients |
| `ClayJoin.PlaneIdentity` | src/ec/Clay.cc:1394-1560 | in every code word, an uncoupled symbol is the computed combination of those of the survivors of its plane |
| `ClayJoin.EnoughSurvive` | src/ec/Clay.cc:1394-1560 | with as many erasures as parity nodes, the survivors are as many as the data nodes |
| `Decoding.JoinProgress` | src/ec/Clay.cc:301-363 | a Join whose sources may be read or were joined and whose target is new keeps, for all words of a code at once: every Join an identity, leaves are symbols that may be read, nothing else in the DAG, every index joined exactly once |
| `Decoding.JoinedIsRight` | src/ec/Clay.cc:2422-2558 | evaluating such a DAG from what is stored of any word gives every joined symbol its value in that word |
| `ClayJoin.Clay.SolvePair` | src/ec/Clay.cc:1020-1392 | one symbol of a pair joined from two others, by a true identity, once |
| `ClayJoin.Clay.EncodePair` | src/ec/Clay.cc:365-450 | an uncoupled symbol joined from the two coupled ones |
| `ClayJoin.Clay.DecodePair` | src/ec/Clay.cc:818-1018 | a coupled symbol joined from the two uncoupled ones |
| `ClayJoin.Clay.DecodeUncoupled` | src/ec/Clay.cc:1394-1560 | the uncoupled symbols of all erased nodes of a plane joined from those of the survivors, by true identities |
| `ClayJoin.ChildrenOf` | src/ec/Clay.cc:301-363 | the rule, on the children: a paired uncoupled symbol comes from its two coupled ones if both are stored, from the stored one and its companion, or from its plane; a coupled one from its companion if that is stored, and else from the two uncoupled ones; an unpaired one from its plane |
| `ClayJoin.TwoOrPlane` | src/ec/Clay.cc:301-363 | so every joined symbol has two children or as many as there are data nodes, and a paired coupled symbol always two |
| `ClayLayered.DecodeErasures` | src/ec/Clay.cc:301-363 | one plane of the first pass joins exactly its own symbols, each from symbols that are there |
| `ClayDecode.HammingWeight` | src/ec/Clay.cc:154-170 | the number of groups that lost a node, which no score of a plane exceeds |
| `ClayDecode.SetPlanesOrder` | src/ec/Clay.cc:172-185 | the order of a plane is the number of erased nodes that are unpaired in it |
| `ClayDecode.MateScore` | src/ec/Clay.cc:172-185 | the companion plane's score is one lower when the partner is erased and the node is not, and equal when both or neither are |
| `ClayDecode.FirstPassReady` | src/ec/Clay.cc:2485-2495 | visiting planes by score and then by index, everything a plane needs was joined by a plane before it |
| `ClayDecode.SecondPassReady` | src/ec/Clay.cc:2497-2510 | when the second pass of a score starts, all its uncoupled symbols are joined |
| `ClayDecode.DecodeLayered` | src/ec/Clay.cc:2422-2558 | for any m erased nodes, one DAG for all code words: every Join is an identity, leaves are coupled symbols of surviving nodes, exactly the uncoupled symbols and the coupled symbols of erased nodes are joined, each by exactly one call, and each has exactly the children that the rule of its pair or of its plane calls for |
| `ClayDecode.ErasedRecovered` | src/ec/Clay.cc:2422-2558 | evaluating the DAG from what survived gives every erased sub-chunk |
| `ClayEncode.Encode` | src/ec/Clay.cc:195-299 | the DAG reads nothing but data symbols if and only if no group holds both data and parity nodes (n - k a multiple of q, as with d = n - 1); then every symbol of a parity node is joined, each by exactly one call, by an identity that holds in all code words, and from the children that the rule calls for |
| `ClayEncode.CoupleNode` | src/ec/Clay.cc:277-291 | only the upper node of a pair acts, whatever its companion is; on a split group the first such step creates a leaf that stands for an uncoupled symbol |
| `ClayEncode.MissedLater` | src/ec/Clay.cc:172-185 | the plane of that symbol has a score one higher than the plane that asks for it |
| `ClayEncode.MissedNotStored` | src/ec/Clay.cc:283-291 | an index of that kind is none of a stored data symbol |
| `ClayEncode.WholeGroups` | src/ec/Clay.cc:277-291 | without split groups, the companion of a parity node is a parity node and that of a data node a data node |
| `ClayEncode.DataSolve` | src/ec/Clay.cc:1394-1560 | the rows of the data nodes have an inverse, so encoding needs no hypothesis on the matrix |
| `ClayWord.WordExists` | src/ec/Clay.cc:195-299 | whatever the data nodes store, there is a code word with these data, also when a group holds data and parity nodes |
| `ClayWord.StripeIsWord` | src/ec/Clay.cc:195-299 | the one encoding DAG, evaluated on any data, gives the parity symbols of the code word with these data |
| `ClayRepair.ListPlanes` | src/ec/Clay.cc:1935-2206 | the runs, plane by plane, are the planes in which the lost node is unpaired |
| `ClayRepair.PlaneOrder` | src/ec/Clay.cc:1935-2206 | the order counts the lost and aloof nodes that are unpaired in the plane |
| `ClayRepair.AloofPlaneEarlier` | src/ec/Clay.cc:1935-2206 | the companion plane at an aloof node has an order one lower |
| `ClayRepair.OrderReady` | src/ec/Clay.cc:1935-2206 | working through the planes by increasing order keeps everything available that is needed |
| `ClayRepair.RepairOneLostChunk` | src/ec/Clay.cc:1935-2206 | exactly the sub-chunks of the lost node and, in the planes that are read, the uncoupled symbols of all nodes are joined, each by exactly one call, by an identity that holds in all code words and from the children that the rule calls for; the leaves are exactly the asked sub-chunks of the helpers, for any number of aloof nodes |
| `ClayRepair.AskedCount` | src/ec/Clay.cc:1935-2206 | each helper reads q^(t-1) of its q^t sub-chunks |
| `ClayRepair.ReadCount` | src/ec/Clay.cc:1935-2206 | in all, d * w / q sub-chunks are read from nodes that store something, d being all of them but the lost and the aloof nodes: (n - 1) * w / q without aloof nodes |
| `ClayRepair.LostIsRight` | src/ec/Clay.cc:1935-2206 | evaluating the DAG from the asked sub-chunks gives every sub-chunk of the lost node |
| `Trace.CheckStripeDataLoss` | src/RepairSimulator_new.cc:153-167 | how many stripes have more failed nodes than the tolerance: the size of the set LostSet that the accounts of whole runs list event by event |
| `Trace.Scheduler.AddFailures` | src/RepairScheduler_new.hh:88-100 | failures are remembered once each, in order of first report; the statistics and the result |
| `Trace.AddedInOrder` | src/RepairScheduler_new.hh:88-100 | what was remembered stays in place while further failures are reported |
| `Trace.AddedNext` | src/RepairScheduler_new.hh:88-100 | of the failures of one event, each is put at the end just when it was not remembered before |
| `Trace.Scheduler.ExecuteFullRepair` | src/RepairScheduler_new.hh:113-118 | everything that was down is repaired |
| `Trace.Scheduler.ExecutePartialRepair` | src/RepairScheduler_new.hh:120-134 | exactly the given nodes that are down are repaired; a repair of nothing is no round |
| `Trace.Scheduler.DecideTraceDrivenStripe` | src/RepairScheduler_new.hh:206-255 | exactly the failed nodes of all stripes that the next failures would endanger, sorted; partial, immediate or lazy by their number |
| `Trace.RepairMakesSafe` | src/RepairScheduler_new.hh:206-255 | repairing them leaves every stripe safe against the predicted event |
| `Trace.EventAlone` | src/RepairSimulator_new.cc:188-293 | if the prediction misses nothing in a safe stripe, the event loses the stripe exactly when it would lose it by itself |
| `Trace.ExtraLossWasMissed` | src/RepairSimulator_new.cc:558-660 | a loss that the event alone would not cause is always owed to a node that was not predicted |
| `TraceRun.TraceReader.Advance` | src/common/TraceReader.cc:51-55 | moves on, never past the end |
| `TraceRun.Repair` | src/RepairSimulator_new.cc:232-275 | exactly what each strategy repairs: Immediate everything, Lazy the nodes of stripes that have reached the tolerance, TraceDriven the nodes of stripes in danger from the next event, and nothing else; a round is counted just when something was repaired; no strategy touches the account of losses |
| `TraceRun.FullIs` | src/RepairScheduler_new.hh:163-196 | a stripe has reached the tolerance exactly when the failure of any one more of its nodes would lose it |
| `TraceRun.DangerIs` | src/RepairScheduler_new.hh:206-255 | a stripe is in danger exactly when something of it is down and the next event would lose it if nothing were repaired |
| `TraceRun.LazyLeavesRoom` | src/RepairSimulator_new.cc:234-246 | after an event under Lazy, a stripe with something down has fewer blocks down than the code tolerates |
| `TraceRun.RepairedForAFullStripe` | src/RepairSimulator_new.cc:234-246 | Lazy repairs a node only when one of its stripes had as many blocks down as the code tolerates |
| `TraceRun.RepairedForAStripe` | src/RepairSimulator_new.cc:254-281 | TraceDriven repairs a node before the end only when one of its stripes would otherwise be lost at the next event |
| `TraceRun.DecideLazy` | src/RepairScheduler_new.hh:163-196 | the failed nodes of the stripes that have reached the tolerance |
| `TraceRun.RunOriginalStrategy` | src/RepairSimulator_new.cc:188-293 | over every trace, event by event: the failures join what the event before left down, exactly the nodes the strategy chooses are repaired, looking one event ahead, and losses, rounds and the most nodes down at once are those of this course; TraceDriven and Immediate lose exactly the stripes that an event alone takes out, at that event, Lazy loses these and perhaps others |
| `TraceRun.Predictor.PredictNextFailures` | src/MLPredictor.hh:93-144 | predicts only healthy nodes; while no miss is counted every coming failure of the pool is predicted; the four counters add up to the healthy nodes |
| `TraceRun.GuessIsHarmless` | src/RepairSimulator_new.cc:558-660 | after the repair for a prediction that missed nothing, the next event takes out exactly the stripes it would take out alone, false alarms or not |
| `TraceRun.RunMLDriven` | src/RepairSimulator_new.cc:558-660 | over every trace, event by event: exactly the nodes of stripes in danger from the prediction are repaired, and the books are those of this course; as long as the predictor never missed a node, the same stripes are lost at the same events as under TraceDriven; with any predictor those are lost, and perhaps others |
| `Greedy.ComputeStripeRisks` | src/RepairScheduler_new.hh:437-461 | one record per stripe with a failed node, in stripe order: how many, whether beyond tolerance, and the nodes |
| `Greedy.ComputeNodePriorities` | src/RepairScheduler_new.hh:466-500 | the priorities of all failed nodes, by falling score; a node on more critical stripes comes before one on fewer when the counts of high-risk stripes differ by less than ten |
| `Greedy.ScoreIs` | src/RepairScheduler_new.hh:466-500 | a score is ten times the number of critical stripes that hold the node plus the number of high-risk ones, each counted as a set |
| `Greedy.LateNodes` | src/RepairScheduler_new.hh:505-542 | once scores are down to zero, every failed node of every critical stripe has been looked at |
| `Greedy.GreedySelectNodes` | src/RepairScheduler_new.hh:505-542 | going through the failed nodes by priority, exactly those are selected that some critical stripe still needs when their turn comes; every critical stripe ends with at least max(fail_count - tolerance + 1, 1) of its nodes selected |
| `Greedy.NeedIsLeast` | src/RepairScheduler_new.hh:505-542 | max(fail_count - tolerance + 1, 1) is the least number, but at least one, of repaired nodes that brings a stripe below its tolerance |
| `Greedy.NeededIsTaken` | src/RepairScheduler_new.hh:505-542 | what is selected is selected in list order, and a node is passed over exactly when nobody needs it at its turn |
| `Greedy.BackBelowTolerance` | src/RepairScheduler_new.hh:505-542 | every stripe beyond its tolerance ends strictly below it |
| `Pipe.DecodeConv` | src/ec/RSCONV.cc:42-75 | from the first k survivors, every lost index is one Join over exactly these, in order, and evaluates to the combination whose coefficients are the coding row times what the inverter returned |
| `Pipe.DecodePipe` | src/ec/RSPIPE.cc:32-96 | for two data blocks or more, link c of a lost index joins the partial sum before it and survivor c, under its own temporary index or, last, the lost one; the chain evaluates at every lost index to the same combination as the flat Join if and only if there are two data blocks or more; with one, nothing is joined |
| `Pipe.ChainShape` | src/ec/RSPIPE.cc:66-92 | every joined vertex has two children, the second a survivor and the first a survivor or the partial sum before it |
| `Pipe.PartialUsedOnce` | src/ec/RSPIPE.cc:66-92 | a partial sum is the child of the next link and of nothing else, so each survivor is read once per lost index |
| `Pipe.LinkAdds` | src/ec/RSPIPE.cc:66-92 | one link adds the next input to the partial sum |
| `Pipe.ChainIsFlat` | src/ec/RSPIPE.cc:32-96 | chain and flat combination have the same value at every lost index, whatever the survivors store |
| `Pipe.RightIff` | src/ec/RSCONV.cc:42-75 | a lost symbol comes out right for all data if and only if its coefficients times the rows of the survivors are its own coding row, in the field of the code |
| `Pipe.LostComesBack` | src/ec/RSCONV.cc:42-75 | so it does when what the inverter returned, called with k as the width, is an inverse in the field of the code |
| `Recovery.ListBlocks` | src/common/Stripe.cc:35-73 | the lost blocks are those on failed nodes, in increasing order; from and to hold the sub-packets of the blocks on healthy and on failed nodes, block by block, in order |
| `Recovery.ChunksAt` | src/common/Stripe.cc:35-73 | sub-packet o of the k-th listed block stands at place k * w + o, and nothing else is listed |
| `Recovery.AddLostRoots` | src/common/Stripe.cc:74-76 | on top of the DAG of the code, exactly one root per lost block, over the sub-packets of that block in order |
| `Recovery.RefreshECDAG` | src/common/Stripe.cc:87-182 | when there are more roots than lost blocks, exactly the other roots are taken out, from the map and from the parent lists; every other vertex keeps what it computes and the class invariant is kept |
| `Recovery.PrepareRepair` | src/sol/ParallelSolution.cc:4447-4449 | after both, every vertex is one of the DAG of the code with its combination, or the root of a lost block |
| `Recovery.BlocksComeBack` | src/common/Stripe.cc:917-1576 | for any code, lost blocks, plan and run: when no thread can move, the task filed under a lost block has written that block - byte p * w + i is sub-packet i of packet p of the word that was stored - if and only if its root is on the last level |
| `Recovery.OnlyRoot` | src/common/Stripe.cc:1552-1576 | with one lost block its root is on the last level |
| `Blocks.ClayRepairDag` | src/ec/Clay.cc:1935-2206 | RepairOneLostChunk followed by PrepareRepair gives such a DAG |
| `Blocks.ClayBlockComesBack` | src/ec/Clay.cc:1780-1933 | one lost block of a Clay stripe: from q^(t-1) sub-chunks of each helper, every run of every plan ends with the lost block written under its own number, every sub-chunk of every packet as stored |
| `Blocks.HhBlockComesBack` | src/ec/HHXORPlus.cc:261-459 | the same for a lost data block of a Hitchhiker-XOR+ stripe, from exactly the symbols the repair asks for |
| `Smallest.SomethingIsPlanned` | src/common/Stripe.cc:917-1576 | the conditions that the theorems about compiled repairs ask for can be met |
| `Failures.SomeRepairIsStuck` | src/common/Worker.cc:1288-1472 | there is a repair that compiles and that no run completes: the hypotheses of TwoLevelsNeverComplete can be met |
| `Failures.SomeBlockIsNotWritten` | src/common/Stripe.cc:1552-1576 | there is a planned repair of two blocks with the root of one below the last level: by BlocksComeBack its runs complete and never write it |
| `Failures.SomeChangeMiscounts` | src/common/Stripe.cc:298-307 | there is a coloured DAG and a call of changeColor that leaves a wrong counter: those of InexactMiscounts can be met |
| `Failures.SomeGroupIsSplit` | src/ec/Clay.cc:16-130 | there are parameters the constructor accepts for which a group holds data and parity nodes (n = 14, k = 10, d = 12) |
| `Failures.SomeCommandIsCut` | src/ec/Task.cc:126-156 | there is a command a caller may send that does not arrive as it was sent |
| `Failures.SomeUpdateTies` | src/genMLP.cc:66-189 | there is a strict list and a solution whose update leaves a list that is not strict |
| `Curve.Dominate` | src/genMLP.cc:30-60 | the nested comparison is Pareto dominance |
| `Curve.Splice` | src/genMLP.cc:118-135 | one new entry between two of the list: the list stays doubly linked, and what was between them is out |
| `Curve.Visit` | src/genMLP.cc:108-163 | one entry of the walk: sol takes its place, closes over it, goes in front, goes to the end, or passes on; the list and both maps stay right (the second map up to an entry that is still to be dropped) |
| `Curve.UpdateTradeoffCurve` | src/genMLP.cc:66-189 | if some entry dominates sol or has its vector, the list stays; otherwise sol stands exactly where it belongs and what it dominates is gone; the list is doubly linked and both maps agree with it; the returned flag says only that the first entry did not stop the walk |
| `Curve.UpdateIsFront` | src/genMLP.cc:66-189 | the list afterwards holds sol and what it does not dominate, and is strictly increasing in load and strictly decreasing in bandwidth if and only if no entry had the same load and bandwidth |
| `Curve.NoTie` | src/genMLP.cc:251-267 | the quick look at the map by load rules such a tie out |
| `Curve.QuicklyReached` | src/genMLP.cc:251-267 | a neighbour that the quick look skips is matched or beaten by an entry of the list |
| `Curve.TryNeighbor` | src/genMLP.cc:213-288 | after one neighbour, the list is the front of all visited colourings, this one included; a neighbour that an entry matches or beats leaves the list alone, any other gets the place that its costs give it |
| `Curve.Expand` | src/genMLP.cc:192-289 | exactly the neighbours of the expanded colouring are visited, and the list is the front of all visited colourings |
| `Curve.Progress` | src/genMLP.cc:349-372 | a round visits a new colouring or leaves one less to expand, so the search ends |
| `Curve.GenTradeoffCurve` | src/genMLP.cc:296-375 | terminates; each step expands the first colouring of the front of everything visited that was not expanded before, and visits its neighbours and nothing else; in the end the list is doubly linked, is the front of everything visited, and every colouring on it was expanded |
| `Curve.FrontIsPareto` | src/genMLP.cc:296-375 | the load and bandwidth of a visited colouring are on the list if and only if no visited colouring beats it |
| `HHLayout.DivideGroups` | src/ec/HHXORPlus.cc:38-54 | the groups are consecutive, follow each other, and leave out the last data node |
| `HHLayout.InitLayout` | src/ec/HHXORPlus.cc:734-772 | the numbers of the stored and the additional symbols of one of several instances |
| `HHLayout.AssignSymbols` | src/ec/HHXORPlus.cc:815-844 | which additional symbol stands for which uncoupled parity and group sum |
| `HHLayout.MakeMatrix` | src/ec/HHXORPlus.cc:109-118 | the generated matrix with its first two parity rows exchanged, entry by entry: 1, 2, 4, ... first, then ones, then the powers of 3 and so on |
| `HHLayout.ExchangedRows` | src/ec/HHXORPlus.cc:109-118 | the first parity row holds 1 and then each entry twice the one before, the second holds ones, and they differ |
| `HHLayout.IxApart` | src/ec/HHXORPlus.cc:734-844 | no two symbols share a number |
| `HHRepair.HHXORPlus.constructor` | src/ec/HHXORPlus.cc:3-123 | the tables hold the numbers of the symbols they are for |
| `HHRepair.HHXORPlus.Encode` | src/ec/HHXORPlus.cc:176-231 | every parity, group sum and coupled parity is joined by exactly one call, from data and from what was joined before, by an equation that holds in all code words |
| `HHRepair.RuleOfEncoding` | src/ec/HHXORPlus.cc:176-231 | an uncoupled parity is joined over all data of its half, a group sum over its group, and a parity that carries a sum over what it adds up |
| `HHWords.WordExists` | src/ec/HHXORPlus.cc:176-231 | every choice of data has a code word |
| `HHWords.EncodedIsRight` | src/ec/HHXORPlus.cc:176-231 | evaluating the encoding DAG from the data gives every stored parity of the code word |
| `Patch.PatchIsInverse` | src/ec/HHXORPlus.cc:309-331 | the rows of all symbols but one and a parity row that does not vanish there have an inverse |
| `HHSingle.FirstInverts` | src/ec/HHXORPlus.cc:309-331 | the matrix that a single repair inverts is invertible, for every lost data node |
| `HHSingle.DataBack` | src/ec/HHXORPlus.cc:333-346 | the lost sub-symbol of the second half is the computed combination of what is read |
| `HHSingle.ParityBack` | src/ec/HHXORPlus.cc:357-366 | so is every uncoupled parity of the second half |
| `HHSingle.MemberBack` | src/ec/HHXORPlus.cc:373-414 | the group sum and the other members give the lost sub-symbol of the first half |
| `HHSingle.CoupleSum` | src/ec/HHXORPlus.cc:422-453 | adding up all uncoupled and coupled parities, the uncoupled ones cancel and parity 1 of the first half and the group sums are left |
| `HHSingle.AllCouples` | src/ec/HHXORPlus.cc:422-453 | all groups together hold every data node but the last, so what is left is the last data sub-symbol, scaled |
| `HHSingle.LastBack` | src/ec/HHXORPlus.cc:447-453 | dividing by the coefficient, which is never zero, gives the sub-symbol |
| `HHRepair.HHXORPlus.AvailableData` | src/ec/HHXORPlus.cc:283-307 | the data nodes that still have symbols, in order |
| `HHRepair.HHXORPlus.DecodeSingle` | src/ec/HHXORPlus.cc:261-459 | for every lost data node, both sub-symbols and only what they need in between are joined by identities that hold in all code words, each by exactly one call, from the needed symbols only, whatever else the list offers and in whatever order |
| `HHRepair.RuleOfRepair` | src/ec/HHXORPlus.cc:333-453 | what the second half has lost is joined over what is read of it, a group sum over its carrier, the other sub-symbol over its group or, for the last data node, over all carriers |
| `HHSingle.CoupleSymsAt` | src/ec/HHXORPlus.cc:422-446 | these carriers in order: each uncoupled parity, and what is stored for it |
| `HHWords.LostIsRight` | src/ec/HHXORPlus.cc:261-459 | evaluating the repair DAG from the needed symbols gives both lost sub-symbols, and nothing else is read |
| `HHRepair.HHXORPlus.GetRequiredSymbolsSingle` | src/ec/HHXORPlus.cc:846-899 | the list of symbols a repair asks for, in order; for a parity node all data of both halves |
| `HHRepair.NeededOnce` | src/ec/HHXORPlus.cc:846-899 | for a data node that list is exactly what the repair reads, each symbol once: k of the second half, and as many more as the group has members, or for the last data node as there are groups |
| `HHRepair.RequiredOffers` | src/ec/HHXORPlus.cc:283-307 | asking for that list and nothing else is enough for DecodeSingle |
| `Codec.IntRoundTrip` | src/ec/Task.cc:301-344 | a 32-bit integer in network byte order is read back |
| `Codec.Writer.WriteInt` | src/ec/Task.cc:301-312 | four octets are appended and nothing else changes; the capacity doubles just when they would not fit |
| `Codec.Writer.WriteString` | src/ec/Task.cc:314-330 | length and octets are appended, within the capacity, which doubles just when they would not fit; one doubling has to be enough |
| `Codec.BuildCommand` | src/ec/Task.cc:81-124 | the buffer holds the octets of the task and never overflows |
| `Codec.Resolve` | src/ec/Task.cc:126-280 | resolving what was built gives the same task, up to the end of a name at a zero octet and the usage of what then is a zero block |
| `Codec.ArrivesIntact` | src/ec/Task.cc:126-156 | a command arrives as it was sent if and only if its name has no zero octet and, for a zero block, it has no usage |
| `Wire.BigEndian` | src/ec/Task.cc:301-312 | an integer is four octets, the highest first, in two's complement |
| `Wire.ReadFields` | src/ec/Task.cc:98-124 | octet by octet: 0, the name of the block behind its length, the sub-packets behind their number, and two integers of usage for each unless the block is a zero block |
| `Wire.SendFields` | src/ec/Task.cc:158-172 | 1, the sub-packets behind their number, and for each of them in order the nodes behind their number |
| `Wire.ListFields` | src/ec/Task.cc:193-224 | 2 or 3, and the sub-packets behind their number |
| `Wire.PersistFields` | src/ec/Task.cc:258-268 | 4, the sub-packets to collect behind their number, and the name of the new block behind its length |
| `Codec.BuildItem` | src/ec/Task.hh:71-97 | the octets of a compute item |
| `Codec.ResolveItem` | src/ec/Task.hh:38-65 | resolving a built compute item gives the item, when it has as many coefficients as sources |
| `Wire.ItemFields` | src/ec/Task.hh:71-97 | the target, the sources behind their number, as many coefficients, and the two usages |
| `Codec.ResolveItems` | src/ec/Task.cc:211-256 | the items come back in the order in which they were sent, even when two have the same target |

## Left out

- Redis, sockets, files, threads as operating-system objects, timing and logging: what is kept is the order of a list under push and pop.
- Pipelined Redis commands of a receive: modelled as one pop per packet and vertex, in the order in which the replies are read.
- Jerasure, ISA-L and GF-Complete internals: the field and the inverter are parameters.
- Batches of several stripes: one stripe is modelled; its queues carry the stripe in their name, so stripes do not meet.
- `computeGroups`, `sendGroups`, `recvGroups`: not called by `repairStripe`.
- `changeColor2` and `evaluateChange2`: their child updates exchange the two columns when the old colour is not -1 (src/common/Stripe.cc:423-432), so they do not meet the accounting of this model.
- The order in which hash maps are walked: methods walk maps in an arbitrary order and the contracts do not depend on it.
- `is_repair` and `minimum_to_repair` for several failures: decoding is modelled with the m erasures `decode_layered` asserts.
- BUTTERFLY and RDP: the first joins with empty coefficients in one situation, the second adds only easy members.
- Floating-point risk scores and the strategies built on them; priorities are the integers 10 * critical + high.
- Cost estimates, printing, trace generators and main programs; `MLPredictor` is a predictor that may or may not miss and may or may not raise false alarms.
- Pointer lifetime and deletion.
- `Clay::Decode` between the two decoders: which nodes help and which stay aloof is a parameter of the repair.
- HHXORPlus `DecodeMultiple`, which is the conventional repair, and repairs of a parity node, which use it.
- `genSol` and the random restarts around `genTradeoffCurve`, which pick among finished curves.
- Codec.Writer.WriteString: does not model a string that does not fit after one doubling, because the buffer is doubled only once.
