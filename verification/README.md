# Verified model of the collective-communication core

This project models the core of a collective-communication library, all-reduce, all-gather,
elastic resize and the machinery below them, and proves what its many ranks keep when they run
at the same time.

A *rank* is one process of a session. An all-reduce sends every rank's buffer up a reduce tree to
a root and the combined result down a broadcast tree. The concurrent parts are transition systems
over all ranks, workers or threads at once; a *run* is any interleaving of enabled actions, and the
main results quantify over every run. Sequential code that updates variables is written as methods
with loops and classes with fields, each tied to a specification function or stating its property
outright.

| file | contents |
|---|---|
| `Basics.dfy`, `Folds.dfy`, `Graphs.dfy` | shared counting; folds of an operator over ranks; trees and subtrees |
| `Topology.dfy` | graph builder, star and ring pairs |
| `AllReduce.dfy` | the all-reduce protocol of n ranks, any number of calls, each over any tree pair, and its control invariant |
| `AllReduceProgress.dfy` | deadlock freedom, termination, no cross-talk between calls, a rank that stays away |
| `AllReduceOrder.dfy` | the stages of a call in order, each action once; streams and mailboxes first in, first out |
| `AllReduceResults.dfy`, `AllReduceMeaning.dfy` | the exact result at each rank; fold theorem, side condition, star, ring |
| `GroupAllReduce.dfy`, `GroupBounds.dfy` | many named all-reduces on a fixed pool per rank; the exact pool size |
| `AsyncAllReduce.dfy`, `AsyncPools.dfy`, `AsyncBounds.dfy`, `AsyncOrder.dfy`, `AsyncValues.dfy` | the asynchronous all-reduce of n ranks, each on its own pool; the exact number of workers; the order of its tasks; what it leaves in every buffer |
| `Broadcasts.dfy` | broadcast alone: runs, progress, the exact result |
| `Workspaces.dfy`, `Chunking.dfy`, `ChunkedAllReduce.dfy` | reduction buffers; partition, names and byte bound of chunks; chunked equals unsplit |
| `Channel.dfy`, `Rendezvous.dfy`, `Mailboxes.dfy`, `ThreadPool.dfy`, `ForkJoin.dfy`, `Tasks.dfy` | the concurrency primitives |
| `AllGather.dfy` | all-gather on a pool |
| `Sessions.dfy`, `Consistency.dfy`, `Elastic.dfy`, `Leftovers.dfy` | what a session's all-reduce delivers to each rank; the agreement check; elastic runs; what a session leaves in mailboxes |
| `Bytes.dfy`, `Clusters.dfy`, `Resize.dfy` | digests of cluster configurations; greedy resize |
| `Framing.dfy` | messages over a fragmented byte stream |

Findings where the code does less than the name of the operation promises, each with the exact
condition:

- A rank that receives nothing in the reduce stage keeps sending its own input in the broadcast
  stage. All-reduce leaves the fold everywhere if and only if every forwarding rank below the root
  received something or works in place (`AllReduceMeaning.SideConditionIsExact`). Star always meets
  this. Ring with three or more ranks and separate buffers does not: exactly the root r and rank
  r + 1 hold the fold, all others the input of rank r + 1 (`AllReduceMeaning.RingAllReduce`).
- `session::broadcast` likewise sends on the `send` buffer: it leaves the root's input everywhere if
  and only if every rank below the root that sends on works in place (`Broadcasts.BroadcastIsExact`).
  The star always does; on the ring with separate buffers each rank ends with the input of the rank
  before it (`Broadcasts.SessionBroadcasts`).
- `consistent` and `sync` all-reduce between separate buffers, so on a ring of three or more ranks
  they inherit this. `consistent` answers rightly at every rank for all inputs if and only if the
  session is a star or has at most two ranks (`Consistency.ConsistentIsAgreement`); for given inputs,
  if and only if they are all the same or every rank sees a difference
  (`Consistency.CorrectIsExact`). With one byte at rank 0 and none elsewhere the ranks take different
  branches (`Consistency.RingSplits`).
- So the ranks leave the agreement loop of `resize` in one iteration with one cluster, whatever their
  providers answer, if and only if the session is a star or has at most two ranks
  (`Elastic.LeaveTogetherIsExact`); on a larger ring, two proposals that differ in one byte make some
  ranks leave and others stay (`Elastic.RingLeavesApart`).
- And `sync` brings all members to the largest progress if and only if the session is a star, has at
  most two members, or the member that starts the ring's chain already holds it
  (`Elastic.SyncIsExact`); over whole runs, the counter counts rounds if and only if this holds after
  every change of membership (`Elastic.RunCountsRounds`).
- A pool of w workers serves every submission order of n tensors on m ranks, whatever their chunks
  and tree pairs, if and only if m * w > (m - 1) * n (`GroupBounds.PoolSizeIsExact`); the fixed size 76
  is enough for every number of ranks if and only if n <= 76 (`GroupBounds.FixedPool`).
- In the asynchronous runtime a receive holds a worker until its peer's send has been carried out by
  the peer's pool. With two ranks or more, every run on the star completes if and only if there are
  fewer chunks than workers (`AsyncBounds.StarIsExact`), and on the ring if and only if some rank has a
  worker more than its chunks and its receives take together (`AsyncBounds.RingIsExact`). Over all ring
  sizes and roots that is two workers for each chunk (`AsyncBounds.RingPoolIsExact`): eight workers
  carry seven chunks on the star and no more than four on the ring (`AsyncBounds.EightWorkers`).
- A thread-pool destructor entered with an unclaimed task never returns (`ThreadPool.DestructorHangs`).
- A detached rank's `should_stop` starts an all-reduce on its old session; that call can return if
  and only if nobody survived the resize (`Elastic.DetachedSync`).
- What that call leaves behind: a survivor's mailbox keeps a message from a detached rank if and only
  if it is that rank's parent in the reduce tree and everything below the rank was detached too
  (`Leftovers.LeftBehind`); on the star the root keeps one from every detached rank
  (`Leftovers.StarLeavesBehind`). Mailboxes are found by address and name and outlive the session,
  and growing back to the old size hands out the same addresses (`Resize.ShrinkAndRegrow`).
- When no worker survives a resize, the progress counter starts again from zero
  (`Elastic.RoundCounts`).
- A message name of 2^32 - 8 bytes or more, a NUL in a name, or a field over 32 bits is not
  delivered as sent; everything else is (`Framing.RoundTrip`).

Preconditions come from the code: all-reduce needs a positive element count (otherwise a division
by zero chunks), growing a cluster needs a worker on every runner host and a free port for every
worker to be added, and decoding a digest needs its first eight bytes.

## Model

| member | source | states |
|---|---|---|
| Folds.FoldUnion | src/stdml/collective/dtype.cpp:124-165 | for an associative and commutative operator, disjoint groups of ranks can be combined separately and in any order |
| Folds.FoldAllRanks | src/stdml/collective/mpi.cpp:37-44 | the set fold over all ranks is the left fold in rank order, the meaning of all-reduce |
| Folds.FoldOfSequences | src/stdml/collective/mpi.cpp:37-44 | with concatenation for operator the fold puts all inputs one behind the other, each once and in rank order |
| Folds.ZipLaws | src/stdml/collective/dtype.cpp:88-109 | the elementwise operator inherits associativity and commutativity from the operator on elements |
| Topology.GraphBuilder.EdgeExists | src/stdml/collective/topology.cpp:34-40 | answers whether the edge was ever added |
| Topology.GraphBuilder.AddEdge | src/stdml/collective/topology.cpp:42-54 | adds exactly one edge, in both adjacency directions, and says whether it was new |
| Topology.SortSet | src/stdml/collective/topology.cpp:56-64 | the one ascending duplicate-free list of the set |
| Topology.GraphBuilder.Build | src/stdml/collective/topology.cpp:66-85 | the graph of exactly the added edges, reversed or not, with or without self-loop marks |
| Topology.BuildMeaning | src/stdml/collective/topology.cpp:66-85 | nexts and prevs are mutual inverses holding exactly the added edges, sorted; building in reverse is edge reversal |
| Topology.MakeStar | src/stdml/collective/topology.cpp:109-117 | the loops build the star pair |
| Topology.StarIsTreePair | src/stdml/collective/topology.cpp:87-117 | for every n >= 1 and root, star is a spanning in-tree and out-tree with that root, and only the root forwards |
| Topology.StarLists | src/stdml/collective/topology.cpp:87-117 | rank by rank: every other rank sends to the root and hears from it, the root lists all others in ascending order |
| Topology.MakeCircularGraphPair | src/stdml/collective/topology.cpp:98-107 | the loop builds the ring pair |
| Topology.RingNeighbours | src/stdml/collective/topology.cpp:98-107 | the reduce chain is r+1, ..., r and the broadcast chain r, r+1, ..., r-1 |
| Topology.RingLists | src/stdml/collective/topology.cpp:98-107 | rank by rank: v sends to v + 1 modulo n in both stages, but for r in the reduce stage and r - 1 in the broadcast |
| Topology.RingIsTreePair | src/stdml/collective/topology.cpp:98-107 | for every n and root the ring pair is a spanning in-tree and out-tree with that root |
| Topology.MakeGraphPairList | src/stdml/collective/topology.cpp:119-139 | star gives one pair, rooted at 0; ring gives n, pair r rooted at r |
| AllReduce.InitControl | src/stdml/collective/run_graph_pair_list_multi_thread.cpp:58-82 | the control invariant, counters against messages in flight on every link, holds at the start |
| AllReduce.StepControl | src/stdml/collective/run_graph_pair_list_multi_thread.cpp:12-97 | every action of every rank and handler keeps the control invariant, with a tree pair of its own for every call |
| AllReduceProgress.MailboxNeverFull | src/stdml/collective/collective_handler.cpp:26-39 | at most one message per (peer, name) channel, so the handler's put of a plain message never blocks |
| AllReduceProgress.NoCrossTalk | src/stdml/collective/run_graph_pair_list_multi_thread.cpp:22-56 | over back-to-back calls with one name, a message is consumed by the call that sent it |
| AllReduceProgress.NamesDoNotMatter | include/stdml/bits/collective/mailbox.hpp:48-58 | when every call has its own name instead, exactly the same actions are possible in every reachable state |
| AllReduceProgress.Unblock | src/stdml/collective/run_graph_pair_list_multi_thread.cpp:58-82 | following what a rank waits for always ends at an enabled action |
| AllReduceProgress.ArrivalMoves | src/stdml/collective/collective_handler.cpp:26-39 | a message at the head of a stream is taken in, or its rank can move on towards the stage that wants it |
| AllReduceProgress.NeverStuck | src/stdml/collective/run_graph_pair_list_multi_thread.cpp:84-97 | every reachable state with an unfinished call has an enabled action, whatever pairs the calls go over, and a finished run has drained all streams and channels |
| AllReduceProgress.RunsAreFinite | src/stdml/collective/run_graph_pair_list_multi_thread.cpp:58-82 | no run is longer than the work of its first state |
| AllReduceProgress.CompleteRunLength | src/stdml/collective/run_graph_pair_list_multi_thread.cpp:58-97 | all complete runs have the same number of actions, the sum of what the calls cost at each rank |
| AllReduceProgress.ToTheEnd | src/stdml/collective/run_graph_pair_list_multi_thread.cpp:84-97 | every run can be continued until all calls have returned everywhere |
| AllReduceProgress.CompleteRun | src/stdml/collective/run_graph_pair_list_multi_thread.cpp:84-97 | a complete run exists for every plan |
| AllReduceProgress.Barrier | src/stdml/collective/session.cpp:130-134 | a rank returns from a call only after every rank has been through the reduce stage of that call |
| AllReduceProgress.AbsentRankBlocks | src/stdml/collective/run_graph_pair_list_multi_thread.cpp:58-82 | with two ranks or more: while one makes no call, no rank returns from its first |
| AllReduceOrder.StagesInOrder | src/stdml/collective/run_graph_pair_list_multi_thread.cpp:58-82 | over every run: within one call a rank never goes back from a later stage to an earlier one |
| AllReduceOrder.EachOnce | src/stdml/collective/run_graph_pair_list_multi_thread.cpp:58-82 | over every run: within one call a rank does nothing twice, and receives from and sends to only those the graphs name |
| AllReduceOrder.ReturnsAfterAll | src/stdml/collective/run_graph_pair_list_multi_thread.cpp:58-82 | over every run: before a rank returns from a call it has done everything the call asks of it |
| AllReduceOrder.ExactlyWhatIsDue | src/stdml/collective/run_graph_pair_list_multi_thread.cpp:58-82 | in every reachable state a rank can do exactly what its stage asks for and has not been done, in any order, a receive only with its message there |
| AllReduceOrder.WhoWritesTheBuffer | include/stdml/bits/collective/buffer.hpp:160-176 | over every run: a receive buffer of its own changes only by a reduce receive, by forwarding at a rank that has heard from nobody and has no broadcast parent, or by the broadcast message the rank waits for |
| AllReduceOrder.StreamIsFifo | include/stdml/bits/collective/rchan.hpp:27-34 | over every run, for each ordered pair of ranks: what was sent is what the handler took, followed by what is under way, in order |
| AllReduceOrder.MailboxIsFifo | src/stdml/collective/collective_handler.cpp:26-39 | over every run: the plain messages taken from a stream are those received from the mailbox, followed by what waits there, in order; the others never enter it |
| AllReduceResults.ResultsAreDetermined | src/stdml/collective/run_graph_pair_list_multi_thread.cpp:58-82 | for any operator, no interleaving changes what a returned call left at a rank |
| AllReduceMeaning.AllReduceIsFold | src/stdml/collective/session.cpp:64-80 | over any tree pairs, every returned call whose forwarders received something or work in place left the fold of all inputs |
| AllReduceMeaning.SideConditionIsExact | include/stdml/bits/collective/buffer.hpp:160-176 | summing ones gives the number of ranks everywhere if and only if that side condition holds |
| AllReduceMeaning.StarAllReduce | src/stdml/collective/topology.cpp:109-117 | star all-reduce leaves the fold at every rank, for every n, any calls, any interleaving |
| AllReduceMeaning.RingOutcome | src/stdml/collective/run_graph_pair_list_multi_thread.cpp:67-81 | which ranks of a ring end with the ordered fold and which with the input of rank r+1 |
| AllReduceMeaning.RingAllReduce | src/stdml/collective/topology.cpp:98-107 | the same over every run, with any root in each call: the fold x[r+1], ..., x[r] needs no algebraic law of the operator |
| Broadcasts.StepInv | src/stdml/collective/session.cpp:49-62 | with no reduce stage a parent may be calls ahead: every action keeps the invariant that a stream holds exactly the messages of the calls between its two ranks |
| Broadcasts.ResultsAreDetermined | src/stdml/collective/session.cpp:49-62 | whatever the interleaving, each returned broadcast left its outcome at each rank |
| Broadcasts.BroadcastIsExact | include/stdml/bits/collective/buffer.hpp:160-167 | a complete run leaves the root's input everywhere if and only if every rank below the root that sends on works in place |
| Broadcasts.NeverStuck | src/stdml/collective/session.cpp:49-62 | every reachable state with an unfinished broadcast has an enabled action |
| Broadcasts.RunsAreFinite | src/stdml/collective/session.cpp:49-62 | no run is longer than the work of its first state |
| Broadcasts.SessionBroadcasts | src/stdml/collective/session.cpp:60-61 | over the first pair with separate buffers: the star delivers the root's input, the ring to each rank what the rank before it put into its own send buffer |
| GroupAllReduce.SharedMember | src/stdml/collective/session.cpp:85-87 | the pigeonhole bound: sets that fill more than (m-1)/m of a set on average share a member |
| GroupAllReduce.StepInv | src/stdml/collective/session.cpp:83-97 | every step of pools, tasks and handlers keeps the invariant: each tensor's own protocol state, the pools, and the shared streams |
| GroupAllReduce.StreamMoves | src/stdml/collective/collective_handler.cpp:26-39 | a message at the head of a shared stream never blocks the tensors behind it for good: something can move |
| GroupAllReduce.DoneMeansBegun | src/stdml/collective/session.cpp:83-97 | a tensor returns somewhere only after a worker of every rank has taken it |
| GroupAllReduce.Progress | src/stdml/collective/session.cpp:83-97 | with an ample pool some unfinished tensor is active at every rank, so a step is enabled, for any chunks and tree pairs |
| GroupAllReduce.NeverStuck | src/stdml/collective/session.cpp:83-97 | no run with an ample pool gets stuck, for any submission orders, chunks and tree pairs |
| GroupBounds.RunsAreFinite | src/stdml/collective/session.cpp:83-97 | no run is longer than the work of its first state |
| GroupBounds.CallOf | src/stdml/collective/session.cpp:83-97 | what a run of the group does for one tensor, those actions in that order, is a run of the all-reduce protocol |
| GroupBounds.SharedStreamIsFifo | src/stdml/collective/collective_handler.cpp:26-39 | over every run: the stream of two ranks hands on the messages of all tensors in the order of their sending |
| GroupBounds.AtMostWActive | src/stdml/collective/session.cpp:85-97 | over every run: a rank runs at most w tensors at once |
| GroupBounds.PrefixRun | src/stdml/collective/session.cpp:88-94 | over every run: a rank takes its tensors in the order in which it submitted them |
| GroupBounds.GroupLeavesFolds | src/stdml/collective/session.cpp:83-97 | whatever the interleaving of the tensors, each returned chunk without a silent forwarder left the fold of its inputs |
| GroupBounds.GroupIsUnsplit | src/stdml/collective/session.cpp:83-97 | a chunked tensor that has returned everywhere left the unsplit fold, on the star, with two ranks, or where the chains start in place |
| GroupBounds.NothingEverDone | benchmarks/bench_group_all_reduce.cpp:73-85 | with too small a pool and cyclic orders no tensor ever completes anywhere |
| GroupBounds.PoolSizeIsExact | src/stdml/collective/session.cpp:83-97 | w workers are safe for all orders if and only if m * w > (m - 1) * n, whatever the chunks and tree pairs |
| GroupBounds.CyclicDeadlock | benchmarks/bench_group_all_reduce.cpp:73-85 | a reachable stuck state for every smaller pool |
| GroupBounds.BenchmarkShift | benchmarks/bench_group_all_reduce.cpp:73-85 | the benchmark's shift gives those orders at w = n - n/m when m divides n |
| GroupBounds.FixedPool | src/stdml/collective/session.cpp:85-88 | 76 workers are safe for every number of ranks if and only if n <= 76 |
| Workspaces.Reduce | src/stdml/collective/dtype.cpp:88-109 | in place, the output is the elementwise operator on the old inputs, also when the output is the second input |
| Workspaces.WorkspaceState.AddTo | include/stdml/bits/collective/buffer.hpp:160-176 | combines new data on the left with what counts so far, in separate buffers or one, and touches nothing behind |
| Workspaces.WorkspaceState.Forward | include/stdml/bits/collective/buffer.hpp:135-140 | the receive buffer becomes the input |
| Workspaces.AccumulatedIsFold | include/stdml/bits/collective/buffer.hpp:169-176 | repeated adding is the fold of everything received, newest first, ending with the input; only associativity is used |
| Workspaces.ReducePhase | src/stdml/collective/run_graph_pair_list_multi_thread.cpp:22-28 | on real buffers, aliased or not, in arrival order, the reduce stage of one rank computes that fold |
| Chunking.CeilDiv | src/stdml/collective/session.cpp:135-140 | the least number of chunks that covers the bytes |
| Chunking.EvenPartition | include/stdml/bits/collective/buffer.hpp:62-95 | the loop yields part j of k at its closed-form position |
| Chunking.PartsTile | include/stdml/bits/collective/buffer.hpp:81-95 | the parts start at the beginning, touch, and end at the end |
| Chunking.PartsAreEven | include/stdml/bits/collective/buffer.hpp:81-95 | lengths differ by at most one, longer ones first |
| Chunking.PartsAreNonempty | include/stdml/bits/collective/buffer.hpp:81-95 | all parts are nonempty if and only if there are no more parts than elements |
| Chunking.PartOf | include/stdml/bits/collective/buffer.hpp:81-95 | every element lies in exactly one part |
| Chunking.ByteBoundIsExact | src/stdml/collective/session.cpp:151-156 | no chunk of any call exceeds the chunk size if and only if the element size divides it |
| Chunking.NoMoreChunksThanElements | src/stdml/collective/session.cpp:154-155 | when an element fits a chunk, no chunk is empty |
| Chunking.SliceNameInjective | include/stdml/bits/collective/buffer.hpp:110-122 | a slice name determines the base name and both bounds |
| Chunking.DecimalDenotes | include/stdml/bits/collective/buffer.hpp:110-122 | the bounds in a slice name are written in decimal: the numeral says the number and has no leading zero |
| Chunking.ChunkNamesDistinct | include/stdml/bits/collective/buffer.hpp:110-133 | chunks of one call, and of calls with different names, have distinct names |
| Chunking.NameBasedHash | src/stdml/collective/session.cpp:142-149 | the loop computes the hash of the name |
| Chunking.HashMeaning | src/stdml/collective/session.cpp:142-149 | the hash is 0 for the empty name, c * c for one character below 128 and (256 - c) * (256 - c) for one from 128 to 255, and of two names joined it is the sum modulo 2^64 |
| Chunking.Split | include/stdml/bits/collective/buffer.hpp:124-133 | the chunks lie end to end in both buffers from the first address to the last, longer ones first, lengths differing by at most one, each named after its bounds, with the element size kept |
| Chunking.SplitWork | src/stdml/collective/session.cpp:151-165 | every chunk, cut in the same way, with the graph pair whose index is the hash of the name modulo the number of pairs; the number of chunks is the least that covers the bytes |
| ChunkedAllReduce.FoldOfCut | include/stdml/bits/collective/buffer.hpp:110-122 | folding the same slice of every buffer is slicing the fold |
| ChunkedAllReduce.ChunkedIsUnsplit | src/stdml/collective/run_graph_pair_list_multi_thread.cpp:84-97 | all ranks working through all chunks of one call in one system, each chunk over the pair its name selects, never get stuck; on the star, with two ranks, or where the chains start in place, they end with the unsplit fold in every receive buffer |
| ChunkedAllReduce.OneBuffer | include/stdml/bits/collective/buffer.hpp:124-133 | what the chunks left determines the whole buffer |
| ChunkedAllReduce.BuiltPairsAreSafe | src/stdml/collective/topology.cpp:98-139 | over the built lists a chunk meets the side condition exactly on the star, with at most two ranks, or when the start of its chain works in place |
| Channel.StepInv | include/stdml/bits/collective/channel.hpp:26-54 | every critical section keeps the wakeup invariant for any number of getters and putters |
| Channel.NoLostWakeup | include/stdml/bits/collective/channel.hpp:26-54 | a sleeping getter means an empty buffer; a sleeping putter a full one or an awake putter; never all asleep on both sides |
| Channel.FirstInFirstOut | include/stdml/bits/collective/channel.hpp:26-54 | items leave in the order they entered, none lost or repeated, at most cap inside |
| Channel.CallsMoveItems | include/stdml/bits/collective/channel.hpp:26-54 | over every run: a put that ends has put its own item behind all others, a get that ends or a `try_get` that finds something has taken the oldest item left, and nothing else moves items |
| Channel.UnfinishedCall | include/stdml/bits/collective/channel.hpp:26-54 | over every run: a thread that has not ended its call is still in the last call it made, with that call's item |
| Channel.WhoIsWoken | include/stdml/bits/collective/channel.hpp:26-54 | an item put wakes all sleepers, an item taken exactly one, if there is one |
| Channel.AwakeMoves | include/stdml/bits/collective/channel.hpp:26-54 | a thread that is awake can always run, and its call ends if there is an item to get or room for its own; `try_get` never waits |
| Channel.HandsOver | include/stdml/bits/collective/channel.hpp:26-54 | any sequence of items can be handed over: for every positive capacity a run in which all of them go in and come out |
| Rendezvous.OnlyTheGettersPointer | include/stdml/bits/collective/mailbox.hpp:15-35 | both queues and the putter's hand hold at most the waiting getter's pointer, so the assertion holds |
| Rendezvous.EachRoundGetsItsBody | include/stdml/bits/collective/mailbox.hpp:15-35 | each get returns only after its buffer was written, with the next body in order |
| Rendezvous.OnlyTheBufferIsWritten | include/stdml/bits/collective/mailbox.hpp:15-35 | over every run: no memory changes but the buffer of the get that waits, before it returns |
| Rendezvous.NeverStuck | include/stdml/bits/collective/mailbox.hpp:15-35 | something can move while a further round and a further body remain |
| Rendezvous.CompleteRun | include/stdml/bits/collective/mailbox.hpp:15-35 | for every plan with a body for each round: a run through all rounds that leaves nothing under way |
| Mailboxes.Mailbox.Require | include/stdml/bits/collective/mailbox.hpp:48-58 | one queue per key, the same every time, made on first use, with no effect on any contents |
| Mailboxes.Mailbox.Deliver | src/stdml/collective/collective_handler.cpp:32-36 | appends the body under its key and leaves every other key alone |
| Mailboxes.Mailbox.Receive | src/stdml/collective/run_graph_pair_list_multi_thread.cpp:24-27 | takes the oldest body under its key and leaves every other key alone |
| ThreadPool.StepInv | src/stdml/collective/thread_pool.cpp:108-177 | every step of adders, workers and destructor keeps the pool invariant |
| ThreadPool.PoolIsSafe | src/stdml/collective/thread_pool.cpp:108-132 | no worker pops an empty queue, both asserts hold, `waiting` is the queue length |
| ThreadPool.FirstInFirstOut | src/stdml/collective/thread_pool.cpp:118-177 | tasks start in the order added, each at most once |
| ThreadPool.WaitMeansFinished | src/stdml/collective/thread_pool.cpp:163-167 | where `wait` may return, every added task has finished |
| ThreadPool.NeverStalls | src/stdml/collective/thread_pool.cpp:108-132 | a pool with a worker and a queued task can move |
| ThreadPool.WorkersAreIndependent | src/stdml/collective/thread_pool.cpp:108-132 | over every run before the destructor: a busy worker can always go on, and an idle one while more tasks are queued than workers are on their way to one |
| ThreadPool.AllTasksRun | src/stdml/collective/thread_pool.cpp:108-177 | for any number of tasks: a run that adds and finishes all of them, with a single worker or more |
| ThreadPool.DestructorReturns | src/stdml/collective/thread_pool.cpp:148-161 | entered with every queued task claimed, it lets all workers exit within a bound, and its `wait` is satisfied |
| ThreadPool.DestructorHangs | src/stdml/collective/thread_pool.cpp:148-161 | entered with an unclaimed task, its `wait` is never satisfied |
| ForkJoin.Progress | src/stdml/collective/task.cpp:24-34 | for leaves that finish by themselves: with fewer forking chunk tasks than workers something can always move |
| ForkJoin.RunsAreFinite | src/stdml/collective/task.cpp:24-34 | each action uses up one unit of work |
| ForkJoin.LeavesInSteps | src/stdml/collective/task.cpp:24-34 | over every run: the leaves of a chunk that have finished are all those of the steps before and some of the step under way |
| ForkJoin.EveryLeafRuns | src/stdml/collective/task.cpp:24-34 | over every run: a chunk that is done has run every leaf of every step |
| ForkJoin.StepsOneByOne | src/stdml/collective/task.cpp:24-34 | a step of a chunk begins only when every leaf of the steps before it has finished |
| ForkJoin.PoolIsFifo | src/stdml/collective/thread_pool.cpp:118-177 | workers take the tasks, of chunks and leaves alike, in the order in which they were added |
| ForkJoin.PoolSizeIsExact | src/stdml/collective/task.cpp:24-34 | for leaves that finish by themselves: nested fork-join on m workers always completes if and only if fewer than m chunk tasks fork |
| ForkJoin.Deadlock | src/stdml/collective/task.cpp:24-34 | a reachable stuck state for every smaller pool |
| AsyncAllReduce.StepInv | src/stdml/collective/run_graph_pair_list_async.cpp:146-195 | every step of every rank's pool and of the tasks on it keeps the invariant |
| AsyncPools.SomeoneIsFull | src/stdml/collective/task.cpp:15-35 | where nothing can move before all is done, some rank has a queue, and its chunks and running receives together are no fewer than its workers |
| AsyncPools.AwaitedSend | src/stdml/collective/run_graph_pair_list_async.cpp:25-47 | a receive that waits for good has its send queued at the peer, or waiting behind a receive there |
| AsyncPools.StarProgress | src/stdml/collective/run_graph_pair_list_async.cpp:146-195 | on the star, fewer chunks than workers leave no stuck state |
| AsyncPools.RingProgress | src/stdml/collective/run_graph_pair_list_async.cpp:146-195 | on the ring, one rank with a worker to spare leaves no stuck state |
| AsyncBounds.RunsAreFinite | src/stdml/collective/run_graph_pair_list_async.cpp:146-195 | every step uses up one unit of work, so every run is bounded |
| AsyncBounds.Deadlock | src/stdml/collective/run_graph_pair_list_async.cpp:178-195 | over any trees of two ranks or more: without a spare worker anywhere there is a run into a stuck state |
| AsyncBounds.SingleRank | src/stdml/collective/run_graph_pair_list_async.cpp:146-195 | a single rank always completes |
| AsyncBounds.StarIsExact | src/stdml/collective/run_graph_pair_list_async.cpp:146-195 | on a star of two ranks or more: always complete if and only if there are fewer chunks than workers |
| AsyncBounds.RingIsExact | src/stdml/collective/run_graph_pair_list_async.cpp:146-195 | on a ring of two ranks or more with any roots: if and only if some rank has a worker more than its chunks and receives take |
| AsyncBounds.ReceivesCount | src/stdml/collective/topology.cpp:98-107 | a rank of the ring receives once for every chunk whose chain does not start at it |
| AsyncBounds.RingPoolIsExact | src/stdml/collective/run_graph_pair_list_async.cpp:178-195 | m workers carry c chunks over rings of all sizes and roots if and only if 2 * c <= m |
| AsyncBounds.EightWorkers | src/stdml/collective/session.cpp:40-42 | the runtime's eight workers: seven chunks on the star, four on the ring |
| AsyncOrder.StepsInOrder | src/stdml/collective/run_graph_pair_list_async.cpp:146-176 | over every run, for each chunk and rank: a receive ends after the child's send; a reduce send is added after all receives; a broadcast send after those, the reduce sends and the arrival of the broadcast; the chunk ends after all of them |
| AsyncOrder.ExactlyWhatIsDue | src/stdml/collective/run_graph_pair_list_async.cpp:146-176 | in every reachable state, exactly when a running chunk can add each of its tasks and when it can end, by the tasks done at it and its neighbours |
| AsyncOrder.ChunkIsBarrier | src/stdml/collective/run_graph_pair_list_async.cpp:146-176 | over every run: a chunk ends at a rank only after every rank has left the reduce stage of that chunk |
| AsyncOrder.PoolIsFifo | src/stdml/collective/thread_pool.cpp:118-177 | over every run: the workers of a rank take its tasks in the order in which they were added |
| AsyncOrder.AddedOnce | src/stdml/collective/run_graph_pair_list_async.cpp:146-176 | over every run: no task is added twice |
| AsyncValues.AsyncResults | src/stdml/collective/run_graph_pair_list_async.cpp:25-176 | in every reachable state a chunk that is done at a rank left the outcome that the same call leaves in the multi-thread form |
| AsyncValues.AsyncIsFold | src/stdml/collective/run_graph_pair_list_async.cpp:146-176 | the fold, where no rank forwards the chunk without having received |
| AsyncValues.AsyncRing | src/stdml/collective/run_graph_pair_list_async.cpp:146-176 | on rings, the ordered fold at the root and the start of the chain, and elsewhere unless the start works in place its input |
| AsyncValues.BothRuntimesAgree | src/stdml/collective/session.cpp:64-81 | whatever the interleavings, both runtimes leave the same in a receive buffer |
| Tasks.PollOk | src/stdml/collective/task.cpp:79-137 | a poll keeps the tree sound, polls no finished leaf, keeps `running_` equal to the false flags, and does not change what the tree completes to |
| Tasks.PollProgress | src/stdml/collective/task.cpp:79-137 | polling an unfinished tree makes progress, polling a finished one changes nothing |
| Tasks.ParallelPass | src/stdml/collective/task.cpp:121-131 | one pass over the children polls every child whose flag is unset, once, and no other, sets the flags of those that finished and counts them off; it is one poll of the group |
| Tasks.Finish | src/stdml/collective/task.cpp:42-47 | terminates for every nested tree with everything complete |
| Tasks.SequenceIsStrict | src/stdml/collective/task.cpp:83-93 | a child of a sequence is touched only after all before it have finished |
| Tasks.PolledExactly | src/stdml/collective/run_graph_pair_list_async.cpp:90-99 | each leaf is polled exactly as often as it needs, so an unguarded send happens once |
| Tasks.RoundsAreExact | src/stdml/collective/task.cpp:42-47 | k polls finish a fresh tree if and only if k is at least what its slowest path needs: the most of its children for a group, the sum for a sequence |
| Tasks.LeavesSideBySide | src/stdml/collective/task.cpp:121-131 | after k polls of a fresh group without a runtime, leaf i has had min(k, need) polls, and the group is finished if and only if k is at least the need of every leaf |
| Tasks.LeavesInARow | src/stdml/collective/task.cpp:83-93 | a fresh sequence is finished after k polls if and only if k is at least the sum of what its leaves need |
| AllGather.GathersInRankOrder | src/stdml/collective/all_gather.cpp:16-56 | a returned call holds every rank's block in rank order |
| AllGather.Unblock | src/stdml/collective/all_gather.cpp:32-55 | along a chain of waiting ranks the awaited ranks only fall, so it ends at an enabled action |
| AllGather.NeverStuck | src/stdml/collective/all_gather.cpp:32-55 | no deadlock with buffered sends, even with one worker |
| AllGather.RunsAreFinite | src/stdml/collective/all_gather.cpp:32-55 | every run is bounded by its work |
| AllGather.AtMostPWorkers | src/stdml/collective/all_gather.cpp:32-55 | over every run: at most p indices are under way beside the caller's own |
| AllGather.AllWorkersBusy | src/stdml/collective/all_gather.cpp:32-55 | and that many can be: a run with p indices under way beside the caller's own, or all there are |
| AllGather.SlotsAreWrittenInTime | src/stdml/collective/all_gather.cpp:16-31 | over every run: a slot of the output changes only while the index that is to fill it is under way |
| Consistency.MinIsMax | src/stdml/collective/session.cpp:123-127 | elementwise minimum and maximum agree if and only if all inputs are the same |
| Sessions.TrustyIsExact | src/stdml/collective/topology.cpp:119-139 | every rank ends with the fold, whatever the root, if and only if the session is a star or has at most two ranks |
| Sessions.ChainOrderFolds | src/stdml/collective/topology.cpp:98-107 | for an associative and commutative operator the order along the ring does not matter |
| Sessions.ChainOrderSplits | src/stdml/collective/topology.cpp:98-107 | the chain that starts behind rank r is the inputs turned by r + 1 |
| Sessions.CallDelivers | src/stdml/collective/run_graph_pair_list_multi_thread.cpp:84-97 | complete runs of a chunked call with separate buffers leave at every rank exactly what the session delivers to it: the fold, or per chunk the input of the rank that starts the chain |
| Consistency.EachAnswer | src/stdml/collective/session.cpp:113-128 | over every run: at most four all-reduces, and a rank that answers says no exactly when a difference reaches it |
| Consistency.CallsInOrder | src/stdml/collective/session.cpp:113-128 | over every run: the minimum and the maximum of the sizes, as one number each, and then, of nonempty inputs only, the minimum and the maximum of the bytes |
| Consistency.CorrectIsExact | src/stdml/collective/session.cpp:113-128 | for given inputs: every run ends with the right answer everywhere if and only if the inputs are all the same or every rank sees a difference |
| Consistency.RingSplits | src/stdml/collective/session.cpp:113-128 | on a ring of three ranks or more, inputs for which the ranks go different ways |
| Consistency.ConsistentIsAgreement | src/stdml/collective/session.cpp:113-128 | all runs on all inputs end with one right answer at every rank if and only if the session is a star or has at most two ranks |
| Consistency.UnanimousYes | src/stdml/collective/session.cpp:113-128 | on any session: when every rank answers yes, they passed the same bytes |
| Consistency.StepIsAllReduce | src/stdml/collective/session.cpp:113-128 | each of those steps, on star and ring alike, is what complete runs of the chunked all-reduce leave in the separate receive buffers; it is the fold only where the session delivers that |
| Clusters.FromToBytes | src/stdml/collective/address.cpp:160-176 | a digest decodes to its configuration if both counts fit 32 bits and is rejected otherwise |
| Clusters.DigestLayout | src/stdml/collective/address.cpp:160-176 | byte by byte: two counts in four bytes each, least significant first, then every runner and then every worker in order |
| Clusters.FromIsInverse | src/stdml/collective/address.cpp:178-197 | `from` accepts exactly the digests of countable configurations and inverts them |
| Clusters.DigestsAgree | src/stdml/collective/address.cpp:160-176 | equal digests are equal configurations |
| Resize.NextUnused | src/stdml/collective/address.cpp:118-126 | terminates while a port is free, with a free port x; with m the least used one, every port from m up to x is used, or x < m and every port above m and below x is used |
| Resize.NewWorkersHost | src/stdml/collective/address.cpp:145-156 | each new worker goes to the first of the runner hosts with the fewest workers at that moment |
| Resize.NewWorkersPort | src/stdml/collective/address.cpp:118-156 | and takes the next free port above the least one in use there |
| Resize.Resize | src/stdml/collective/address.cpp:128-158 | shrinking truncates, growing without runners changes nothing, growing continues the workers greedily to exactly the new size |
| Resize.GreedyKeeps | src/stdml/collective/address.cpp:128-158 | old workers stay, in front |
| Resize.NoDuplicates | src/stdml/collective/address.cpp:145-156 | growth never duplicates an (ip, port) |
| Resize.GreedyIsFresh | src/stdml/collective/address.cpp:145-156 | a new worker differs from every earlier one, whatever duplicates there were |
| Resize.GreedyIsBalanced | src/stdml/collective/address.cpp:145-156 | a host that received a worker has at most one more than any other runner host |
| Resize.GreedyUnique | src/stdml/collective/address.cpp:145-156 | growth is determined by runners and workers |
| Resize.GrowTwice | src/stdml/collective/address.cpp:128-158 | growing in two steps is growing at once |
| Resize.ShrinkAndRegrow | src/stdml/collective/address.cpp:128-158 | shrinking to a size not below the one it grew from and growing back gives the very same addresses |
| Resize.GrowAndShrink | src/stdml/collective/address.cpp:128-158 | growing and shrinking back is the identity |
| Elastic.Agree | src/stdml/collective/peer.cpp:176-187 | one rank leaves the loop at the first agreement with the configuration it proposed there: what its provider answered, or the cluster it had if there was no answer |
| Elastic.SilentRound | src/stdml/collective/peer.cpp:171-212 | a round that ends with an iteration where a provider gave no answer leaves everybody's version and cluster as they were; with an answer, that is the next cluster |
| Elastic.LeaveTogetherIsExact | src/stdml/collective/peer.cpp:175-187 | with the answers of every provider and the runs of `consistent` in every iteration: all ranks leave in one iteration with one cluster if and only if the session is a star or has at most two ranks |
| Elastic.AllLeaveWithOne | src/stdml/collective/peer.cpp:175-187 | on any session: if all ranks leave, they leave with one cluster |
| Elastic.RingLeavesApart | src/stdml/collective/peer.cpp:175-187 | proposals that make exactly the ranks leave that do not see the byte in which they differ |
| Elastic.ElasticState.PeerResize | src/stdml/collective/peer.cpp:188-212 | changed, detached, new version, new session and the peers dropped from the client cache |
| Elastic.ElasticState.CheckResize | src/stdml/collective/elastic_state.cpp:58-67 | the flags after a resize |
| Elastic.ElasticState.Sync | src/stdml/collective/elastic_state.cpp:44-50 | once per session, the reduced progress is taken; a second sync changes nothing |
| Elastic.ElasticState.Increment | src/stdml/collective/elastic_state.cpp:30-35 | sync, count, resize |
| Elastic.ElasticState.ShouldStop | src/stdml/collective/elastic_state.cpp:37-42 | syncs first, then looks at `detached_` and the limit |
| Elastic.RankOf | include/stdml/bits/collective/address.hpp:72-76 | the first position, or the length exactly when absent |
| Elastic.WithoutCounts | include/stdml/bits/collective/address.hpp:61-68 | no peer of the other list, and every other peer as often as before |
| Elastic.WithoutConcat | include/stdml/bits/collective/address.hpp:61-68 | in the order of the first list |
| Elastic.TopIsLargest | src/stdml/collective/elastic_state.cpp:44-50 | the fold of the progress of all members is the largest |
| Elastic.SyncIsExact | src/stdml/collective/elastic_state.cpp:44-50 | `sync` brings all members to the largest progress if and only if the session is a star, has at most two members, or the start of the ring's chain holds it |
| Elastic.RanksAreDistinct | src/stdml/collective/peer.cpp:203-208 | members of a session have distinct ranks, all in range |
| Elastic.RoundAt | src/stdml/collective/peer.cpp:188-212 | after a round whose loop all ranks left: survivors share version old + 1; a rank is detached if and only if it is absent from the new workers |
| Elastic.RoundKeepsSession | src/stdml/collective/elastic_state.cpp:30-67 | such a round leads from a session, where all or none have synced, to a session |
| Elastic.RoundCounts | src/stdml/collective/elastic_state.cpp:30-50 | the next session syncs to one more (to zero if nobody survives) if and only if it is a star or small, is unchanged, starts its chain with a survivor, or has no survivor |
| Elastic.RunsStart | src/stdml/collective/elastic_state.cpp:30-50 | fresh members form a session that syncs to zero |
| Elastic.RunKeepsSession | src/stdml/collective/elastic_state.cpp:30-67 | over every run, on any session, the members after each round form one session of the version that counts the changes |
| Elastic.RunCountsRounds | src/stdml/collective/elastic_state.cpp:30-67 | over every run, with the agreed cluster taken from the loop of each round: the synced progress is the number of rounds since the membership was last replaced as a whole if and only if that condition holds in every round |
| Elastic.StarRunCounts | src/stdml/collective/elastic_state.cpp:30-67 | on star sessions without a condition |
| Elastic.DetachedSync | src/stdml/collective/elastic_state.cpp:37-50 | the all-reduce that a detached rank starts on its old session can return if and only if nobody survived |
| Leftovers.LeftBehind | include/stdml/bits/collective/mailbox.hpp:38-59 | when the detached ranks and all handlers have done what they can, a survivor's mailbox holds a message from a rank if and only if it is its reduce parent and the rank's whole reduce subtree is detached |
| Leftovers.ToSettled | src/stdml/collective/elastic_state.cpp:37-50 | every such run can be continued until it has settled |
| Leftovers.StarLeavesBehind | src/stdml/collective/elastic_state.cpp:37-50 | on the star: one message of every detached rank at a surviving root |
| Framing.StrLen | src/stdml/collective/net/c++20/rchan.cpp:209-213 | the length up to the first NUL: no NUL before it, and one there or the end |
| Framing.Send | src/stdml/collective/net/c++20/rchan.cpp:206-239 | exactly the encoded message is written, however the socket fragments it |
| Framing.FrameLayout | src/stdml/collective/net/c++20/rchan.cpp:206-239 | byte by byte: name length, name, flags, body length, body, numbers in four bytes with the least significant first |
| Framing.NextFrame | src/stdml/collective/net/c++20/rchan.cpp:69-103 | one frame is read back whole, whatever follows |
| Framing.RoundTrip | src/stdml/collective/net/c++20/rchan.cpp:69-239 | a sequence of messages is delivered exactly as sent if and only if all of them fit |
| Framing.ParseEncodedAll | src/stdml/collective/net/c++20/rchan.cpp:206-239 | messages that do not fit are delivered as their truncated fields say |
| Framing.CutDeliversPrefix | include/stdml/bits/collective/rchan.hpp:27-34 | a connection cut anywhere delivers whole messages only, a prefix of those sent |
| Framing.CutOutcome | src/stdml/collective/net/c++20/rchan.cpp:69-103 | cut inside a message: all messages before it, then an ordinary end if fewer than four bytes of it arrived and an exception otherwise |
| Framing.ReadExact | include/stdml/bits/collective/net/ioutil.hpp:76-111 | exactly n bytes for any fragmentation, or end of file |
| Framing.WriteExact | include/stdml/bits/collective/net/ioutil.hpp:76-88 | all bytes in order for any fragmentation |
| Framing.MessageReader.ReadHeader | src/stdml/collective/net/c++20/rchan.cpp:69-95 | the header fields, no message at end of file, an exception in the middle |
| Framing.MessageReader.ReadBody | src/stdml/collective/net/c++20/rchan.cpp:97-103 | the body of the length the header gave |
| Framing.HandleNext | include/stdml/bits/collective/rchan.hpp:16-25 | the next message of the stream and the rest; an ordinary end if the first length field is not whole, an exception if the stream ends later in the message |
| Framing.HandleToEnd | include/stdml/bits/collective/rchan.hpp:27-34 | for every stream and fragmentation, exactly the messages it means, in order, and their number |
| Framing.SendAllAndHandle | src/stdml/collective/net/c++20/rchan.cpp:69-239 | end to end, what is handled is what was sent if and only if it fits |
| Framing.SendAllAndDie | src/stdml/collective/net/c++20/rchan.cpp:69-239 | when the sender dies inside a message, the receiver has handled all messages before it and was told unless fewer than four bytes of it arrived |
| Framing.WriteTask.Poll | include/stdml/bits/collective/net/ioutil.hpp:119-156 | each attempt writes the next bytes and nothing twice, and moves when the socket is ready |

## Left out

- Sockets, TCP servers and clients, connection retry, shutdown: operating-system calls; only framing and the exact loops are modelled, and a socket error other than end of file is not.
- HTTP, URL parsing and JSON, peer-list parsing from text, environment parsing, logging, affinity, statistics, the Go runtime and bridge.
- Floating-point reduction, which is not associative, and the dispatch on element types; operators are abstract, elements any type.
- The concurrent protocols are transition systems on values rather than threads over shared objects; lock-protected sections are single steps, and memory ordering and object lifetime are not modelled.
- AllReduce.StepControl: all ranks run the multi-thread form with one thread per peer; a session thread pool under the receives is not modelled. Sends never block: streams are unbounded.
- Broadcasts.StepInv: sends never block here either, and a parent may fill a stream with any number of messages.
- ChunkedAllReduce.ChunkedIsUnsplit: the chunks of a call run one after the other at each rank, as the multi-thread form does.
- GroupAllReduce.StepInv: sends never block; the inputs of all tensors are ready when a worker takes them; a session thread pool or the asynchronous runtime under a group is not modelled.
- AsyncBounds.RingIsExact: one call with buffered sends, and no other call's messages on the streams. The order in which one step adds its leaves is left open; on the ring a step has at most one.
- AsyncValues.AsyncResults: a broadcast message is written into the receive buffer the moment it is sent, and a task acts in one step when it finishes.
- ForkJoin.PoolSizeIsExact: the leaves finish by themselves; leaves that wait for a peer are the subject of `AsyncAllReduce`.
- Tasks.Finish: the tree is a value that a poll replaces, not objects with mutable flags; a group with a runtime completes in one poll, its concurrency being the subject of `ForkJoin`.
- ThreadPool.WaitMeansFinished: the wake-up of `wait` by `notify_one` is not modelled, only where its condition holds; several waiters could miss it.
- Workspaces.WorkspaceState.AddTo: the 32-bit receive counter is not followed past 2^32 - 1 messages of one call.
- Elastic.RunCountsRounds: the 64-bit progress counter is unbounded, members advance in lockstep rounds whose loop every rank leaves, and a joiner is assumed to be started with the version of the session it joins; the direction from counting to the condition takes clusters that name no worker twice.
- Leftovers.LeftBehind: what a later session does with such a message is not followed; the sessions of `Elastic` start with fresh streams and mailboxes, which in the code belong to the process.
- Elastic.LeaveTogetherIsExact: proposed configurations have counts of runners and workers that fit 32 bits, as their digests need.
- Elastic.Agree: the loop is followed as far as the provider has answered; that agreement is reached at all depends on the providers.
- Resize.NextUnused: with every port of a host taken the loop does not end; the precondition excludes this.
