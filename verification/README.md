# TileXR: a verified model of its planner, rings and protocols

This project models the parts of TileXR whose correctness rests on arguments that
cross functions, ranks or hardware, and proves those arguments in Dafny 4.11.

* **MoonEP planner.** `build_reference_plan` counts routes per expert, balances
  surplus and deficit ranks, splits experts over ranks, lays out padded groups
  with zero-fill ranges and prefetch slots, and encodes one slot per route. The
  three internal errors are unreachable, the plans of all ranks together assign
  distinct slots, and at every rank received slots and zero-fill ranges partition
  the buffer. Slots follow the order of the routing table. `RouteCounts`, `Balance`, `Allocation`, `Layout` and `PlanTables`
  describe the tables; `PlannerPhases` and `Planner` hold the loops that compute
  them; `PlanTheorems` and `CopyTheorems` state what holds of the plans of all
  ranks. `SlotAssignments` rebuilds slot owners from those plans.
* **UDMA queue pair.** `UdmaLog` and `Udma` model the send and completion rings
  with 32-bit counters, owner bits, deferred doorbells, reclaim and draining as a
  class that refines an unbounded append-only log over every run. Entries are
  reclaimed only after a completion without error.
* **Protocols.** `SyncFlags` and `SyncBarrier`: the flag barrier over all cores.
  `DataAsFlagSizes`, `DataAsFlag`, `DataAsFlagReceive`, `DataAsFlagTransfer` and
  `DataAsFlagProgress`: block transfer with flags inside the data.
  `Rendezvous`: the completion barrier that gates teardown.
* **Route replay and profiles.** `RouteReplay`, `DeterministicRoutes`,
  `ReplayMeta` and `KernelAttribution`.

`Sums` and `Wrappers` are shared helpers. `dafny verify dfyconfig.toml` checks
everything.

## How the model reads the code

* Python lists that the planner mutates are local sequences that the loops
  reassign. Methods return exactly what a specification function describes, and
  the properties are lemmas about that function. The functions are deterministic,
  so statements about the plans of several ranks make sense.
* Integers are unbounded where Python's are. In the C++ headers unsigned 32- and
  64-bit arithmetic, wrap-around and narrowing conversions are written out.
* UDMA hardware is a step that runs between any two accesses of the core. Honest
  hardware consumes entries in order up to the rung doorbell and writes one
  completion per entry, with any status, that names its last basic block. A queue
  pair with `honest` false may find anything in its completion ring. One core
  posts and polls a queue pair. Spinning is bounded by the retry limit of the
  source; ring copies are atomic.
* Data-as-flag blocks become visible as a whole, in any order; receive memory is a
  function of time and every access of the receiver has its own time. The flag sum is
  exact integer arithmetic, since flags are 0 or 1. The receiver's unbounded polling is
  cut by a parameter, and a receive that has not returned yet is `None`. The flags in
  the send scratch buffer are taken as set: `DataAsFlagInit` did that before, and
  sending never touches them. Its payload, and the receive scratch buffer, may hold
  anything.
* Replay records are JSON values: counts and copy entries may be numbers that are not
  plain integers, and descriptors may be something else than an object.
* A rendezvous frame authenticates exactly when it was signed with the launch
  secret. One barrier is run per launch and case, so a run starts without signed
  frames for its own case. Timeouts may happen at any time.
* Digests are arbitrary functions. Compression, base64 and JSON are left out as
  inverse pairs.

## Where the code does less than one might expect

* `DataAsFlagMaxCheckBlocks` is right if and only if the scratch buffer is smaller
  than 2^31 bytes: from there on its 32-bit requirement wraps and the first
  candidate is accepted (`MaxCheckBlocks`, `CheckRequired`).
* `DataAsFlagBlockCountForPayloadBytes` is right if and only if the transfer has
  at most 480 * (2^32 - 1) bytes (`BlockCountExact`).
* Strided copies take a 16-bit block count. Sending is right if and only if its first
  batch has fewer than 65536 whole blocks, that is min(bytes / 480, block count,
  scratch / 512) < 65536 (`SendExact`); beyond that blocks go out with their flag set
  and stale payload (`SendFailsAt65536Blocks`). Receiving counts flags per block, whole
  or not, and is right if and only if its first batch has fewer than 65536 blocks
  (`ReceiveExact`, `CheckExact`). `TransferExact` joins both sides.
* The status that a poll returns for a failed completion can be told from a timeout if
  and only if its two bytes are not 0 and 0xFF (`FailureLooksLikeTimeout`).
* `MergeMagicWithValue` keeps launches apart if and only if the event number is not
  negative (`MagicSeparates`).
* The replay loader rejects some bundles that the encoder builds. It accepts them if
  and only if source calls are non-negative, histograms are lists of plain integers,
  copy tables hold plain integers that name experts or -1, and tensor descriptors are
  objects (`LoadsIff`, with four examples in `EncodedButNotLoaded`). Writing a bundle
  loads it from its staging directory first, so such a bundle is refused before it is
  published.
* The balanced benchmark distribution exists if and only if E divides S*K and R
  divides S or K (`EqualIff`, `DeterministicRankTopk`); its error message only
  speaks of an equal distribution.

## Model

| member | source | states |
|---|---|---|
| Balance.FirstMax | tools/moonep/planner_reference.py:96-97 | the result is an index of a largest value and every earlier value is smaller |
| Balance.FirstMin | tools/moonep/planner_reference.py:100-101 | the result is an index of a smallest value and every earlier value is larger |
| Balance.Step | tools/moonep/planner_reference.py:164-171 | a round keeps the shape of balance and moves and leaves fewer ranks with a nonzero balance, so the loop ends |
| Balance.StepFillsLargest | tools/moonep/planner_reference.py:164-171 | a round moves exactly the deficit of the first rank with the largest deficit, from the first rank with the largest surplus, and changes no other balance or move |
| Balance.StepConserved | tools/moonep/planner_reference.py:168-171 | a round keeps the balances adding up to zero and no rank short of more than S*K, even when the donor overshoots |
| Balance.CellUnwritten | tools/moonep/planner_reference.py:169 | the cell of moves that a round assigns still holds zero, as does the whole column, so plain assignment loses nothing |
| Balance.StepExplains | tools/moonep/planner_reference.py:163-171 | after a round every balance is the initial one less what was given plus what was received, no rank has two donors, filled ranks are at zero and no rank gave more than it owns |
| Balance.SettleKeeps | tools/moonep/planner_reference.py:163-171 | the whole run of rounds keeps these facts, ends with all balances zero and takes fewer rounds than there are nonzero balances |
| Balance.BalancerGuarantee | tools/moonep/planner_reference.py:156-171 | at most R-1 rounds; each rank is filled by at most one other rank; every rank ends with exactly S*K routes and gives no more than it owns |
| Balance.BalanceRanks | tools/moonep/planner_reference.py:162-171 | the loop computes the moves of the settled balance |
| Allocation.NeverExhausted | tools/moonep/planner_reference.py:184-186 | while a quota is open some expert of the home still has routes |
| Allocation.MoveServesLargest | tools/moonep/planner_reference.py:181-192 | a migration serves the first rank with the largest open quota from the first expert with the most routes left, as far as both reach, and changes no other entry |
| Allocation.MoveConserves | tools/moonep/planner_reference.py:187-192 | a migration keeps row sums, non-negative entries, what each destination has plus still expects, and the home's remainder |
| Allocation.HomeServes | tools/moonep/planner_reference.py:176-192 | a home whose quotas do not exceed what it owns fills them exactly and loses no route |
| Allocation.AllocateSucceeds | tools/moonep/planner_reference.py:176-192 | "allocation exhausted" cannot happen for any home whose quotas are affordable |
| Allocation.MovesAffordable | tools/moonep/planner_reference.py:162-192 | the balancer never asks a home to migrate more routes than it owns |
| Allocation.AllocationGuarantee | tools/moonep/planner_reference.py:173-192 | the allocation succeeds, is non-negative, places all routes of every expert, gives every rank exactly S*K routes, and moves routes only along balancer moves |
| Allocation.OneDonorHome | tools/moonep/planner_reference.py:163-192 | two remote experts with routes at one destination have the same home |
| Layout.SortByLoadSorts | tools/moonep/planner_reference.py:218-221 | sorting keeps the remote experts and puts more routes first, larger ids first among equals |
| Layout.PaddedByDivision | tools/moonep/planner_reference.py:243 | rounding up by division gives the least sum of whole padding units |
| Layout.ByGroupSum | tools/moonep/planner_reference.py:230-240 | regrouping experts into own groups and prefetch groups loses and duplicates nothing |
| Layout.LayoutFits | tools/moonep/planner_reference.py:133-259 | routes from only two blocks of E/R experts always fit NvS after padding, for every padding and copy row |
| Layout.TwoBlocks | tools/moonep/planner_reference.py:133 | at most 2*E/R experts bring routes to a destination |
| Layout.SlotPartition | tools/moonep/planner_reference.py:242-257 | every slot of the buffer belongs to exactly one group, which either receives it or clears it |
| PlannerPhases.CountSource | tools/moonep/planner_reference.py:141-145 | per-expert counts of one source, or the first expert id that does not exist |
| PlannerPhases.CountRoutes | tools/moonep/planner_reference.py:139-145 | succeeds exactly on valid ids; the table counts each source's routes, an error names the first bad id of the whole table |
| PlannerPhases.AccumulateCounts | tools/moonep/planner_reference.py:147-154 | prefix entries count the routes of all ranks up to a source; totals are the histogram |
| PlannerPhases.MoveRoutes | tools/moonep/planner_reference.py:181-192 | one migration in the table changes the home's rows, remainders and quotas as described and no row of another home |
| PlannerPhases.MigrateHome | tools/moonep/planner_reference.py:178-192 | the in-place loop changes only the home's own rows, to the fully migrated block, and fails exactly when that migration is exhausted |
| PlannerPhases.AllocateExperts | tools/moonep/planner_reference.py:173-192 | the loops over homes compute the allocation table, or report exhaustion exactly when it does not exist |
| PlannerPhases.FillSlots | tools/moonep/planner_reference.py:223-227 | copy row, selected flags and outgoing counts of one destination |
| PlannerPhases.LayGroups | tools/moonep/planner_reference.py:229-257 | offsets, group ends, zero-fill ranges and end of one destination, as given by the group starts |
| PlannerPhases.AccumulateRows | tools/moonep/planner_reference.py:261-266 | each entry is the sum of the row up to it |
| PlannerPhases.FindDestination | tools/moonep/planner_reference.py:278-283 | the walk finds the first rank whose accumulated share exceeds the occurrence |
| PlannerPhases.EncodeRoutes | tools/moonep/planner_reference.py:268-297 | prefix plus local count is the route's occurrence number in the whole table; every encoded destination follows from it, in the order that RoutesInOrder states, and the search fails exactly when some route has no destination |
| PlanTables.BalanceConserved | tools/moonep/planner_reference.py:156-161 | the initial balances add up to zero and none is below -S*K |
| PlanTables.AllocationSound | tools/moonep/planner_reference.py:156-192 | every valid routing table has an allocation with all the properties above |
| PlanTables.RemoteBound | tools/moonep/planner_reference.py:212-222 | a destination hosts at most E/R remote experts |
| PlanTables.DestinationFits | tools/moonep/planner_reference.py:209-259 | the padded layout of every destination fits NvS |
| PlanTables.RouteLands | tools/moonep/planner_reference.py:276-297 | every route finds a destination and a received slot of its own expert's group there |
| PlanTables.SlotInjective | tools/moonep/planner_reference.py:270-297 | two routes with the same destination and slot are the same route |
| PlanTables.SlotFilled | tools/moonep/planner_reference.py:270-297 | every received slot is the slot of some route |
| Planner.Validate | tools/moonep/planner_reference.py:115-137 | argument checks in source order; an accepted request has consistent dimensions and an encoded range within 2^31 |
| Planner.LayoutDestinations | tools/moonep/planner_reference.py:194-259 | the tables of all destinations, or the overflow error exactly when one layout exceeds NvS |
| Planner.FinishPlan | tools/moonep/planner_reference.py:194-310 | layout and encoding produce the described plan or the described error |
| Planner.BuildReferencePlan | tools/moonep/planner_reference.py:104-310 | for every request the loops return exactly the plan, or the error, of the description, about which the PlanTheorems and CopyTheorems rows speak |
| PlanTheorems.PlanOutcome | tools/moonep/planner_reference.py:115-285 | planning succeeds exactly on well-formed requests; none of the three RuntimeErrors is ever raised |
| PlanTheorems.DestinationDecodes | tools/moonep/planner_reference.py:291-297 | each encoded destination names exactly one rank and one slot and lies below R*NvS, which is at most 2^31 |
| PlanTheorems.DestinationsInjective | tools/moonep/planner_reference.py:268-297 | over the plans of all source ranks no two routes share a destination |
| PlanTheorems.BufferPartition | tools/moonep/planner_reference.py:194-297 | a slot of a rank is received from some route of some rank exactly when none of that rank's zero-fill ranges covers it |
| PlanTheorems.RangesDisjoint | tools/moonep/planner_reference.py:246-255 | zero-fill ranges of a plan do not overlap and stay inside the buffer |
| PlanTheorems.RankReceivesShare | tools/moonep/planner_reference.py:229-257 | every rank receives exactly S*K routes; each group of its cu_seqlens has its routes in front and is padded to the least whole number of units |
| PlanTheorems.RouteMeetsItsExpert | tools/moonep/planner_reference.py:223-297 | every route lands, by cu_seqlens, in a group that computes its expert, directly or through experts_to_copy |
| PlanTheorems.RoutesInOrder | tools/moonep/planner_reference.py:270-297 | of two routes of one expert the later one in the routing table goes to the same rank or a later one; at the same rank their slots are exactly as far apart as there are routes of that expert between them |
| PlanTheorems.FirstRouteFirstSlot | tools/moonep/planner_reference.py:223-297 | the first route of an expert at a rank takes the first slot, by cu_seqlens, of the group that computes the expert |
| CopyTheorems.CopiesConserved | tools/moonep/planner_reference.py:205-227 | outgoing counts of all ranks add up to the live entries of experts_to_copy, and with E/R slots to the incoming counts |
| CopyTheorems.OutgoingExact | tools/moonep/planner_reference.py:224-227 | each rank's outgoing count is the number of entries of experts_to_copy that name an expert at home there |
| CopyTheorems.CopyRowShape | tools/moonep/planner_reference.py:212-227 | a row names distinct experts of one other rank, as many as incoming copies or slots, then only -1 |
| DeterministicRoutes.EqualIff | tools/moonep/planner_reference.py:61-71 | the target formula spreads routes equally over ranks if and only if R divides S or K |
| DeterministicRoutes.Generate | tools/moonep/planner_reference.py:56-64 | every route goes to the rank (t + k) mod R before the source and there to the next expert in turn; target counts per rank, valid expert ids, and even cycling |
| DeterministicRoutes.DeterministicRankTopk | tools/moonep/planner_reference.py:24-72 | exact condition for success and for each error; in a balanced table every route of the rank is aimed at its target rank and every expert gets S*K/E routes, a shifted one holds the shifted ids |
| SlotAssignments.ScanSource | tools/moonep/dispatch_hot_loop.py:291-301 | the scan of one source extends the owner table exactly, and errors only on a negative entry or a real collision |
| SlotAssignments.HitsDistinct | tools/moonep/dispatch_hot_loop.py:287-301 | two entries of rolled plans that name one destination are the same entry |
| SlotAssignments.OwnedIsReceived | tools/moonep/dispatch_hot_loop.py:288-290 | rolling changes owners but not the set of owned slots |
| SlotAssignments.ReferenceSlotAssignments | tools/moonep/dispatch_hot_loop.py:273-302 | for every roll there is no collision; a slot has no owner exactly when a zero-fill range of this rank covers it, otherwise source, route and token are right |
| UdmaLog.WrappedDistance | src/include/tilexr_udma.h:557 | distances below 2^32 survive counter wrap |
| UdmaLog.WrappedPlace | src/include/tilexr_udma.h:437-444 | ring place and lap parity survive counter wrap |
| UdmaLog.PublishPlaces | src/include/tilexr_udma.h:489-509 | the one- or two-piece copy writes consecutive places around the ring and nothing else |
| UdmaLog.PostHolds | src/include/tilexr_udma.h:555-629 | a post that fits overwrites no block of an unreclaimed entry and puts its own blocks in place |
| UdmaLog.CompleteHolds | src/include/tilexr_udma.h:286-289 | a new completion leaves the last lap of completions intact |
| UdmaLog.OwnerExact | src/include/tilexr_udma.h:287-294 | the slot at the tail reads as ready if and only if hardware wrote it on the current lap |
| UdmaLog.CompletedBbExact | src/include/tilexr_udma.h:309-313 | the modular formula yields exactly the blocks of the completed entry |
| UdmaLog.OutcomeAdded | src/include/tilexr_udma.h:286-302 | a new completion shows its entry's outcome and leaves those of the last lap readable |
| UdmaLog.FrontierBetween | src/include/tilexr_udma.h:907-915 | the three range checks accept exactly the frontiers between tail and head |
| UdmaLog.ImageAppend | src/include/tilexr_udma.h:607-629 | appending an entry that fits keeps both rings an image of the log and all earlier positions |
| Udma.QueuePair.NoOverrun | src/include/tilexr_udma_types.h:13-16 | unpolled completions <= wqeCnt - cqTail <= head - tail <= ring depth, in every valid state |
| Udma.QueuePair.Complete | src/include/tilexr_udma.h:433-462 | hardware fetches exactly the posted entry with the place and lap bit stamped on it, and writes one completion with its outcome |
| Udma.QueuePair.Hardware | src/include/tilexr_udma.h:291-294 | any activity of hardware keeps the queue valid |
| Udma.QueuePair.AwaitCompletion | src/include/tilexr_udma.h:290-297 | a wait that is not timed out ends with a ready completion; one that is there already is never timed out |
| Udma.QueuePair.ReadyExact | src/include/tilexr_udma.h:289-302 | the completion at the tail is ready exactly when the oldest entry is completed, and shows that entry's outcome |
| Udma.FailureLooksLikeTimeout | src/include/tilexr_udma.h:295-302 | a failed completion returns one of the driver's own statuses if and only if its bytes are 0 and 0xFF |
| Udma.QueuePair.ConsumeNext | src/include/tilexr_udma.h:287-320 | only a ready completion with both status bytes zero is consumed, and the tails move by what it frees, within the limits; a failed one is reported as status * 256 + substatus with the tails left at it |
| Udma.QueuePair.PollCQ | src/include/tilexr_udma.h:260-323 | success means cqTail equals the index and every entry reclaimed, now or ever, completed without error; a failed completion in range stops the poll exactly there with its code; a poll for what is completed without error succeeds; INVALID only comes from a bad context or an index out of range |
| Udma.QueuePair.PollCQUntilSqTail | src/include/tilexr_udma.h:325-389 | whatever completions contain, the tail never passes target or head and success means it equals the target; for an entry boundary it is never invalid, stops exactly at the first failed entry with its code, and succeeds when all entries before it completed without error |
| Udma.QueuePair.ValidatePostSend | src/include/tilexr_udma.h:511-565 | INVALID, SQ_FULL or SUCCESS exactly by argument validity and free blocks |
| Udma.QueuePair.Append | src/include/tilexr_udma.h:607-629 | the entry is appended to the log and all invariants are kept across both wraps |
| Udma.QueuePair.Reclaim | src/include/tilexr_udma.h:586-595 | everything deferred is exposed first; a successful reclaim empties the ring; a failed entry stops it with its code |
| Udma.QueuePair.PostSend | src/include/tilexr_udma.h:567-634 | success appends exactly one entry, with the opcode, flag, addresses, length and signal asked for, anything else appends nothing; a post that rings the doorbell never reports SQ_FULL on honest hardware and reports a failed entry that keeps the ring full; a deferred post reports SQ_FULL exactly when it does not fit |
| Udma.QueuePair.FlushQpDoorbell | src/include/tilexr_udma.h:973-999 | succeeds exactly with a valid context and then exposes every posted entry |
| Udma.QueuePair.QuietStatusOnQp | src/include/tilexr_udma.h:1019-1036 | success leaves cqTail = wqeCnt and tail = head with every entry reclaimed and completed without error; a failed entry is reported with its code |
| Udma.QueuePair.CompletionFrontier | src/include/tilexr_udma.h:851-865 | the frontier is the end of the last posted entry |
| Udma.QueuePair.DrainToFrontier | src/include/tilexr_udma.h:891-918 | a frontier outside tail and head is rejected; success puts the tail exactly there; a failed entry before it stops the drain there with its code |
| Udma.Run | src/include/tilexr_udma.h:251-634 | any run of posts, flushes, polls and drains keeps the rings an image of an append-only log, and no entry that failed is ever reclaimed |
| SyncFlags.PassesExactly | src/include/tilexr_sync.h:295-341 | for event numbers that are not negative a flag passes exactly for its own magic and a large enough event |
| SyncFlags.MagicSeparates | src/include/tilexr_sync.h:295-299 | flags of different magics are told apart if and only if the event number is not negative |
| SyncFlags.StaleNeverPasses | src/include/tilexr_sync.h:337-344 | a flag of another magic never passes the strict test |
| SyncFlags.FlagsDisjoint | src/include/tilexr_sync.h:301-309 | inner and outer flags of all cores are disjoint |
| SyncFlags.WaitOneRankPartFlag | src/include/tilexr_sync.h:320-348 | skipping flags that have passed is right: the wait ends with the first look in which all flags pass |
| SyncBarrier.TargetCovers | src/include/tilexr_sync.h:191-201 | the staggered order visits every core's flag |
| SyncBarrier.StepInv | src/include/tilexr_sync.h:160-201 | every step of every core keeps flags, seen flags and finished rounds consistent |
| SyncBarrier.NoEarlyLeave | src/include/tilexr_sync.h:220-224 | in every interleaving no core leaves round k before every core has set round k |
| SyncBarrier.OneRoundApart | src/include/tilexr_sync.h:220-224 | cores are never more than one round apart |
| SyncBarrier.PassesForever | src/include/tilexr_sync.h:335-347 | a satisfied wait stays satisfied in every continuation |
| SyncBarrier.CopyStillPasses | src/include/tilexr_sync.h:328-346 | testing a copy of a flag taken earlier in the run adds no behaviour: if the copy passes, the flag still does |
| SyncBarrier.CopiesStay | src/include/tilexr_sync.h:320-348 | in every run the copies that the polling loop looks at have the stability that makes skipping flags right |
| SyncBarrier.NeverStuck | src/include/tilexr_sync.h:328-347 | under one magic some core can always move on |
| DataAsFlagSizes.BlockCountExact | src/include/tilexr_data_as_flag.h:37-44 | the 32-bit block count is right if and only if there are at most 480*(2^32-1) bytes |
| DataAsFlagSizes.CheckRequired | src/include/tilexr_data_as_flag.h:79-93 | the compared size is the real one below 2^26 blocks and wraps from there on |
| DataAsFlagSizes.MaxCheckBlocks | src/include/tilexr_data_as_flag.h:115-126 | the largest batch that fits below 2^31 bytes of scratch; from 2^31 on a batch that does not fit |
| DataAsFlagSizes.MaxRecvBlocks | src/include/tilexr_data_as_flag.h:128-142 | always the largest batch that fits |
| DataAsFlagSizes.RegionsDisjoint | src/include/tilexr_data_as_flag.h:95-113 | flag, sum, workspace and copy regions of every batch are in bounds and disjoint |
| DataAsFlag.Send | src/include/tilexr_data_as_flag.h:204-245 | the loop over batches writes, for every source and every old content of the scratch buffer, the blocks of the description, stale payload included where a 16-bit count cuts a copy short |
| DataAsFlag.SendBatch | src/include/tilexr_data_as_flag.h:222-241 | one batch loads its whole blocks and its tail into the scratch buffer and leaves the rest of it alone |
| DataAsFlag.BatchCarries | src/include/tilexr_data_as_flag.h:160-202 | with fewer than 2^16 whole blocks in the first batch, every block of every batch carries its part of the source |
| DataAsFlag.StaleBlock | src/include/tilexr_data_as_flag.h:171-179 | with 2^16 whole blocks or more a block goes out, flag set, with what the scratch buffer held before |
| DataAsFlag.SendExact | src/include/tilexr_data_as_flag.h:204-245 | sending is right for every old scratch content if and only if min(bytes / 480, block count, scratch blocks) is below 2^16 |
| DataAsFlag.SendFailsAt65536Blocks | src/include/tilexr_data_as_flag.h:171-179 | 65536 * 480 zero bytes through a freshly initialised buffer of 65536 blocks publish the initial contents; 65535 blocks and one byte are right |
| DataAsFlagReceive.CheckBatch | src/include/tilexr_data_as_flag.h:247-298 | scratch split test and sum of the counted flags, plus old scratch contents where the 16-bit count cuts |
| DataAsFlagReceive.FlagSumMeans | src/include/tilexr_data_as_flag.h:281-287 | a flag sum equal to the number of flags means all blocks are visible, although flags are read one by one |
| DataAsFlagReceive.Check | src/include/tilexr_data_as_flag.h:309-337 | the loop answers as described, batch by batch; CheckDecides says when that is yes |
| DataAsFlagReceive.CheckAndRecv | src/include/tilexr_data_as_flag.h:382-423 | for every memory history and old scratch content the loops return exactly the delivery of the description |
| DataAsFlagReceive.DeliveredAsSent | src/include/tilexr_data_as_flag.h:403-420 | with batches below 2^16 blocks a receive that returns has read every block as it was sent |
| DataAsFlagTransfer.ReceiveExact | src/include/tilexr_data_as_flag.h:266-276 | receiving is right for every sender, interleaving and old scratch content if and only if min(block count, receive capacity) is below 2^16 |
| DataAsFlagTransfer.TransferExact | src/include/tilexr_data_as_flag.h:204-423 | over both scratch sizes, all interleavings with the blocks that the sender writes and all old contents, a receive that returns has delivered the source if and only if the receiver's first batch has fewer than 2^16 blocks and the sender's fewer than 2^16 whole blocks |
| DataAsFlagTransfer.TransferEdges | src/include/tilexr_data_as_flag.h:171-267 | the first byte counts and scratch sizes at which sending and receiving fail, and the last at which they do not |
| DataAsFlagTransfer.CheckExact | src/include/tilexr_data_as_flag.h:309-337 | a single look is right if and only if its first batch has fewer than 2^16 blocks or the scratch buffer lacks room for some batch |
| DataAsFlagTransfer.CheckExactBelow | src/include/tilexr_data_as_flag.h:309-337 | below 2^31 bytes of scratch, if and only if its first batch has fewer than 2^16 blocks |
| DataAsFlagTransfer.HeldExact | src/include/tilexr_data_as_flag.h:37-44 | the counted blocks hold the whole source if and only if it has at most 480*(2^32-1) bytes |
| DataAsFlagProgress.CheckDecides | src/include/tilexr_data_as_flag.h:309-337 | with a first batch below 2^16 blocks the answer is yes if and only if there are no bytes, or the scratch buffer has room for every batch and every block is visible when its flag is read |
| DataAsFlagProgress.CheckDecidesBelow | src/include/tilexr_data_as_flag.h:309-337 | from 96 bytes of scratch up to 2^31, if and only if every block is visible when its flag is read |
| DataAsFlagProgress.ReceiveReturns | src/include/tilexr_data_as_flag.h:382-423 | with room for one block and batches below 2^16 blocks, a receive whose patience reaches to when all blocks are visible returns the bytes as they were sent |
| DataAsFlagProgress.ReceiveReturnsIff | src/include/tilexr_data_as_flag.h:382-423 | a receive returns sooner or later if and only if there are no bytes, or there is room for one block and all blocks become visible |
| DataAsFlagProgress.TransferCompletes | src/include/tilexr_data_as_flag.h:204-423 | a whole transfer through batches below 2^16 delivers the source once all blocks are visible |
| Rendezvous.StepInv | tools/moonep/rendezvous.py:109-255 | every step keeps reports, signed frames, decision, outcomes and closed buffers consistent |
| Rendezvous.Agreement | tools/moonep/rendezvous.py:174-249 | in every run all ranks that return a decision return the same one |
| Rendezvous.FirstReportCounts | tools/moonep/rendezvous.py:151-169 | in every run a rank's first registered report stays, whatever authentic arrivals of it come later |
| Rendezvous.DecisionMeans | tools/moonep/rendezvous.py:174-193 | release means all ranks entered quiesced; abort means some rank did not pass or was not quiesced |
| Rendezvous.NoEarlyClose | tools/moonep/benchmark.py:1011-1061 | no rank closes its buffer before every rank is quiesced |
| Rendezvous.FinishCase | tools/moonep/benchmark.py:1011-1064 | what a rank reports, exactly when it closes, holds and fails: it closes only after a release, and an abort fails a rank that passed |
| Rendezvous.SoleRankDecision | tools/moonep/rendezvous.py:272-273 | the shortcut for one rank is the server's decision on its own report |
| Rendezvous.Serve | tools/moonep/rendezvous.py:132-193 | the loop decides exactly when every rank's authentic arrival came in, on the first of each |
| Rendezvous.AwaitDecision | tools/moonep/rendezvous.py:212-255 | the first answer settles the retries: an authentic decision is returned unchanged, anything else raises |
| RouteReplay.HeapPop | tools/moonep/model_flow.py:188 | pop returns the least item |
| RouteReplay.SelectionFeasible | tools/moonep/model_flow.py:185-192 | choosing the K largest counts keeps each remaining count within the tokens left and the total at K per token |
| RouteReplay.EnoughExperts | tools/moonep/model_flow.py:186-187 | a feasible histogram always offers K experts |
| RouteReplay.AssignRoutes | tools/moonep/model_flow.py:182-194 | the greedy loop realises every feasible histogram, each token listing the experts with the most routes left |
| RouteReplay.RoutesFromExpertCounts | tools/moonep/model_flow.py:166-197 | succeeds exactly on histograms in [0,S] adding up to S*K, with the error of the first check that fails otherwise; every token lists the K experts with the most routes left, more routes first and smaller ids first among equals, and the table has exactly the given histogram |
| ReplayMeta.AddRouteKeeps | tools/moonep/model_replay_meta.py:536-556 | adding a table keeps earlier tiles and yields the route of exactly this table |
| ReplayMeta.CollisionIsReal | tools/moonep/model_replay_meta.py:555-556 | a reported collision is two different tables with one digest |
| ReplayMeta.EncodeRanks | tools/moonep/model_replay_meta.py:517-572 | success yields a faithful bundle; errors have a bad table or a real collision behind them |
| ReplayMeta.BuildMeta | tools/moonep/model_replay_meta.py:504-572 | for every digest function the encoder succeeds exactly on valid replays of at most 256 experts without collision whose optional numbers convert, and every error has its reason |
| ReplayMeta.SharedRoute | tools/moonep/model_replay_meta.py:536-571 | two calls share a route id if and only if their TopK tables are equal |
| ReplayMeta.Materialize | tools/moonep/model_replay_meta.py:901-968 | a loaded bundle expands call by call, and the expansion is valid or rejected |
| ReplayMeta.RoundTrip | tools/moonep/model_replay_meta.py:901-939 | expanding an encoded replay gives back every field of every record: tables, digests, counts, statistics, copies and descriptors as they were, numbers as the integers they convert to, absent fields as their defaults; the result is valid |
| ReplayMeta.LoadsIff | tools/moonep/model_replay_meta.py:632-751 | the loader accepts an encoder's bundle if and only if source calls are non-negative, histograms are lists of plain integers, copy entries are plain integers naming experts or -1, and descriptors are objects |
| ReplayMeta.EncodedButNotLoaded | tools/moonep/model_replay_meta.py:684-751 | four replays, one per check, that are encoded and then never load |
| KernelAttribution.ModelOperatorOrder | tools/moonep/model_flow.py:137-163 | the loops yield the 55 operators of the closed form in order, and the final count check never fails |
| KernelAttribution.OccurrenceIs | tools/moonep/model_flow.py:141-151 | an operator's occurrence is the number of earlier operators of its stage |
| KernelAttribution.CallsInProgramOrder | tools/moonep/model_flow.py:73-89 | in each layout every call starts at the launch behind those of all calls before it |
| KernelAttribution.SplitCharged | tools/moonep/model_flow.py:967-1021 | the index tables charge every call with exactly its own launches, for all seven layouts |
| KernelAttribution.TimeConserved | tools/moonep/model_flow.py:942-947 | the launches of an iteration are charged once each |
| KernelAttribution.Classify | tools/moonep/model_flow.py:956-1026 | accepts exactly the known launch counts and sorts rows into kernels, in the order that DurationsAre states |
| KernelAttribution.DurationsAre | tools/moonep/model_flow.py:925-930 | the durations of a kernel keep profile order: each matching row is entry number of matching rows before it, and there are no others |
| KernelAttribution.ParseKernelRows | tools/moonep/model_flow.py:950-1066 | every operator, in program order, gets its kernel name, its launches per call and in every iteration the time of exactly its launches |
| KernelAttribution.ChargedRows | tools/moonep/model_flow.py:925-1066 | each operator is charged, in each iteration, with the rows of its kernel that follow those of all earlier iterations and all earlier operators, and with the sum of their durations |
| KernelAttribution.ReportConserved | tools/moonep/model_flow.py:1028-1066 | per iteration and kernel the charged times add up to the times of all launches |

## Left out

- DataAsFlagReceive.CheckAndRecv: rounding of the float flag sum is not modelled, and null addresses are left out.
- DataAsFlag.Send: null addresses are left out.
- RouteReplay.HeapPop: the heap is the set of its items, so the array order inside heapq is not modelled.
- SlotAssignments.ReferenceSlotAssignments: says nothing when the buffer size handed in differs from the plan's.
- Udma.QueuePair.PostSend: field packing of entries into 64-byte blocks is not modelled; a block is an entry together with its index.
- Udma.QueuePair.FlushQpDoorbell: the checks of arguments, peer rank and queue index before it reaches the queue pair are not modelled.
- Udma.QueuePair.CompletionFrontier: the registry and rank checks that make it return 0 are not modelled.
- Udma.QueuePair.DrainToFrontier: the registry and rank checks before its range checks are not modelled.
- ReplayMeta.BuildMeta: the source rank and call noted beside each unique route are not modelled. The checks of performance records and of private data, which can also refuse, are not modelled.
- ReplayMeta.Materialize: the checks of the route contract and of performance records are not modelled.
- UDMA registry and region range checks, profile get and put wrappers: only easy branch-level members.
- The nested token and topk loops of the planner's encoding are one loop over routes.
- Host-side setup in src/comm, IPC memory, SDMA and chip tables: wrappers around runtime calls.
- Pipeline events, cache maintenance and memory ordering below whole-block copies.
- Deadlock freedom of flag waits across different magics: it depends on kernels that are not part of this model.
- Progress of the rendezvous and connections as such; that a rank registers only once is `FirstReportCounts`.
- Provenance, performance records and the cache directory protocol of the model replay.
- Expert computation, checksums, tolerance comparison, launchers, reports and visualisation.
