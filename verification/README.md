# ldx: verified models of its hardest parts

This project states and proves what eight components of the repository promise.  Each
component is modelled from its code, branch by branch, and the main results are statements
over all inputs, all interleavings or all reachable states.

| component | source | files |
|---|---|---|
| shared-memory collectives | `mpi/shmcomm.cpp` | `CollectiveModel`, `CollectiveInvariant`, `CollectiveSteps`, `CollectiveTheorems`, `CollectiveProgress` |
| byte rings, halo exchange, direct exchange, arena | `mpi/shmcomm.cpp` | `Ring`, `Exchange`, `ExchangeProgress`, `RingExchange`, `RingProgress`, `HaloPlan`, `HaloExchange`, `DirectHalo`, `DirectProgress`, `DirectLoop`, `DirectLoopProgress`, `DirectExchange`, `Arena` |
| C-to-Verilog conversion | `python/c2v.py` | `C2VModel`, `C2VProof`, `C2VSimulation`, `C2VTheorems`, `C2VFlat`, `C2VLimits` |
| SHA-style round generator | `asic/cells/gen_round.py`, `asic/cells/*.sp` | `NclCells`, `NclAsync`, `GenRound`, `GenRoundTheorem`, `GenRoundRails`, `GenRoundGates`, `GenRoundAsync` |
| allocation census | `mpi/memprof.c` | `Memprof`, `MemprofRuns`, `MemprofExact`, `MemprofTables` |
| RISC-V call-site rewriter | `python/riscv_rewrite.py` | `RiscV`, `RiscVRewrite`, `RiscVWords` |
| pass-by-value packets | `src/ldx_pbv.c` | `Pbv`, `PbvTheorem`, `PbvCodec` |
| topology registry | `src/ldx_registry.c` | `Registry`, `RegistryTable` |

`Bytes`, `Bits` and `ModMath` hold the byte type, bitwise operators on natural numbers, and
facts about remainders.  `dafny verify dfyconfig.toml` checks everything.

## How things are modelled

**Concurrency.**  Ranks, producers, consumers and receivers are deterministic step functions
over a shared state.  One step is one load, one store or one element of a copy, and a run is
the sequence of who gets to step.  The release and acquire pairs in the source order exactly
the accesses that the model orders, so steps of this size are sequentially consistent.  Every
safety statement is about `Run` of an arbitrary schedule.

**Collectives.**  Payload arithmetic is uninterpreted: addition and comparison are arbitrary
functions, so a result "in rank order" cannot be rearranged.  The only hypothesis on the
callers is that ranks that agree on op and count of a broadcast agree on its root, which the
protocol does not check; agreement on op and count is not assumed but concluded.

**Rings in the exchange.**  `Exchange` takes a push or a pop of any positive amount as one
step.  `RingExchange` runs the same progress loops over the rings themselves, one load, byte
copy or store at a time, and proves that every such run is a run of `Exchange`.  A visit takes
effect when it publishes its counter; one that moves nothing takes effect when it looks, which
for a pop is before it returns.  `HaloExchange` builds the loops from consistent plans, so what
`HaloPlan` says of one exchange holds of the ranks that carry it out over the rings.  Popped
bytes are collected per peer, and put into the receive buffer when the exchange is over.

**Direct exchange.**  `DirectHalo` is one sender with any number of receivers.  Everybody else
who uses the sender's arena slice is an adversary that may take, overwrite and give back any
block it holds, at any time.  `DirectLoop` puts one such sender on every rank and runs all
ranks' progress loops, one load, byte copy or store at a time, each rank in an exchange of its
own; a transfer has something left as long as its epoch is not published or acknowledged.
`DirectExchange` builds the loops from consistent plans, as `HaloExchange` does for the rings.

**C2V.**  C values are typed 32-bit patterns.  Signed overflow wraps, a variable without an
initialiser starts at 0, and other undefined behaviour has no value.  The fragment (`BodyOk`) is:
declarations, assignments, compound assignments, array elements at indices that the tables
resolve to a constant, blocks and counted loops of at most 1024 iterations that hide no visible
name and do not assign their counter, and a body that ends in `return` or in `if`/`else` whose
branches return and whose first branch assigns nothing visible outside.  After a loop that has
run, its counter is `stale`: it may be assigned but not read.  The trees carry no signedness, so
ordering needs an unsigned common type and right shift an unsigned left operand.

Outside the fragment the trees need not be right.  `C2VFlat` is what they compute instead, for
every program: a machine with one cell per name, in which a loop leaves its counter at the last
value, a block restores nothing, both branches run, and what is not unrolled or not resolved
does not happen (`TreeComputesFlatRun`, without preconditions).  So a tree is right exactly where
that machine agrees with C (`RightExactly`), and `C2VLimits` works that out for each restriction:
signedness, counters, hidden names, leaking branches, loops that are not unrolled, indices that
are not resolved; a body that assigns its counter has only the general statement.

**Generator.**  An emitted netlist is a list of cell instances.  `NclCells` gives each cell
as the threshold gates of its subcircuit, with hysteresis.  `GenRoundRails` runs the whole
round on rails, through null and data waves, from any gate state, gates in list order.
`NclAsync` lets inputs change and gates fire one at a time and in any order, and
`GenRoundAsync` does the same with all gates of the round.

**Census.**  The tables are compared with a ledger (which pointers are live) and a log
(every block ever tracked).  A full table makes the source drop an entry but keep its bytes;
the equations name those bytes instead of assuming that it does not happen.
`CompleteExactlyWhenFits` says when it does not happen, and `CensusExact` when the totals are
right although it does.  Callers must pass pointers other than null and all-ones, and must not
track a pointer that is still live.

**Rewriter.**  `Fits` says that the text section lies inside the file.  The two maps from
addresses to names are merged before the scan; the model starts from the merged map.  A second
scan finds nothing if both replacement words are `Passive` (a 32-bit instruction, neither a
linking `jal` nor an `auipc`) and the first is not a `jalr` either (`Inert`); `RiscVWords` shows
that no other words will do.

**Packets.**  The payload block's initial content is a parameter, because the code leaves
bytes of it unwritten (null pointers, values wider than eight bytes).  A read beyond the
payload and a ninth buffer, which the code does not guard against, are the outcomes `Overrun`
and `TooMany`.  An allocation never fails, also of zero bytes, and sizes do not exceed the
address space.

**Registry.**  A function whose owner id names no shard when it is set is `stray`: it is in
no list, and stays so even when a shard with that id is added later.  All other functions are
listed exactly once.

## Model

| member | source | states |
|---|---|---|
| `CollectiveTheorems.CollectiveCorrect` | mpi/shmcomm.cpp:375-443 | in every interleaving, a rank that has returned from its k-th collective got the rank-order fold of the k-th contributions, or the root's buffer, and all ranks agreed on op and count |
| `CollectiveTheorems.GenerationWindow` | mpi/shmcomm.cpp:324-351 | every slot's generation is the result line's or one more, and the "ran ahead" and result mismatch aborts are unreachable; a slot mismatch abort means a real divergence |
| `CollectiveTheorems.DivergenceContained` | mpi/shmcomm.cpp:399-441 | if two ranks differ in op or count at index k, no rank ever returns from its k-th collective |
| `CollectiveTheorems.NoDataRace` | mpi/shmcomm.cpp:389-441 | one rank at a time writes the result line, nobody reads it meanwhile, and no slot is written while the writer reads it |
| `CollectiveTheorems.CombineSlots` | mpi/shmcomm.cpp:353-371 | the combining loop computes the left fold of the slots in rank order |
| `CollectiveSteps.StepKeeps` | mpi/shmcomm.cpp:375-443 | every step of every rank keeps the protocol invariant |
| `CollectiveSteps.ReachableInv` | mpi/shmcomm.cpp:375-443 | the invariant holds in every reachable state |
| `CollectiveSteps.OneWriter` | mpi/shmcomm.cpp:399 | ranks that agree on op and count agree on who writes the result |
| `CollectiveSteps.CollectedAgree` | mpi/shmcomm.cpp:400-410 | a writer that has passed all checks knows that all ranks agree |
| `CollectiveSteps.OwnerExcludes` | mpi/shmcomm.cpp:411-425 | while one rank owns the result line all others wait for it |
| `CollectiveSteps.ConsumerSeesLine` | mpi/shmcomm.cpp:428-441 | a waiting rank that proceeds sees its own collective's line, complete |
| `CollectiveProgress.EffectiveStepsFall` | mpi/shmcomm.cpp:375-443 | a measure of what is left, never negative: no step raises it, and every step of an unfinished rank that is not a spin lowers it |
| `CollectiveProgress.OnlyWaitersSpin` | mpi/shmcomm.cpp:324-351 | a rank without an effective step is waiting for a stamp that is not there yet, or has aborted |
| `CollectiveProgress.LaggardMoves` | mpi/shmcomm.cpp:389-397 | a rank that has not published yet can move |
| `CollectiveProgress.WriterMoves` | mpi/shmcomm.cpp:399-427 | once all have published the writer can move |
| `CollectiveProgress.NoDeadlock` | mpi/shmcomm.cpp:375-443 | in every reachable state with an unfinished rank some unfinished rank has an effective step |
| `CollectiveProgress.CanComplete` | mpi/shmcomm.cpp:375-443 | every reachable state can be continued until all ranks have returned, within the measure |
| `CollectiveProgress.EnabledStays` | mpi/shmcomm.cpp:324-351 | a rank that can move can still do so after any step of any other rank |
| `CollectiveProgress.FairStretchProgresses` | mpi/shmcomm.cpp:375-443 | every stretch of a schedule in which each rank has a turn lowers the measure |
| `CollectiveProgress.FairRunsComplete` | mpi/shmcomm.cpp:375-443 | every schedule of as many such stretches as the measure brings all ranks through |
| `CollectiveProgress.Completes` | mpi/shmcomm.cpp:375-443 | under every fair schedule, agreeing streams of any length complete, and each rank returns the rank-order fold or the root's buffer |
| `Ring.WrappedDifference` | mpi/shmcomm.cpp:289-322 | the unsigned difference of wrapped counters is the true difference |
| `Ring.CellIsModular` | mpi/shmcomm.cpp:296-301 | the two-part copy puts byte i into the cell of counter c + i |
| `Ring.StepKeeps` | mpi/shmcomm.cpp:289-322 | every micro-step of either side keeps the ring invariant, with stale snapshots of the other side's counter |
| `Ring.ReachableInv` | mpi/shmcomm.cpp:289-322 | the invariant holds in every interleaving |
| `Ring.StepRefinesQueue` | mpi/shmcomm.cpp:289-322 | on the bytes in flight a step is nothing, an append of a prefix of what was offered, or the removal of a prefix |
| `Ring.PoppedIsPrefix` | mpi/shmcomm.cpp:289-322 | bytes popped are a prefix of bytes pushed and the counters are at most the capacity apart |
| `Ring.CopiesAreDisjoint` | mpi/shmcomm.cpp:296-320 | the cells being written differ from the cells being read |
| `Ring.PushAccepts` | mpi/shmcomm.cpp:291-295 | a push is refused exactly when the ring is full as it looks, and otherwise takes all it sees room for |
| `Ring.PopTakes` | mpi/shmcomm.cpp:309-313 | a pop finds nothing exactly when the ring was empty as it looked, and otherwise takes all it saw |
| `Ring.SpscRing.Push` | mpi/shmcomm.cpp:289-304 | appends as many bytes as there is room for, in place, in up to two copies |
| `Ring.SpscRing.Pop` | mpi/shmcomm.cpp:307-322 | delivers the next bytes in order, up to the number wanted |
| `Ring.SpscRing.constructor` | mpi/shmcomm.cpp:289-322 | a new ring is empty |
| `Exchange.StepKeeps` | mpi/shmcomm.cpp:893-962 | every step of every rank's progress loop conserves the bytes of every pair's stream |
| `Exchange.RunKeeps` | mpi/shmcomm.cpp:893-962 | conservation holds after every schedule |
| `Exchange.ArrivedIsData` | mpi/shmcomm.cpp:946-949 | when all bytes are there, they are the message |
| `Exchange.MessagesArriveWhole` | mpi/shmcomm.cpp:893-962 | the e-th message taken from a rank is the e-th it sent, although ranks may be in different exchanges and rings carry no boundaries |
| `ExchangeProgress.StepNoMore` | mpi/shmcomm.cpp:893-962 | no step adds to the bytes left to push plus left to pop plus exchanges left |
| `ExchangeProgress.VisitMoves` | mpi/shmcomm.cpp:900-950 | visiting a transfer that can move strictly lowers what is left |
| `ExchangeProgress.ReceiverServed` | mpi/shmcomm.cpp:893-962 | a rank furthest behind that still wants bytes can get them, or their sender can push |
| `ExchangeProgress.SenderServed` | mpi/shmcomm.cpp:893-962 | a rank furthest behind that still has bytes can push them, or their receiver can pop |
| `ExchangeProgress.NoDeadlock` | mpi/shmcomm.cpp:893-962 | in every reachable unfinished state some rank can move, for any number of ranks and any capacity of at least one byte |
| `ExchangeProgress.RipeStays` | mpi/shmcomm.cpp:893-962 | what a rank is able to do, no other rank can undo |
| `ExchangeProgress.RipeAdvances` | mpi/shmcomm.cpp:893-962 | the rank's own steps bring it there |
| `ExchangeProgress.FairStretchProgresses` | mpi/shmcomm.cpp:893-962 | every fair stretch of a schedule makes progress |
| `ExchangeProgress.FairRunsEnd` | mpi/shmcomm.cpp:893-962 | every schedule with enough fair stretches finishes all exchanges on all ranks |
| `RingExchange.PushLink` | mpi/shmcomm.cpp:289-304 | a load, copy or store of a push changes nothing on the queue until the push returns, and then the queue has gained what it accepted, at least one byte unless the ring was full as it looked |
| `RingExchange.PopLink` | mpi/shmcomm.cpp:307-322 | likewise a pop; one that finds nothing has looked at an empty ring, although bytes may have arrived by the time it returns |
| `RingExchange.StepSimulates` | mpi/shmcomm.cpp:893-962 | every load, copy and store of any rank's progress loop over the rings is one step of the exchange over queues, or none |
| `RingExchange.RingsRefineQueues` | mpi/shmcomm.cpp:893-962 | every interleaving of loads, copies and stores is some interleaving of whole visits |
| `RingExchange.MessagesArriveWhole` | mpi/shmcomm.cpp:893-962 | so messages arrive whole and in order in every interleaving of loads and stores |
| `RingProgress.OwnPatience` | mpi/shmcomm.cpp:289-322 | every step of a rank without effect brings its next effect nearer |
| `RingProgress.OtherRank` | mpi/shmcomm.cpp:289-322 | no other rank's step touches what that depends on |
| `RingProgress.RunServes` | mpi/shmcomm.cpp:893-962 | a rank takes at most capacity + 5 steps for every visit it makes, and capacity + 4 more, whatever the others do |
| `RingProgress.FairRunsEnd` | mpi/shmcomm.cpp:893-962 | every fair schedule of loads, copies and stores finishes all exchanges on all ranks |
| `HaloPlan.Capture` | mpi/shmcomm.cpp:809-822 | accepts a destination list if and only if it is in range and grouped, and then yields its runs |
| `HaloPlan.CaptureItem` | mpi/shmcomm.cpp:813-820 | one turn of that loop |
| `HaloPlan.ReceiveBlocks` | mpi/shmcomm.cpp:839-844 | recovers the length of the receive plan from its total; what it cuts off is empty |
| `HaloPlan.ExportTiles` | mpi/shmcomm.cpp:874-882 | the export layout covers the export buffer once, one stretch per rank |
| `HaloPlan.ImportTiles` | mpi/shmcomm.cpp:864-873 | the import layout covers the import buffer once |
| `HaloPlan.OffsetsFit` | mpi/shmcomm.cpp:854-873 | the running 32-bit offset stays in range at every block if and only if the whole import buffer is shorter than 2^31 bytes |
| `HaloPlan.ReceivedAt` | mpi/shmcomm.cpp:861-891 | every stretch ends up with its rank's message, and what lies before the first and behind the last is untouched |
| `HaloPlan.SentBack` | mpi/shmcomm.cpp:861-891 | after a forward exchange a rank would send back exactly what it was sent |
| `HaloPlan.ReverseUndoesForward` | mpi/shmcomm.cpp:838-891 | forward then reverse is the identity on every export buffer, self block included |
| `HaloPlan.CapturedPlanIsValid` | mpi/shmcomm.cpp:838-891 | layouts derived from a captured list form a valid plan |
| `HaloExchange.HaloWorldWellFormed` | mpi/shmcomm.cpp:861-882 | transfers taken from consistent plans put both ends of every message into the progress loops |
| `HaloExchange.ExchangesDeliver` | mpi/shmcomm.cpp:838-962 | in every interleaving over the rings, a rank that is through with an exchange has in its receive buffer what the plans say |
| `HaloExchange.RoundTripOverRings` | mpi/shmcomm.cpp:838-962 | a forward exchange and a reverse exchange of what it brought give every rank its export buffer back, over the rings |
| `HaloExchange.ExchangesEnd` | mpi/shmcomm.cpp:893-962 | every fair schedule carries out any sequence of forward and reverse exchanges of consistent plans |
| `DirectHalo.StepKeeps` | mpi/shmcomm.cpp:883-949 | every step of the sender, a receiver or another arena user keeps the invariant |
| `DirectHalo.ReachableInv` | mpi/shmcomm.cpp:741-765 | the invariant holds in every reachable state |
| `DirectHalo.DirectSafe` | mpi/shmcomm.cpp:883-949 | published minus acknowledged epoch is 0 or 1, and each epoch's bytes arrive once, in order, unchanged |
| `DirectHalo.StagingStable` | mpi/shmcomm.cpp:741-765 | while an epoch is in flight nobody's step changes its staged bytes, its descriptor or who holds its block |
| `DirectProgress.StepProgress` | mpi/shmcomm.cpp:883-949 | no step adds to what a pair has left to do, and every effective step of the pair itself lowers it |
| `DirectProgress.NoDeadlock` | mpi/shmcomm.cpp:900-945 | in every reachable state a pair with an unacknowledged epoch has an effective step: the receiver's while the epoch is in flight, else the sender's |
| `DirectProgress.EffectiveRunsEnd` | mpi/shmcomm.cpp:883-949 | every run with enough effective steps of a pair acknowledges all its epochs |
| `DirectLoop.EpochsAgree` | mpi/shmcomm.cpp:883-886 | the epoch counters of both ends of a pair agree after every exchange, although nobody compares them |
| `DirectLoop.StepKeeps` | mpi/shmcomm.cpp:883-962 | every load, copy and store of any rank's direct-mode progress loop keeps the invariant of all arenas and of all pairs |
| `DirectLoop.RunKeeps` | mpi/shmcomm.cpp:883-962 | the invariant holds after every schedule of ranks and other arena users |
| `DirectLoop.MessagesArriveWhole` | mpi/shmcomm.cpp:883-962 | what a rank takes from another in exchange e is what that one sends it in exchange e, although the ranks may be in different exchanges |
| `DirectLoop.NoSizeMismatch` | mpi/shmcomm.cpp:933-940 | the size mismatch abort is unreachable |
| `DirectLoopProgress.DoNoMore` | mpi/shmcomm.cpp:883-962 | no step of anybody adds to the steps left on all channels plus exchanges left |
| `DirectLoopProgress.VisitMoves` | mpi/shmcomm.cpp:900-945 | a visit that finds the previous epoch acknowledged, or the next one published, lowers it |
| `DirectLoopProgress.ReceiverServed` | mpi/shmcomm.cpp:883-962 | a rank furthest behind that waits for an epoch can take it, or its sender can publish it |
| `DirectLoopProgress.SenderServed` | mpi/shmcomm.cpp:883-962 | a rank furthest behind that has an epoch to publish finds everything earlier acknowledged |
| `DirectLoopProgress.NoDeadlock` | mpi/shmcomm.cpp:883-962 | in every reachable unfinished state some rank can publish, take or move on |
| `DirectLoopProgress.RipeStays` | mpi/shmcomm.cpp:883-962 | what a rank is able to do, nobody else can undo |
| `DirectLoopProgress.RipeAdvances` | mpi/shmcomm.cpp:883-962 | the rank's own steps bring it there |
| `DirectLoopProgress.FairStretchProgresses` | mpi/shmcomm.cpp:883-962 | every fair stretch of a schedule makes progress |
| `DirectLoopProgress.FairRunsEnd` | mpi/shmcomm.cpp:883-962 | every schedule with enough fair stretches finishes all exchanges on all ranks, whatever other arena users do |
| `DirectExchange.LoopOnce` | mpi/shmcomm.cpp:861-882 | a progress loop has one send and one receive for every other rank that its layouts have bytes for, and no others |
| `DirectExchange.DirectWorld` | mpi/shmcomm.cpp:861-886 | consistent plans make both ends of every pair count the same epochs |
| `DirectExchange.ExchangesDeliver` | mpi/shmcomm.cpp:838-962 | in every interleaving, a rank that is through with a direct exchange has in its receive buffer what the plans say |
| `DirectExchange.RoundTripDirect` | mpi/shmcomm.cpp:838-962 | a direct forward exchange and a reverse exchange of what it brought give every rank its export buffer back |
| `DirectExchange.ExchangesEnd` | mpi/shmcomm.cpp:838-962 | every fair schedule carries out any sequence of direct forward and reverse exchanges, and ends with what the plans say in every receive buffer |
| `Arena.AcceptsExactlyWhatFits` | mpi/shmcomm.cpp:156-163 | without wrap-around the size test accepts a block if and only if it fits |
| `Arena.WrapAcceptsWrongly` | mpi/shmcomm.cpp:156-167 | exactly which sizes near 2^64 pass the test for a new block although it does not fit |
| `Arena.CallServesWrongly` | mpi/shmcomm.cpp:154-168 | exactly which calls hand out too small a block or one past the slice, the free lists included |
| `Arena.ReusedTooSmall` | mpi/shmcomm.cpp:157-162 | a request near 2^64 served with a listed block of no bytes, although a new one would be refused |
| `Arena.CarveOutcome` | mpi/shmcomm.cpp:163-167 | carving with a wrapped bump pointer keeps the layout if and only if the block ends inside the slice |
| `Arena.LaidDisjoint` | mpi/shmcomm.cpp:163-167 | carved blocks and their headers are aligned and pairwise disjoint |
| `Arena.BumpIsSum` | mpi/shmcomm.cpp:163-167 | the bump pointer is the sum of all headers and sizes carved |
| `Arena.TakeKeeps` | mpi/shmcomm.cpp:157-162 | taking a block off its stack keeps every block either live or on one stack, once |
| `Arena.PutKeeps` | mpi/shmcomm.cpp:175-178 | putting a block back keeps that |
| `Arena.CarveKeeps` | mpi/shmcomm.cpp:163-167 | carving a block keeps that |
| `Arena.Allocator.Alloc` | mpi/shmcomm.cpp:154-168 | for every request: the last freed block of the rounded size, else a new one, else nothing; the arena stays valid if and only if no block is carved past the slice, and without wrap-around the block is large enough and was not live |
| `Arena.Allocator.Free` | mpi/shmcomm.cpp:175-178 | puts a live block on top of the stack of its size |
| `Arena.Allocator.Reuse` | mpi/shmcomm.cpp:157-162 | hands out the block freed last among those of the size, and leaves the others |
| `Arena.Allocator.Carve` | mpi/shmcomm.cpp:163-167 | writes a header at the bump pointer and moves it past the block, modulo 2^64; valid if and only if the block ends inside the slice |
| `Arena.Allocator.BlocksDisjoint` | mpi/shmcomm.cpp:154-178 | in every valid state any two carved blocks are disjoint, aligned and inside the slice |
| `Arena.Allocator.constructor` | mpi/shmcomm.cpp:145-148 | a new arena has nothing carved |
| `C2VTheorems.ConversionCorrect` | python/c2v.py:200-243 | for every function of the fragment and all inputs, the tree evaluates to what the C function returns, and no loop is cut short |
| `C2VTheorems.BodySim` | python/c2v.py:554-568 | the same for a body with nested closing `if`s |
| `C2VTheorems.MuxPicks` | python/c2v.py:554-568 | the multiplexer picks the branch that C takes |
| `C2VTheorems.BodyWrites` | python/c2v.py:260-378 | walking a body changes the tables only at names it declares or assigns |
| `C2VFlat.ExprComputes` | python/c2v.py:417-519 | every expression's tree computes the expression's value on the flat machine, and is a constant exactly if the machine knows the value as one |
| `C2VFlat.WalkDescribes` | python/c2v.py:260-378 | walking any statement keeps the tables a description of the flat machine, at every name |
| `C2VFlat.BodyComputes` | python/c2v.py:554-568 | the tree of any body computes the body's value on the flat machine |
| `C2VFlat.TreeComputesFlatRun` | python/c2v.py:200-243 | for every function and all inputs, without any side condition, the tree computes what the flat machine does |
| `C2VLimits.RightExactly` | python/c2v.py:260-378 | the trees are right, at every visible name, if and only if the flat machine agrees with the C store |
| `C2VLimits.FragmentAgrees` | python/c2v.py:260-378 | in the fragment it agrees at every name that no loop has stepped |
| `C2VLimits.LastLoopDecides` | python/c2v.py:570-624 | a name last written by a loop that runs ends one before the loop's end |
| `C2VLimits.SignedOrderExact` | python/c2v.py:417-519 | ordering two signed operands is right if and only if their signs agree |
| `C2VLimits.SignedShiftExact` | python/c2v.py:417-519 | shifting a signed operand right is right if and only if it is not negative or the count is zero |
| `C2VLimits.CounterOneBehind` | python/c2v.py:570-624 | after a loop that runs the table has the counter one behind C; the counter's tree is right after a loop if and only if the loop does not run and the tree had the start value |
| `C2VLimits.LongLoopExact` | python/c2v.py:570-624 | after a loop that is not unrolled, because it has no turns or more than 1024, the trees are right if and only if it leaves every value as it was |
| `C2VLimits.UnknownWriteExact` | python/c2v.py:260-378 | after an assignment to an element at an index that is not a constant, the trees are right if and only if the element had that value already |
| `C2VLimits.UnknownReadExact` | python/c2v.py:417-519 | an element read at an index that is not a constant is a word of an input of the array's name: right if and only if the element equals that input at index 0, and is zero elsewhere |
| `C2VLimits.HidingKeepsInner` | python/c2v.py:260-378 | what the table keeps of a hidden name is the flat machine's value, which is the block's last inner value unless a loop has stepped the name |
| `C2VLimits.LeaveAgrees` | python/c2v.py:260-378 | the flat machine agrees with the store after leaving a scope if and only if it has the outer values of the hidden names and the inner values of all others |
| `C2VLimits.HidingExact` | python/c2v.py:260-378 | for every block of every program, counters included, the trees are right after it if and only if the flat machine ends with every hidden name at the value it hid and every other name at its value in C |
| `C2VLimits.HidingInFragment` | python/c2v.py:260-378 | in the fragment but for hiding, if and only if it ends so at the hidden names and at the counters that loops have stepped |
| `C2VLimits.HiddenNameExact` | python/c2v.py:260-378 | for one hidden name of any block, C has the outer value back, and the tree is right if and only if the flat machine's value equals it |
| `C2VLimits.HiddenCounterExact` | python/c2v.py:570-624 | for a hidden name last written by a loop that runs, if and only if the hidden value is one less than the loop's end |
| `C2VLimits.ShadowingMiscompiles` | python/c2v.py:260-378 | a program with an inner declaration of a visible name: C returns 1, the tree 2 |
| `C2VLimits.HiddenCounterMiscompiles` | python/c2v.py:570-624 | a program whose loop counter hides a visible name: C returns 5, the tree 0 |
| `C2VLimits.LeakExact` | python/c2v.py:554-568 | for every first branch of every program, counters included, the trees that the `else` branch is walked with are right at the `if` if and only if the flat machine, run through the first branch, ends with every visible name at its value |
| `C2VLimits.LeakInFragment` | python/c2v.py:554-568 | in the fragment but for leaking, if and only if the first branch leaves every visible name as it was in C, counters counting with their last value |
| `C2VLimits.LeakedCounterExact` | python/c2v.py:554-568 | for a name last written by a loop of the first branch that runs, if and only if its value is one less than the loop's end |
| `C2VLimits.LeakSequences` | python/c2v.py:554-568 | for all branches of every program, the tree of the `else` branch is what the flat machine computes after the statements of the first |
| `C2VLimits.LeakSequencesInC` | python/c2v.py:554-568 | in the fragment, what C would compute |
| `C2VLimits.LeakMiscompiles` | python/c2v.py:554-568 | a program whose first branch assigns a visible name: C returns 1, the tree 2 |
| `C2VLimits.LeakedCounterMiscompiles` | python/c2v.py:554-568 | a program whose first branch steps a visible counter: C returns 5, the tree 0 |
| `C2VTheorems.Converter.WalkStmt` | python/c2v.py:260-378 | one statement updates the tables as the walk function says |
| `C2VTheorems.Converter.WalkBody` | python/c2v.py:260-378 | all statements in order |
| `C2VTheorems.Converter.HandleFor` | python/c2v.py:570-624 | the unrolling loop binds the counter to each constant and walks the body |
| `C2VTheorems.Converter.Convert` | python/c2v.py:200-243 | the tables and the tree of a function body |
| `C2VTheorems.Converter.ConvertFunction` | python/c2v.py:200-243 | the tree of a function of the fragment evaluates to what C returns, for all inputs |
| `C2VSimulation.StmtSim` | python/c2v.py:260-378 | after every statement, every variable's and element's tree has its value in the C execution |
| `C2VSimulation.AllSim` | python/c2v.py:260-378 | the same for a statement list |
| `C2VSimulation.BlockSim` | python/c2v.py:260-378 | the same for a block, whose names go out of scope |
| `C2VSimulation.UnrollSim` | python/c2v.py:570-624 | unrolling follows iteration whenever each turn keeps a relation at the loop head |
| `C2VSimulation.ForSim` | python/c2v.py:570-624 | walking the body once per constant follows executing the loop |
| `C2VProof.ExprSim` | python/c2v.py:417-519 | an expression's tree has the expression's value |
| `C2VProof.LazySim` | python/c2v.py:417-519 | operators agree, including the short circuits whose second operand may have no value |
| `NclCells.DataPhase` | asic/cells/ncl_logic.sp:34-70 | from reset, a cell's gates settle to the dual-rail form of its Boolean function |
| `NclCells.NullPhase` | asic/cells/th_gates.sp:40-61 | null inputs bring null outputs and reset every gate, from any state |
| `NclCells.DataWave` | asic/cells/gen_round.py:63-119 | rails that carry the inputs of an ordered netlist settle to rails that carry its outputs |
| `NclCells.NullWave` | asic/cells/gen_round.py:63-119 | a null wave resets every gate of a netlist |
| `NclAsync.FiresAsGate` | asic/cells/th_gates.sp:13-118 | a gate that fires alone does what the cells' threshold gates do, hysteresis included |
| `NclAsync.DataWaveAnyOrder` | asic/cells/th_gates.sp:13-118 | in every netlist without cycles, inputs arriving and gates firing in any order from reset: nothing rises that is not up in the end, nothing falls, and every fair order ends in the state that list order gives |
| `NclAsync.NullWaveAnyOrder` | asic/cells/th_gates.sp:13-118 | from any state, inputs and gates falling in any fair order bring everything down |
| `NclAsync.NullWaveOnlyFalls` | asic/cells/th_gates.sp:13-118 | no rail rises during a null wave from a settled state |
| `GenRound.EmitBlock` | asic/cells/gen_round.py:63-119 | the emitting loops yield one instance per bit, in bit order |
| `GenRound.RotrBit` | asic/cells/gen_round.py:37-39 | rotation moves bit i + n to bit i around the word |
| `GenRound.MaskIsMod` | asic/cells/gen_round.py:34-35 | masking is reduction modulo 2^w |
| `GenRound.FlatRun` | asic/cells/gen_round.py:63-100 | output bit j of a sigma, choose or majority block is its cell's function of the input pins |
| `GenRound.AddRun` | asic/cells/gen_round.py:102-119 | the ripple adder's sum plus weighted carry-out is the sum of its inputs and carry-in |
| `GenRound.FlatOrdered` | asic/cells/gen_round.py:63-100 | the carry-free blocks are evaluated in order |
| `GenRound.AddOrdered` | asic/cells/gen_round.py:102-119 | so is the adder, carry by carry |
| `GenRoundTheorem.SigmaLine` | asic/cells/gen_round.py:142-148 | a sigma line drives its net with the reference's sigma |
| `GenRoundTheorem.ChLine` | asic/cells/gen_round.py:149-154 | the choose line drives its net with the reference's choose |
| `GenRoundTheorem.MajLine` | asic/cells/gen_round.py:155-160 | the majority line drives its net with the reference's majority |
| `GenRoundTheorem.AddLine` | asic/cells/gen_round.py:162-185 | an adder line drives its net with the sum and carry-in, masked |
| `GenRoundTheorem.LineCorrect` | asic/cells/gen_round.py:121-189 | every line keeps the nets before it correct and drives its own correctly |
| `GenRoundTheorem.RoundComputesReference` | asic/cells/gen_round.py:41-56 | for every width and all inputs, with carry-in 0, the emitted round drives its outputs with `sha_round` |
| `GenRoundRails.NullWaveResets` | asic/cells/gen_round.py:121-189 | a null wave resets every gate of the round |
| `GenRoundRails.DataWaveCarries` | asic/cells/gen_round.py:121-189 | a data wave from reset makes every net carry its bits on rails |
| `GenRoundRails.CycleComputesReference` | asic/cells/gen_round.py:121-189 | from any gate state, a null wave and a data wave put `sha_round` on the output rails |
| `GenRoundGates.CellHas` | asic/cells/ncl_logic.sp:34-70 | in every settled state a cell's outputs carry its Boolean function of its inputs |
| `GenRoundGates.RoundHas` | asic/cells/gen_round.py:121-189 | in every settled state of all gates of the round, every net carries what the netlist computes |
| `GenRoundAsync.RoundAcyclic` | asic/cells/gen_round.py:121-189 | the gates of the round, across cells, bits and lines, form no cycle, for every width |
| `GenRoundAsync.SettledIsReference` | asic/cells/gen_round.py:41-56 | the settled gates carry `sha_round` on the output rails |
| `GenRoundAsync.CycleAnyOrder` | asic/cells/gen_round.py:121-189 | from any state, with inputs changing and gates firing in any order: the null wave brings every rail down, no wrong output rail is ever up, and in the end the outputs carry `sha_round` |
| `Memprof.FindsExactlyLive` | mpi/memprof.c:95-106 | the probe for a pointer succeeds if and only if the pointer is live, and ends at its slot |
| `Memprof.StopsAtSite` | mpi/memprof.c:70-79 | the probe for a chain ends at its one site, or at a free slot |
| `Memprof.TrackKeeps` | mpi/memprof.c:62-93 | tracking keeps both tables, all totals, peaks and counts exact, whether or not a table is full |
| `Memprof.UntrackKeeps` | mpi/memprof.c:95-108 | so does untracking, and a pointer that is not live changes nothing |
| `MemprofRuns.RunHolds` | mpi/memprof.c:62-108 | in every run from the start the census is exact and its ledger lists blocks in use |
| `MemprofRuns.CompleteExactlyWhenFits` | mpi/memprof.c:35-43 | no entry is dropped if and only if the run tracks no more blocks than the live table has slots and no more chains than there are sites |
| `MemprofRuns.CensusAgreesWithAllocator` | mpi/memprof.c:62-108 | then the global and per-site totals are the bytes in use, overall and per chain |
| `MemprofExact.TotalsOverstate` | mpi/memprof.c:62-108 | in every run each total, global or per site, is the bytes in use plus the bytes of dropped blocks that were freed since |
| `MemprofExact.CensusExact` | mpi/memprof.c:62-108 | in every run a total is the bytes in use if and only if no dropped block of non-zero size has been freed since |
| `MemprofRuns.PeaksAreMaxima` | mpi/memprof.c:80-92 | each peak is the largest total of the run, and was reached |
| `MemprofTables.HashChain` | mpi/memprof.c:67-68 | the hash loop |
| `MemprofTables.WrappedProbe` | mpi/memprof.c:72 | the 32-bit sum may wrap without changing the slot |
| `MemprofTables.Profiler.FindSite` | mpi/memprof.c:71-79 | the probing loop stops at the chain's site or the first free one |
| `MemprofTables.Profiler.FindFree` | mpi/memprof.c:86-88 | the probing loop stops at the first free slot |
| `MemprofTables.Profiler.FindPointer` | mpi/memprof.c:97-106 | the probing loop stops at the pointer or the first free slot |
| `MemprofTables.Profiler.Attribute` | mpi/memprof.c:80-89 | charges a site and stores the entry, if there is room |
| `MemprofTables.Profiler.Track` | mpi/memprof.c:62-93 | updates the arrays and counters in place as the census function says, and keeps them exact |
| `MemprofTables.Profiler.Untrack` | mpi/memprof.c:95-108 | likewise; a live pointer's bytes leave the total |
| `MemprofTables.Profiler.Retire` | mpi/memprof.c:98-104 | a found entry becomes a tombstone and its bytes leave its site and the total |
| `MemprofTables.Profiler.constructor` | mpi/memprof.c:35-46 | empty tables are exact |
| `RiscV.JalRoundTrip` | python/riscv_rewrite.py:387-397 | decoding undoes the J-type encoding for every even offset in range |
| `RiscV.CustomFields` | python/riscv_rewrite.py:101-115 | every field of an encoded custom instruction comes back out |
| `RiscVRewrite.SitesInOrder` | python/riscv_rewrite.py:473-522 | the calls found are in ascending order, pairwise disjoint and inside the text |
| `RiscVRewrite.OutsideUnchanged` | python/riscv_rewrite.py:548-577 | patching changes no byte outside the calls |
| `RiscVRewrite.InsideReplaced` | python/riscv_rewrite.py:548-577 | every call is replaced by the words for its function |
| `RiscVRewrite.CustomIsInert` | python/riscv_rewrite.py:101-133 | custom instructions and the no-operation are passed over by the scan |
| `RiscVRewrite.NoNewJalr` | python/riscv_rewrite.py:503-518 | patching completes no call that was not there |
| `RiscVRewrite.RescanFindsNothing` | python/riscv_rewrite.py:473-522 | a scan of the patched text visits exactly the same offsets and finds no call |
| `RiscVWords.Disturbs` | python/riscv_rewrite.py:473-577 | for any other replacement words, a text whose second scan finds a call or goes astray |
| `RiscVWords.QuietExactly` | python/riscv_rewrite.py:473-577 | replacement words leave nothing for a second scan in every text if and only if the first is inert and the second passive |
| `RiscVRewrite.RewriteIsIdempotent` | python/riscv_rewrite.py:548-577 | rewriting twice is rewriting once |
| `RiscVRewrite.Examine` | python/riscv_rewrite.py:491-518 | what the scan finds at one 32-bit instruction |
| `RiscVRewrite.ScanOne` | python/riscv_rewrite.py:483-518 | one turn of the scan: the calls at an offset, and where to go on |
| `RiscVRewrite.FindCallSites` | python/riscv_rewrite.py:473-522 | the scan loop finds exactly the calls on its path |
| `RiscVRewrite.Rewrite` | python/riscv_rewrite.py:548-577 | patches the buffer in place, or leaves it alone in a dry run |
| `PbvTheorem.RoundTrip` | src/ldx_pbv.c:169-209 | a transportable packet gives back the low bytes of every value and a copy of every pointee, ends at the payload's end and needs at most eight buffers |
| `PbvTheorem.WalkedExactly` | src/ldx_pbv.c:115-121 | the walk reads exactly the headers written and ends at the payload's end if and only if the sizes are transportable |
| `PbvTheorem.SmallIsTransportable` | src/ldx_pbv.c:120 | every payload below 4 GiB is |
| `PbvTheorem.HugeBlockIsLost` | src/ldx_pbv.c:145-150 | a block of 4 GiB comes back empty |
| `PbvTheorem.LowIsMod` | src/ldx_pbv.c:152-154 | the low bytes of a register spell it modulo their weight |
| `PbvTheorem.DeserializesAll` | src/ldx_pbv.c:179-206 | deserializing places every record, in order |
| `PbvCodec.StrLen` | src/ldx_pbv.c:15-20 | the index of the first zero byte |
| `PbvCodec.Measure` | src/ldx_pbv.c:89-112 | the first pass computes the size of the payload |
| `PbvCodec.PutData` | src/ldx_pbv.c:152-160 | writes a value's low bytes or a pointee and nothing else |
| `PbvCodec.Fill` | src/ldx_pbv.c:123-162 | the second pass fills the block with exactly the records, end to end |
| `PbvCodec.Serialize` | src/ldx_pbv.c:85-165 | both passes together |
| `PbvCodec.TakeRecord` | src/ldx_pbv.c:180-205 | one turn of the walk |
| `PbvCodec.Deserialize` | src/ldx_pbv.c:169-209 | the walk, with its errors |
| `Registry.PlaceCounts` | src/ldx_registry.c:80-96 | placing keeps every node's counter equal to the number of its shards, also on the same node |
| `Registry.SwapRemoveIs` | src/ldx_registry.c:140-148 | removal by swapping takes out exactly the function and keeps the others, each once |
| `Registry.ListHasRoom` | src/ldx_registry.c:117-120 | the guard that would drop an entry from a full list is never taken |
| `Registry.AddFunctionLists` | src/ldx_registry.c:108-124 | adding a function keeps lists and owners in agreement |
| `Registry.MoveFunctionLists` | src/ldx_registry.c:134-158 | so does moving one |
| `Registry.StepKeeps` | src/ldx_registry.c:17-281 | so does every operation, counters included |
| `Registry.ReachableInv` | src/ldx_registry.c:10-281 | counters and lists agree with the primary fields in every reachable state |
| `Registry.CountersExact` | src/ldx_registry.c:80-96 | each node's counter is the number of shards placed on it |
| `Registry.OwnerLists` | src/ldx_registry.c:108-158 | in every reachable state each function that is not stray is in its owner's list |
| `Registry.ListedExactlyOnce` | src/ldx_registry.c:108-158 | in every reachable state what is in a shard's list is a function, not stray, owned by that shard, and in it once |
| `Registry.MigrationReroutes` | src/ldx_registry.c:255-281 | where migration leaves the shard and every route, including those it must not touch |
| `Registry.MigrationToNowhere` | src/ldx_registry.c:255-281 | migrating to a missing node takes the routes down and moves nothing |
| `RegistryTable.Table.AddNode` | src/ldx_registry.c:17-34 | adds a node, or reports that the table is full |
| `RegistryTable.Table.AddShard` | src/ldx_registry.c:52-64 | adds an unplaced shard, or reports that the table is full |
| `RegistryTable.Table.PlaceShard` | src/ldx_registry.c:80-96 | moves the shard and both counters |
| `RegistryTable.Table.AddFunction` | src/ldx_registry.c:108-124 | adds a function and, if its owner exists, always lists it there |
| `RegistryTable.Table.MoveFunction` | src/ldx_registry.c:134-158 | moves a function from list to list |
| `RegistryTable.Table.Delist` | src/ldx_registry.c:140-148 | the search and swap |
| `RegistryTable.Table.DisconnectRoutes` | src/ldx_registry.c:209-220 | exactly the shard's routes become inactive, and are counted |
| `RegistryTable.Table.ResolveRoutes` | src/ldx_registry.c:188-207 | exactly the outbound routes to shards with a host take its host and port, and are counted |
| `RegistryTable.Table.RefreshInbound` | src/ldx_registry.c:272-278 | exactly the inbound routes take the new host |
| `RegistryTable.Table.MigrateShard` | src/ldx_registry.c:255-281 | the whole migration, in place: the shard is on its node, its routes are down and follow it, all others are untouched |
| `RegistryTable.Table.constructor` | src/ldx_registry.c:10-13 | the empty registry |

## Left out

- Collectives larger than the payload limit, single-rank communicators and every other case that falls back to PMPI; payload sizes are counted in elements.
- Spin timeouts, environment switches, segment creation, the op tape, statistics, the Epetra and AztecOO interposition of `mpi/shmcomm.cpp`.
- Sequential consistency of the modelled steps is argued from the release and acquire pairs, not derived from a memory model.
- Lifetime of direct-exchange memory across the destruction of a distributor, which frees blocks without waiting for peers.
- HaloPlan.ImportTiles: offsets are unbounded, while `off` and `need` are 32-bit; `HaloPlan.OffsetsFit` says exactly when the code's offsets do not overflow, and what they are when they do is undefined in C++.
- DirectProgress.NoDeadlock: a sender that needs a larger staging block finds one; the code aborts when the arena is exhausted.
- DirectProgress.EffectiveRunsEnd: about one pair and its effective steps; `DirectLoopProgress.FairRunsEnd` is about all ranks and every fair schedule.
- DirectLoopProgress.FairRunsEnd: the arenas never run out, where the code aborts.
- Rollback of a rejected capture and the agreement collective around it.
- Division and remainder in C2V, operand widths other than 1 and 32, 64-bit and floating-point types, structs, wires, and all Verilog text emission.
- C2V statements that the converter ignores or rejects: `while`, `switch`, early returns.
- Transistor netlists, timing and the test bench of the generator; the carry-in is 0 in the round theorems, while `GenRoundTheorem.AddLine` covers both values.
- The small-allocation buckets, the report, symbol names and the allocator hooks of the census; `long long` totals do not overflow in the model.
- ELF parsing, symbol tables, the `objdump` call, reports and output files of the rewriter; the last word of the text, which the scan does not visit; whether the `auipc` target is right for backward calls, since its immediate is not sign-extended.
- RiscVRewrite.RescanFindsNothing: replacements must be an inert and a passive word; for all others the claim fails for some text (`RiscVWords.QuietExactly`).
- Packet shims, dumps, function names and return values; wrap-around of the payload size beyond 2^64.
- Registry names, ports, cores, memory and architecture of nodes, lookups by name, reconnecting routes and JSON; `AddRoute` and direct field writes exist only as functions of the model.
- x86 and ARM rewriters, GOT walking and trampolines, socket pipes and the generated syscall wrappers: foreign state or easy members.
