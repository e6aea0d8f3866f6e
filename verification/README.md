# A verified model of the out-of-order core

The simulator runs a speculative, reordering RV32IM core: instructions are renamed onto reorder-buffer tags, execute
out of order, recover early from mispredicted branches, and reach memory through a load/store queue, a committed-store
buffer and a non-blocking write-back data cache. The in-order model in `golden/` says what a program means. This project
models the core, its queues and its memory in Dafny and proves that the speculative machine delivers what the in-order
model delivers: same registers after the same number of commits, same pcs, same memory at the end.

The model has five layers.

1. **The speculative machine** (`Core*.dfy`). A state machine over values. Fetch takes any prediction; when an
   instruction issues, when a result leaves its unit, which results get the bus and when memory is read or written is
   left open, so one theorem covers every latency, width, queue size and arbitration. Arithmetic is a parameter of the
   configuration. `CoreInv` is the invariant, `CoreRun` proves that every step keeps it, `CoreTheorems`, `CoreSafety`,
   `CoreProgress` and `CoreResolve` draw the consequences, `Golden` ties them to the in-order program loop.
2. **The components as classes** over arrays and rings: reorder buffer, alias table, checkpoints, reservation stations,
   load/store queue with store buffer, bus arbiter, execution pipes, return-address stack. Each is proved against a
   sequence, map or queue.
3. **The processor over its components** (`Processor*.dfy`). The class holds the components and the instruction table;
   every method is proved to be a step, or a run of steps, of the speculative machine on the state the components stand
   for. `ProcessorCycle` says how far each stage of a cycle goes, as functions of the machine, and `ProcessorTick` puts
   the stages and whole programs together, so the theorems of layer 1 hold of the classes: `Simulate` ends with the
   golden registers and memory.
4. **The data cache and DRAM** (`Cache*.dfy`, `DataCache`, `MemorySystem`). A state machine of miss registers, waiters,
   write-backs, fills and drains, proved to be a flat memory over every run, with conservation of requests, progress and
   the final flush; the classes are proved against it.
5. **The core over the cache** (`Cached*.dfy`, `CacheOrder`). Loads and stores go through the cache over one request
   port, stores are acknowledged in any order the cache produces, and every state of the core is still one the core
   reaches over a plain memory.

In-order execution, the golden model and the pipeline share the functions for arithmetic, addresses and byte lanes;
`IsaMeaning` says what those compute, by ranges, congruences and single bytes.

Conventions. A word is a signed 32-bit integer, memory words are four byte lanes with a mask. `Tag(head, cap, i)` is the
reorder-buffer tag of the entry `i` places younger than the head, `Age` its inverse. `RunN(c, a, n)` is in-order execution
of `n` instructions. A `lemma` about a run quantifies over every schedule of steps; a `requires Domain(…)` is the domain
of the commit theorem: control instructions name no destination, and stores on the in-order path stay inside memory.

## Model

| member | source | states |
|---|---|---|
| CoreTheorems.CommitRefinement | src/processor.cpp:1268-1326 | in every reachable state the register file, and the pc of the next instruction to commit, are those of in-order execution after as many instructions as have committed |
| CoreTheorems.FinishedIsFinal | src/processor.cpp:1379-1393 | when nothing is fetched, in flight or buffered and the fetch pc is outside the program, registers and every memory word are the final in-order ones, and in-order execution has stopped too |
| CoreTheorems.MemoryRefinement | src/load_store_queue.cpp:454-488 | main memory with the store buffer written over it is, at every moment, the in-order memory after the committed instructions and the done ones at the head |
| CoreTheorems.PathInvariant | src/processor.cpp:294-342 | every in-flight instruction is the program's at its pc, and its predicted next pc if unresolved, its actual next pc if resolved, is the pc of the instruction after it, or of the front end, or the fetch pc |
| CoreTheorems.LoadValue | src/load_store_queue.cpp:191-335 | a load's value on the bus is the one a flat memory with all program-older stores applied in order gives, on right and wrong paths alike; what a load makes of its word's bytes is stated by `IsaMeaning.LoadReadsItsBytes` |
| CoreTheorems.FlatByte | src/load_store_queue.cpp:216-240 | each byte of that flat memory is the youngest older in-flight store's that covers it, and otherwise committed memory's |
| CoreTheorems.OnTrackLoad | src/load_store_queue.cpp:426-452 | on the in-order path a load's value is what in-order execution loads, with its bytes extended as `IsaMeaning.LoadReadsItsBytes` says |
| IsaMeaning.LoadReadsItsBytes | src/load_store_queue.cpp:86-110 | a load's low bytes are its own bytes of memory; a signed byte is in -128..127 and an unsigned one in 0..255, likewise for halfwords, and a halfword at the last byte of a word is that byte, zero-extended either way |
| IsaMeaning.StoreWritesItsBytes | src/load_store_queue.cpp:30-84 | a store writes the low bytes of its value, in order, to its own one, two or four bytes of memory, and changes no other byte |
| IsaMeaning.LoadAfterStore | src/load_store_queue.cpp:51-110 | a load of the size and address of a store brings back the low bytes stored |
| IsaMeaning.WordAfterStore | src/load_store_queue.cpp:51-110 | whole words come back as they were stored, in word-addressed and in byte-addressed memory, and other words are untouched |
| IsaMeaning.AddressSplits | src/load_store_queue.cpp:16-46 | an access lies in one memory word, whose index and byte place make up the address modulo 2^32 |
| IsaMeaning.DivTruncates | golden/golden_model.cpp:80-81 | DIV's remainder is smaller than the divisor and has the sign of the dividend, except for the overflowing pair, which gives -2^31; it is the M extension's quotient |
| IsaMeaning.AluWraps | golden/golden_model.cpp:74-83 | sums, differences and products are exact modulo 2^32, and dividing by zero gives zero |
| IsaMeaning.Wraps | golden/golden_model.cpp:74-83 | a wrapped value differs from the exact one by a multiple of 2^32, which with its range determines it |
| IsaMeaning.NextPcWraps | golden/golden_model.cpp:72-95 | a taken jump goes to its sign-extended immediate and everything else to pc + 4, both modulo 2^64 |
| IsaMeaning.RegisterFile | golden/golden_model.cpp:38-46 | a register reads what was last written to it; register 0 and numbers outside the file read zero |
| CoreTheorems.RenameInvariant | src/rat_checkpoints.cpp:15-46 | the alias table names exactly the youngest in-flight writer of each register; every in-flight control instruction, and nothing else, has a live checkpoint, naming the youngest writers no younger than it |
| CoreTheorems.OperandCapture | src/processor.cpp:249-292 | each source of an unfinished instruction is its in-order value or a wait on the tag of its youngest older writer, still in flight, whose wake-up is registered if it is done; the stations hold the same operands |
| CoreTheorems.NoStaleWait | src/processor.cpp:1349-1363 | once a cycle's wake-ups are applied, a waiting source waits for an older instruction that is not done, so no tag retires under a waiter |
| CoreTheorems.InstructionsConserved | src/processor.cpp:1328-1343 | renamed instructions are the committed, the squashed and those in flight, and ids rise with age |
| CoreSafety.RecoveryIsExact | src/processor.cpp:399-468 | a misprediction leaves exactly the branch and what is older in flight, stations, results, wake-ups and checkpoints, all unchanged, and the rename map just after the branch, from a checkpoint that always exists |
| CoreSafety.StoresInProgramOrder | src/processor.cpp:361-397 | the stores handed to the buffer over any run are the in-order stores of the committed and done instructions, in program order, with in-order addresses and data |
| CoreSafety.BufferIsQueue | src/load_store_queue.cpp:454-488 | the buffer is always what has been handed over less a prefix that has been drained |
| CoreSafety.StoreNeverSquashed | src/processor.cpp:387-397 | a store that has been handed over is squashed by no continuation: it stays in flight in its place until it commits |
| CoreResolve.OldestFirstRecoversOnce | src/processor.cpp:1064-1087 | resolving a cycle's branch outputs in age order recovers exactly once if one of them was mispredicted, at the oldest such branch, and otherwise never |
| CoreResolve.ResolveAllRuns | src/processor.cpp:1064-1087 | the resolve bus of a cycle is a run of single resolutions, each output at most once |
| CoreResolve.YoungestFirstRecoversTwice | src/processor.cpp:1066-1069 | the order matters: with a younger wrong branch resolved before an older one the same cycle recovers twice |
| CoreResolve.InsertKeepsOrder | src/processor.cpp:1066-1069 | an output sorted in by age keeps the outputs in age order |
| CoreResolve.AllTaken | src/processor.cpp:1064-1087 | after the bus's cycle no branch result that was on it is left in a unit: each was resolved, or squashed by an older one |
| CoreResolve.RightWay | src/processor.cpp:294-342 | a prediction counts as right exactly if it had the branch's direction and fetch went on where the program does |
| CoreProgress.HeadProgress | src/processor.cpp:930-1043 | from every reachable state the oldest instruction can be driven to commit if and only if it is not a STORE of data register 0 |
| CoreProgress.StuckForGood | src/processor.cpp:640-650 | that case is reachable: a one-instruction program whose STORE names data register 0 is renamed and then nothing ever commits, though in-order execution goes on |
| CoreProgress.NeverStuck | src/processor.cpp:1395-1399 | if no such store is executed, from every reachable state some schedule finishes the program |
| Golden.GoldenModel.Run | golden/golden_model.cpp:58-106 | the golden loop leaves the state of as many golden steps as it counts, each of them at a pc with code, and stops only at the step limit or outside the program |
| Golden.StepAgrees | golden/golden_model.cpp:70-103 | one golden step and one in-order step of the machine's instruction set agree on registers, memory and pc |
| Golden.RunsAgree | golden/golden_model.cpp:58-106 | so do whole runs |
| Golden.CommitsMatchGolden | golden/golden_model.cpp:58-106 | after k commits, whatever the schedule, the registers are the golden registers after k steps, and the next pc to commit is golden's |
| Golden.FinishMatchesGolden | golden/golden_model.cpp:58-106 | a finished run has the registers and the whole memory of the golden run, which has stopped as well |
| ProcessorTick.Simulate | src/processor.cpp:1395-1399 | a processor built and ticked through any cycles ticks until it is finished or they are used up, has at every end the golden registers for its commit count, and once finished the golden registers and memory for good |
| ProcessorTick.Tick | src/processor.cpp:1349-1377 | one cycle of the processor class is the cycle `CycleIs` describes, every stage in its order and going as far as it can, is a run of the speculative machine's steps, and recovers exactly once if a branch result on the bus was predicted wrongly and otherwise not at all |
| ProcessorTick.LeadsToGolden | golden/golden_model.cpp:58-106 | any state the machine reaches from reset has the golden registers, and the golden memory once finished |
| ProcessorTick.CommitStage | src/processor.cpp:1268-1326 | permitted stores leave, and then as many instructions retire as are done at the head, up to the width: afterwards the width has been used up or the head cannot commit |
| ProcessorTick.WritebackStage | src/processor.cpp:1050-1134 | memory's cycle, then every branch result that is out, oldest first, then the granted broadcasts one by one, all as steps of the machine, with a recovery exactly if one was predicted wrongly |
| ProcessorTick.IssueInstruction | src/processor.cpp:930-1043 | a ready instruction is always in the table and unissued, so the stale-entry guard never fires; it is sent to its unit exactly if that has room, as the machine's issue step |
| ProcessorTick.Run | src/processor.cpp:1395-1399 | the loop ticks, one cycle after another, until the end state or the last cycle, never beginning a cycle in a finished state, and reports the end exactly if it is reached |
| ProcessorTick.MemoryCycle | src/load_store_queue.cpp:426-489 | every load counts down and reads memory in its time, as many buffered stores are sent as there are ports, and exactly those due are written |
| ProcessorTick.ResolveBus | src/processor.cpp:1064-1087 | the branch results of the units that are out are all taken, oldest first, and none is left in its unit |
| ProcessorTick.GrantAll | src/processor.cpp:1106-1130 | each grant broadcasts its result, if that is still in flight and not a branch's, or its load, if the slot offers one, and does nothing else |
| ProcessorTick.AddressScan | src/processor.cpp:942-965 | after the scan every memory instruction whose base is known has its address, and nothing else has changed |
| ProcessorTick.IssueReady | src/processor.cpp:967-1020 | all instructions waiting with both operands are offered, each once, and exactly those with room are issued |
| ProcessorTick.DispatchLoads | src/processor.cpp:1022-1042 | the oldest loads that may start do, up to the width |
| ProcessorTick.IssueStage | src/processor.cpp:893-927 | waiting instructions are renamed in order until the width is used up, none is left, or the next does not fit |
| ProcessorTick.FetchStage | src/processor.cpp:836-861 | fetch follows the predictions as long as there is code |
| ProcessorCycle.RetiredCount | src/processor.cpp:1272-1326 | the number retired is the smaller of the width and the number of done instructions at the head |
| Processor.Processor.TryRenameOne | src/processor.cpp:492-657 | rename through ROB, LSQ or stations, alias table and checkpoints is the machine's rename step exactly when the ROB and the structure the instruction waits in have a free entry, and changes nothing otherwise |
| Processor.Processor.CommitOne | src/processor.cpp:1268-1326 | retiring the ROB head through all structures is the machine's commit step, exactly when the head is done |
| Processor.Processor.EarlyRecover | src/processor.cpp:399-468 | dropping the younger instructions from table, ROB, stations, queue, units, wake-ups and checkpoints is the machine's recovery |
| Processor.Processor.ResolveBranch | src/processor.cpp:294-342 | consuming a branch output is the machine's resolve step, and it recovers exactly on a misprediction |
| Processor.Processor.ResolveStage | src/processor.cpp:1064-1087 | the outputs are taken in ROB age order and at most one recovers, exactly if one was predicted wrongly |
| Processor.Processor.GrantFu | src/processor.cpp:344-359 | a granted functional-unit result is the machine's broadcast step |
| Processor.Processor.GrantLoad | src/load_store_queue.cpp:566-575 | a granted load is the machine's load broadcast, with the queue entry released |
| Processor.Processor.DispatchOneLoad | src/processor.cpp:1022-1042 | the queue's search by age over unordered slots is the machine's forwarding in program order, and the load starts exactly when the machine allows it and, without forwarding, no older store to its word is left in the queue |
| Processor.Processor.TickMemory | src/load_store_queue.cpp:426-489 | a cycle of the queue is a run of the machine's load fills and store drains, with exactly the loads and stores whose count has ended |
| Processor.Processor.ProcessStoreBuffer | src/processor.cpp:387-397 | the permission walk and the hand-over to the buffer are, store by store, the machine's enqueue steps, from the oldest permitted store to the first that is not ready or for which ports or buffer have no room |
| Processor.Processor.StoreCommitPermissions | src/processor.cpp:361-385 | the tags granted are exactly those of the waiting stores the walk reaches over done entries and waiting stores, up to the width and to the first branch known to be wrong; a waiting head store is always among them |
| Processor.Processor.ApplyWakeups | src/processor.cpp:1353-1359 | applying the registered results one after another to stations, table and queue is the machine's start of cycle |
| Processor.Processor.ComputeAddress | src/processor.cpp:942-965 | the address scan computes an address exactly when the machine can, as its address step |
| Processor.Processor.IssueOne | src/processor.cpp:985-1012 | issue is the machine's issue step |
| Processor.Processor.FetchOne | src/processor.cpp:836-861 | fetch with any prediction is the machine's fetch step, exactly while there is code at the fetch pc |
| Processor.Processor.IsFinished | src/processor.cpp:1379-1393 | the code's test for the end holds exactly in the machine's finished states |
| ProcessorStages.HandedIs | src/processor.cpp:387-397 | handing over slot by slot gives the machine that handing over its oldest permitted stores gives |
| ProcessorStages.QueuedAre | src/load_store_queue.cpp:146-169 | the queue holds an entry for exactly the loads in flight and the stores not yet handed over |
| ProcessorStages.StartableIs | src/load_store_queue.cpp:200-335 | the queue starts a load exactly when the machine may, with forwarding and without |
| ProcessorState.PlacingIsRename | src/processor.cpp:492-657 | placing an instruction in every structure gives the machine's renamed state and keeps table and structures in agreement |
| ProcessorSteps.RetiringIsCommit | src/processor.cpp:1268-1326 | retiring it everywhere gives the machine's state after commit and keeps the agreement |
| ProcessorSteps.RecoveringIsRecover | src/processor.cpp:399-468 | dropping what is younger everywhere gives the machine's recovered state and keeps the agreement |
| ProcessorSteps.GrantIsBroadcast | src/processor.cpp:344-359 | a result written to the ROB and registered as a wake-up gives the machine's state after broadcast |
| ProcessorMemory.QueueInProgramOrder | src/load_store_queue.cpp:216-240 | in every state of the processor the queue's slots hold exactly the machine's older stores, and their ids give the program order |
| ProcessorMemory.BlockedAlike | src/load_store_queue.cpp:216-244 | the scan finds no unknown older store exactly if the machine has none |
| ProcessorMemory.DispatchingIs | src/load_store_queue.cpp:191-335 | what the scan starts a load with is the machine's dispatch step |
| ProcessorMemory.TickRun | src/load_store_queue.cpp:426-489 | a cycle of loads and drains over the processor's state is a run of the machine |
| ProcessorMemory.OffersInTime | src/load_store_queue.cpp:266-452 | a dispatched load is offered exactly once its latency has passed, with what it forwarded laid over the memory of its last waiting cycle |
| ProcessorStores.HandOverRun | src/load_store_queue.cpp:337-370 | handing over permitted stores, up to ports, buffer room and the first that is not known, is a run of the machine's enqueue steps |
| ProcessorWake.WokenTwice | src/processor.cpp:1353-1357 | waking by one result and then by the others is waking by all of them |
| ReorderBuffer.ReorderBuffer.Dispatch | src/reorder_buffer.cpp:13-32 | appends an entry, whose tag is the one after the youngest, or refuses when full |
| ReorderBuffer.ReorderBuffer.Undispatch | src/reorder_buffer.cpp:34-43 | takes back the youngest entry, and only that |
| ReorderBuffer.ReorderBuffer.Commit | src/reorder_buffer.cpp:57-77 | removes the oldest entry exactly when it is done |
| ReorderBuffer.ReorderBuffer.SquashYoungerThan | src/reorder_buffer.cpp:104-129 | keeps exactly the prefix up to the given tag and counts what went |
| ReorderBuffer.AgeIsDistance | src/reorder_buffer.cpp:95-98 | the ring's modular age is the distance from the head |
| ReorderBuffer.BeyondAll | src/reorder_buffer.cpp:104-129 | the sweep counts exactly the live slots beyond the tag, across the wrap |
| RenameTables.RegisterAliasTable.RestoreStateScrub | src/register_alias_table.cpp:41-51 | restores a map with freed tags, and register 0, cleared |
| RenameTables.RatCheckpoints.OnCommitClear | src/rat_checkpoints.cpp:30-40 | a committing tag leaves every live checkpoint at its register, and nothing else changes |
| RenameTables.RatCheckpoints.Restore | src/rat_checkpoints.cpp:22-28 | gives the saved map exactly when the tag's checkpoint is live |
| ReservationStation.ReservationStation.UpdateFromCDB | src/reservation_station.cpp:53-66 | a broadcast wakes every waiting operand of its tag in every station and no other |
| ReservationStation.ReadyIdsAre | src/reservation_station.cpp:77-85 | the instructions offered are exactly those with both operands ready |
| ReservationStation.ReadyIdsOnce | src/reservation_station.cpp:77-85 | and each is offered once |
| ReservationStation.ReservationStation.SquashInstIds | src/reservation_station.cpp:96-100 | frees exactly the squashed instructions' stations |
| LoadStoreQueue.DispatchIsForward | src/load_store_queue.cpp:216-264 | the slot search by instruction age laid over the store buffer is forwarding from buffer and older stores in program order, byte for byte |
| LoadStoreQueue.YoungestIsGreatest | src/load_store_queue.cpp:216-240 | each byte comes from the youngest older store that covers it |
| LoadStoreQueue.LoadStoreQueue.DispatchLoad | src/load_store_queue.cpp:191-335 | a load starts exactly when its address is known and no older store blocks it, with the bytes of the youngest older stores over the buffer |
| LoadStoreQueue.LoadStoreQueue.EnqueueStores | src/load_store_queue.cpp:337-370 | permitted stores move to the end of the buffer in order until one cannot go, and leave the queue |
| LoadStoreQueue.LoadStoreQueue.Tick | src/load_store_queue.cpp:426-489 | loads read memory as it was before this cycle's stores; the oldest waiting stores are sent, as many as there are ports, and exactly the buffered stores whose count has ended are written, the oldest ones, in order |
| LoadStoreQueue.LoadStoreQueue.IssueStores | src/load_store_queue.cpp:372-399 | as many of the oldest waiting stores as there are ports, and no others, start their way to memory |
| LoadStoreQueue.DueInTime | src/load_store_queue.cpp:391-478 | a store that has been sent is written in the cycle its latency ends |
| LoadStoreQueue.OldestDue | src/load_store_queue.cpp:466-478 | stores never overtake: the first slot found due is the oldest left |
| CdbArbiter.GrantsRequested | src/cdb_arbiter.cpp:33-87 | grants are requesting lanes, each once |
| CdbArbiter.GrantsNumber | src/cdb_arbiter.cpp:33-87 | as many lanes are granted as request, up to the bus width |
| CdbArbiter.Fair | src/cdb_arbiter.cpp:33-87 | a lane that keeps requesting is granted within as many calls as the lanes divided by the width, rounded up |
| CdbArbiter.WaitsItsTurn | src/cdb_arbiter.cpp:33-87 | with every lane requesting, a call moves the pointer on by the width and no further, so the last lane waits |
| CdbArbiter.CdbArbiter.SelectGrants | src/cdb_arbiter.cpp:33-87 | the class grants what the round robin from its pointer grants; a granted lane puts its held beat on the bus, or its live one if it holds none; a lane is ready exactly if it holds nothing or was granted |
| ExecutionEngine.LaneIsQueue | src/execution_engine.cpp:175-189 | a pipe with its bus lane is a queue: every result comes out once, in order, unless squashed |
| ExecutionEngine.LaneStepIsQueue | src/execution_engine.cpp:291-302 | each event of a cycle, and a held beat is always the frozen live output |
| ExecutionEngine.SquashFilters | src/execution_engine.cpp:315-327 | recovery takes exactly the squashed tags out of the pipes |
| ExecutionEngine.ExecutionEngine.IssueInstruction | src/execution_engine.cpp:211-246 | an instruction enters the first unit of its kind that has room, as the stage `StageIsCompute` describes, exactly if there is one |
| ExecutionEngine.ReachesOutput | src/execution_engine.cpp:175-189 | in a pipe whose outputs are taken an instruction moves one stage a cycle, so it is the output after its latency |
| ExecutionEngine.StageIsCompute | src/execution_engine.cpp:112-134 | the stage carries the value in-order execution computes under the tag issued; branches, and only they, go to a branch unit and stay off the bus |
| MExtension.MulhExact | src/execution_engine.cpp:29-32 | MULH joined with MUL is the exact signed product, for all words |
| MExtension.MulhsuExact | src/execution_engine.cpp:33-37 | MULHSU joined with MUL is the exact mixed product |
| MExtension.MulhuExact | src/execution_engine.cpp:38-41 | MULHU joined with MUL is the exact unsigned product |
| MExtension.ProductsFit | src/execution_engine.cpp:25-41 | the 64-bit intermediate products never overflow |
| MExtension.DivRem | src/execution_engine.cpp:42-55 | division identity, remainder bound and sign, and the fixed results for a zero divisor and for overflow, sections 7.1 and 7.2 of the RISC-V Unprivileged ISA manual 20191213 |
| MExtension.DivuRemu | src/execution_engine.cpp:47-59 | the same for the unsigned operations |
| ReturnAddressStack.HoldsTheTop | src/return_address_stack.cpp:7-26 | after any pushes and pops the bounded stack is the top of an unbounded one driven the same way |
| ReturnAddressStack.PopIsTop | src/return_address_stack.cpp:16-26 | while it is not empty, a pop gives what the unbounded stack would give |
| ReturnAddressStack.NoOverflow | src/return_address_stack.cpp:7-14 | without overflow the two stacks are the same |
| ReturnAddressStack.ReturnAddressStack.SpeculateAndRestore | src/return_address_stack.cpp:40-62 | restoring a full snapshot undoes any intervening operations, wherever those had driven the stack |
| CacheRun.FlatMemory | src/mem/dcache.cpp:185-486 | every step of cache and DRAM keeps the invariant, a store taken changes one masked word of the flat memory, and everything else changes none |
| MemTypes.StoreBytes | src/mem/dcache.cpp:145-152 | a store to a line changes the bytes of its strobe in its own word, and no others |
| CacheTheorems.RunIsFlatMemory | src/mem/dcache.cpp:185-298 | over every run the cache is a flat memory to which the requests are applied in the order the pipes take them |
| CacheTheorems.LoadReply | src/mem/dcache.cpp:421-464 | a load's reply is the flat memory's word at some moment between its acceptance and the reply |
| CacheMiss.NoStaleFill | src/mem/dcache.cpp:300-312 | when a fill of a line is sent no newer copy of that line waits to be written back |
| CacheConserve.RequestsConserved | src/mem/dcache.cpp:174-498 | over every run, requests held and accepted are exactly those answered and still held: none lost, doubled or answered twice |
| CacheDrain.StepWorks | src/mem/dcache.cpp:412-464 | no step of the cache's own adds to the work left, and those that do something take some off |
| CacheCycle.CycleFalls | src/mem/memory_system.cpp:140-148 | with no new requests and the instruction cache idle, a cycle takes work off until none is left |
| CacheCycle.DrainTerminates | src/mem/memory_system.cpp:140-148 | so after finitely many cycles no pipe, hit delay or miss register is in use |
| CacheCycle.CycleLeads | src/mem/memory_system.cpp:140-148 | a cycle is a run of the steps, whether or not the instruction side reads a line in it |
| CacheFlush.FlushIsFlat | src/mem/dcache.cpp:64-84 | writing back the dirty lines of a quiet cache makes main memory the flat memory |
| DataCache.DCache.ProcessPipes | src/mem/dcache.cpp:185-298 | the class processes its pipes as the steps do, with the store-to-load shadow never differing from the line |
| DataCache.DCache.StepOneDrain | src/mem/dcache.cpp:421-464 | one waiter is answered for each cycle, from one register at a time |
| DataCache.DCache.CompleteOneFill | src/mem/dcache.cpp:385-410 | the filled line with the waiting stores applied becomes resident |
| MemorySystem.DramSimple.Tick | src/mem/dram_simple.cpp:20-39 | every slot counts down, and writes memory when its count ends |
| MemorySystem.CachedMemorySystem.Tick | src/mem/memory_system.cpp:104-148 | a tick of the class is the cycle of the state machine, a run of its steps, with the instruction side idle and with it reading a line, which it may do exactly if the cache wants nothing and a slot is free |
| MemorySystem.CachedMemorySystem.WritebackDirty | src/mem/dcache.cpp:64-84 | main memory ends as the flat memory the cache stood for, and in the cache only the dirty marks are cleared |
| CacheOrder.PortOwes | src/mem/dcache.cpp:185-298 | a store taken comes last among the unanswered stores to its line, and nothing else changes what is owed |
| CacheOrder.DrainOwes | src/mem/dcache.cpp:421-464 | answering a waiter keeps the order of what is owed |
| CacheOrder.TakeOwes | src/mem/dcache.cpp:488-498 | a store's reply answers the oldest unanswered store to its line |
| CachedModel.SameAddress | src/load_store_queue.cpp:112-115 | the cache looks an access up at the line and place of the core's memory word |
| CachedTheorems.LinkedIsCore | src/load_store_queue.cpp:372-424 | with stores and loads going through the cache over one port, every state of the core is one it reaches over a plain memory |
| CachedTheorems.LoadOverCache | src/load_store_queue.cpp:491-517 | a load that is ready over the cache offers the value of a flat memory with all older stores applied in order, though the queue forwards from unacknowledged stores and the word was read cycles earlier; its bytes are extended as `IsaMeaning.LoadReadsItsBytes` says |
| CachedTheorems.FinishedOverCache | src/processor.cpp:1379-1393 | once the core has finished, registers and the memory the cache stands for are the final in-order ones, whatever is unacknowledged |
| CachedTheorems.ReplyReachesItsLoad | src/load_store_queue.cpp:491-517 | a load's reply completes the very load in flight that sent the request, with its in-order value, or, that load squashed, changes nothing, whoever has its slot |
| CachedTheorems.LinkStepKeeps | src/load_store_queue.cpp:372-517 | every step of queue, port and cache keeps main memory equal to the cache's flat memory and every waiting load's reply right |
| CachedStores.AnsweredIsOldest | src/load_store_queue.cpp:508-514 | the store a reply acknowledges is the oldest unacknowledged one to its line |
| CachedStores.EchoGone | src/load_store_queue.cpp:246-264 | so what the queue can still forward from acknowledged slots' survivors agrees with memory |
| CachedLoads.OfferIsRight | src/load_store_queue.cpp:491-506 | the value offered is the one the core's own load broadcast carries |

## Left out

- `CALL` and `RET`: recovery restores the return-address stack as it was before the branch's own push or pop
  (src/processor.cpp:428, 1196), and the stack is bounded while the golden one is not, so the commit theorem is about
  programs without them. The bounded stack itself is proved in `ReturnAddressStack`.
- Decoded micro-operations (hex programs): the commit theorem is stated for the nine trace opcodes, with the arithmetic
  of the units a parameter of the configuration; link results of jumps on the bus, NOPs dropped at rename and
  `decode.cpp` are not modelled. Byte-addressed memory, sub-word accesses and sign extension are.
- Unknown opcodes, and control instructions that name a destination: the first write their destination, the second would
  be renamed (src/processor.cpp:640); `Domain` excludes the latter.
- Stores outside memory on the in-order path: golden drops them, the queue forwards them; `Domain` excludes them. Loads
  outside memory, and any access on a wrong path, are included. Over the cache, `CachedModel` sends a load only if its
  word address is not negative: a negative address of a word-addressed program wraps to another word there.
- A misaligned access is modelled as the code treats it, within its word; that golden would do the same is only claimed
  for whole words.
- Arbitration between the units: which results are out of their units, which get the bus, which units have room and what
  fetch predicts are arbitrary. `Cycle` in `ProcessorCycle` is one cycle's choice of them; the length of its guesses is how
  far fetch gets, which in the code ends at a taken prediction or a full fetch queue.
- The functional units and the arbiter inside `Processor`: there they are the set of results in flight; their classes are
  proved in `ExecutionEngine` and `CdbArbiter` on their own. On queue lanes, which are re-sorted at every call
  (src/load_store_queue.cpp:538), a load could sit on two lanes; in the core each load is broadcast once.
- ProcessorTick.Tick: the fetch queue, the decode register and the instruction cache are one sequence, `front`, and the
  prediction tables are not modelled; the cycle uses the ideal data memory, and `CachedTheorems` states the cached memory
  for the core as a state machine, not for the processor class.
- CachedTheorems.LinkedIsCore: one request port; with several ports the order of requests is the one in which the pipes
  are processed. Stores carry a running number where the code sends their buffer slot, which is free again only after the
  answer.
- `flushLoads` and dropped waiters, and writing back dirty lines while a miss is outstanding.
- The instruction cache: to the DRAM model it is another client that only reads.
- Processor.Processor.GrantFu: asks that the result be of an instruction that does not go to memory; in reachable states
  every result in a unit is, and `ProcessorTick.BeatFacts` says so.
- Processor.Processor.EarlyRecover: the return-address stack, the predictor's history, the fetch buffer and the
  front-end stall flags it also resets are not part of the state.
- The order in which a cycle walks the instruction table, where the code's order is that of a hash map.
- The 16-bit wrap of the queue's age counter, which orders bus lanes and memory requests only; instruction ids are
  unbounded.
- Integers in the register file are 32-bit signed and wrap; loads, stores and lanes are bytes. `int` overflow of the
  host is taken to wrap.
- `syncOperands`, `peekReadyInstruction`, `flushSpeculative` and `reset` members, statistics, printing, loaders and the
  command line.
