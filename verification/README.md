# The out-of-order engine, modelled and proved

This project models the out-of-order core of `carolyne/uarch/o3`: rename, speculation tags,
selective squash, reorder buffer, reservation stations, store buffer, and the units around
them. It proves that the core retires exactly the sequential run of the program it is given,
whatever order its instructions issue, execute, report and drain in; that a misprediction
takes back exactly what it should; and that the core never stops while work is in flight.

Every size is symbolic: reorder-buffer depth, physical registers, tags, store-buffer rows,
lanes, banks, register width. The instruction set is a parameter (`Program.Isa`, five
functions), so the results hold for every instruction set the engine is built for.

## How it is layered

1. **Blocks.** One module a block (`Tags`, `KillMask`, `Physical`, `Rename`, `Reorder`,
   `Architectural`, `Stores`, `Station`, `InOrderStation`, `OutOfOrderStation`). Each has a
   value for its registers, a function for each event, and a class whose methods loop over
   ports, lanes and rows as the block does. The methods are proved to leave what the
   functions say.
2. **Events.** `Engine` puts all the registers together and says what one event does to all
   of them: commit, report, resolve, mispredict, issue, hop, memory access, dispatch, an
   empty dispatch lane, a store going to memory. `Invariant` ties every register of every
   block to the dispatched path, and the `Keep*` modules prove that each event keeps it.
   The core also carries history fields (the path, how many have retired, and so on) that
   no step reads.
3. **Results.** `Results`, `Control`, `Tagging`, `Progress`, `Occupancy` and `LoadStore` state
   what follows in every state any run of events reaches. `Queues` adds the in-order stations'
   own pointers: it proves that a ring whose head is offered and whose tail is pulled back to
   the survivors never parts from the engine, which chooses by age; `ClockQueues` proves the
   same cycle by cycle. `Runs` shows that such runs exist: every
   program can be run to any length.
4. **Cycles.** `Cycle` defines one clock cycle from the registers it begins with: all the
   moves at once, the retiring group as the buffer stood, the dispatch bundle reading
   through the same-cycle views. The `Cycle*` modules prove that a cycle is a run of events,
   so `Clock` carries every result over to the clocked machine; `ClockEvents` proves the
   other direction, that any one event is a cycle by itself, and `ClockAdmits` that cycles
   grow a move, a lane or a whole cycle at a time. `CoreO3` is the core as a
   class over the block classes. `Wiring` reads each cycle's ports off the blocks: what
   retires, what the units report, which lanes book what, what they read, and whether the
   bundle goes. `CorePorts` proves those ports are the ones the cycle's definition names, so
   `CoreO3.Tick` and `CoreO3.OnMisPred` leave exactly the registers `Clock.AtEdge` defines.
   What they are given is what the stations and units choose: which records move, which free
   row each lane was found, and whether memory takes a store.
5. **Units and front end.** `ByteMemory` and `LoadStore` (sub-word access), `Arithmetic`
   (signed forms at every width), `Fetch` (banked memory and the fetch stage).

A bit mask is the set of its 1 bits, a one-hot value a singleton, and a ring pointer a
running count taken modulo the table's size (`Rings.Wrap`, which `Rings.WrapIsRemainder`
proves to be the remainder).

## What is assumed

- Handshakes are taken as the comments state them. In a mispredict cycle nothing dispatches,
  issues, commits, accesses memory from stage 0 or pushes a store; units still report and
  records still hop, and the head store may still go to memory. In a correct-resolve cycle
  nothing dispatches.
- A flush of a stage's arbiter also stops the handoff of the record it kills.
- Of two commit lanes that write one architectural register in a cycle, the later one wins.
- `phy > depth`: more physical registers than reorder-buffer entries, as in
  `examples/o3/rv32im/config.py:57-62`. `Occupancy.IdleLaneHarmless` says exactly why: a
  granted lane that takes no register still marks the entry at its pointer not-written, which
  loses a result if and only if no entry is free and the oldest one has been written.
- One branch station and one memory station, both in order, the branch unit with one stage
  and the memory unit with two, as in `carolyne/uarch/o3/config.py:150-180`. An in-order
  station has at least as many rows as there are lanes and feeds one unit.
- Every instruction decode produces has a unit in its station that runs its id; a unit has
  its own number of stages.
- Decode gives a branch an active destination and every instruction at most one; the
  predicted next pc is the next instruction.
- The fix table has no reset. `Tagging.KillMaskIsExact` says what holds from any power-up
  contents (exact on the open tags, which is all a kill looks at) and what more holds when
  the table starts empty (exact on every bit).

Out of order, the oldest ready row does not always go first. The row filled in the cycle that
spends the last stamp keeps that top stamp in the new epoch (`carolyne/uarch/o3/rsv_o3.py:180-207`),
so it compares as the youngest of the rows filled after it, though it is the oldest:
`OutOfOrderStation.NewestFirst` runs a two-row station to that pick, and
`OutOfOrderStation.OldestExactly` proves that, of rows no more than a wrap old, a pick is the
oldest if and only if it has the top stamp or passes over no row of its epoch that has it. The module's header
(`carolyne/uarch/o3/rsv_o3.py:24-27`) calls the order a heuristic only for rows that wait through
more than one wrap. What issues is ready either way, and no other result depends on the order.

Where code and comments differ, the code is followed. The limit noted at
`carolyne/uarch/o3/core.py:147-149` (a kill mask seeded with the newest tag only) no longer
exists: `carolyne/uarch/o3/mpft.py:72-108` seeds each row with the whole open set, and
`Tagging.KillMaskIsExact` proves the mask exact. The limit noted at
`carolyne/uarch/o3/exec_unit.py:352-354` (a record that hops in the resolve cycle keeps its
tag) is likewise gone: the overrider masks it, and `Tagging.TagHygiene` with
`Clock.EdgeIsRun` covers that cycle.

Loads and stores follow section 2.6 of the RISC-V Unprivileged ISA 20191213, multiply and
divide its sections 7.1 and 7.2, and compare and shift its section 2.4.

## Model

| member | source | states |
|---|---|---|
| Clock.ClockedRefinement | carolyne/uarch/o3/rob.py:228-304 | After any number of clock cycles from reset, the retired instructions are a prefix of the program's sequential run, the committed register file is that run's register file, and data memory is its memory at some retired point |
| Clock.ClockedIsReached | carolyne/uarch/o3/core.py:128-224 | Every state the clocked core reaches is reached by events, so all the results over events hold cycle by cycle |
| ClockEvents.EventIsEdge | carolyne/uarch/o3/core.py:92-112 | Any one enabled event is a legal cycle by itself, with the same outcome |
| ClockEvents.SameReach | carolyne/uarch/o3/core.py:92-125 | The clocked core and the event machine reach exactly the same states |
| ClockAdmits.PlanGrows | carolyne/uarch/o3/exec_unit_api.py:56-103 | Any plan of a cycle's moves takes one more record that may report, or that may go on to a place that is free or left before it |
| ClockAdmits.QuietGrows | carolyne/uarch/o3/core.py:157-187 | So does a squash cycle's, for what is no branch, no issue and no memory access |
| ClockAdmits.TickAdmitted | carolyne/uarch/o3/dispatch.py:276-298 | A plan, a group of rows that may retire together, a store that may go to memory and a bundle that fits make a cycle |
| ClockAdmits.QueuedClockGoes | carolyne/uarch/o3/rsv_ior.py:96-199 | From any state of the clocked core with its rings, any cycle whose lanes land where the ports say goes on |
| Runs.RetiresAny | carolyne/uarch/o3/core.py:92-125 | For every configuration, program and length, some run retires exactly that many instructions and comes to rest with nothing in flight |
| Runs.RestIsSequential | carolyne/uarch/o3/arf.py:72-116 | At rest every register and every memory word is the sequential machine's |
| Runs.SomeConfig | examples/o3/rv32im/config.py:53-78 | A configuration with the sizes of the shipped RV32IM core, over a program of one instruction, meets everything assumed |
| Clock.EdgeIsRun | carolyne/uarch/o3/core.py:128-224 | Any cycle the registers allow, ordinary or squash, is a run of events from the same state, and keeps the invariant |
| Clock.SquashReadsRegisters | carolyne/uarch/o3/core.py:157-187 | What a squash reads (fix table, snapshots, store buffer, tag pointer, the branch's record) is untouched by whatever reports or hops in the same cycle |
| CycleEvents.MovesAreEvents | carolyne/uarch/o3/exec_unit_api.py:56-103 | All the reports, issues, hops and memory accesses of one cycle, each worked out from the registers the cycle began with, leave what the same events leave one after another |
| CycleMoves.MoverIs | carolyne/uarch/o3/rsv.py:273-299 | A record that moves in a cycle arrives as it stood, less the tag that resolves in that very cycle, and a broadcast beside it changes nothing |
| CycleEvents.PushBeside | carolyne/uarch/o3/store_buf.py:150-177 | A store pushed in the cycle its tag resolves lands without it, as if the resolve had come first |
| CycleRetire.RetirementsAreEvents | carolyne/uarch/o3/rob.py:229-304 | The group that retires in a cycle, judged on the buffer as it stood, leaves what single retirements leave after the cycle's moves: register file, map, snapshots, free count, store marks |
| CycleRetire.DrainIsEvent | carolyne/uarch/o3/store_buf.py:301-323 | The head store may go to memory in the same cycle as a push, a resolve and a commit, and nothing of the others is lost |
| CycleLanes.SeenAlike | carolyne/uarch/o3/prf.py:210-242 | The register a lane's source names reads the same through the cycle's view (writebacks in, every promised entry cleared) as after the events of the lanes before it |
| CycleLanes.SourceAlike | carolyne/uarch/o3/dispatch.py:341-405 | A lane's source is answered alike by the views of the cycle and by the events before it, so no lane takes a stale value |
| CycleBundle.BundleIsEvents | carolyne/uarch/o3/dispatch.py:276-332 | A bundle that has room lands whole, and leaves what dispatching its lanes one by one leaves |
| CorePorts.SquashFields | carolyne/uarch/o3/core.py:154-187 | Every register after a squash cycle is what the fan-out to the blocks leaves |
| CorePorts.SquashBounds | carolyne/uarch/o3/prf.py:245-261 | What a squash hands the blocks is in range, and the rollback never frees more registers than the file has |
| CorePorts.Rooms | carolyne/uarch/o3/dispatch.py:279-298 | What a granted cycle asks of each block fits it, resolve and commits of the cycle counted |
| CorePorts.NoCollision | carolyne/uarch/o3/prf.py:141-157 | No register is written back in the cycle it is promised, so the two writes a cycle makes to the file's valid bits never name one entry |
| Wiring.RetireGroup | carolyne/uarch/o3/rob.py:228-304 | The lanes the buffer lets retire are all that may, and what they put on the committed file, the rename table, the free list and the store buffer is what the cycle's definition puts there |
| Wiring.Search | carolyne/uarch/o3/store_buf.py:185-249 | A load's word, found by the comparison tree or else read from memory, is the newest buffered store's or memory's |
| Wiring.UnitPorts | carolyne/uarch/o3/exec_unit.py:233-280 | What the units report, write back, resolve and push, record by record, is what the cycle's definition says of those moves |
| Wiring.NextPlaces | carolyne/uarch/o3/exec_unit_api.py:56-103 | Filling each place a record enters, and waking and masking each that stays, leaves the places the cycle's definition says |
| Wiring.BookBundle | carolyne/uarch/o3/dispatch.py:98-197 | Asking the allocators lane by lane promises each lane the register, tag and open set of its place in the bundle |
| Wiring.Grant | carolyne/uarch/o3/dispatch.py:276-298 | The bundle goes exactly when the buffer, the register file, the tags and the stations each have room for all of it and no tag resolves beside it; else it books nothing |
| Wiring.ReadBundle | carolyne/uarch/o3/dispatch.py:300-405 | Read through its port's rename row and the same-cycle views of both register files, every lane's record is the one the cycle's definition lands |
| CoreO3.CoreO3.constructor | carolyne/uarch/o3/core.py:61-125 | The core is built with every table empty and as wide as its configuration says |
| CoreO3.CoreO3.StartsRuns | carolyne/uarch/o3/core.py:61-125 | What the constructor leaves is a reset state, from which every run may start |
| CoreO3.CoreO3.UpdateBlocks | carolyne/uarch/o3/dispatch.py:228-272 | All the blocks take their ports at one edge, each leaving its own update of its old registers |
| CoreO3.CoreO3.DrivePorts | carolyne/uarch/o3/core.py:92-112 | The ports of an ordinary cycle, worked out from the blocks, are those of the one cycle they decide: all that may retire does, a retired head store drains when memory takes it, and the bundle goes whole or not at all |
| CoreO3.CoreO3.Tick | carolyne/uarch/o3/dispatch.py:275-298 | The blocks decide the cycle, take their ports at one edge, and leave exactly the registers the cycle's definition says, ready for the next cycle |
| CoreO3.CoreO3.RollBackBlocks | carolyne/uarch/o3/core.py:157-187 | The squash fan-out rolls every block back, the kill mask read before the fix table is rewritten |
| CoreO3.CoreO3.DriveSquash | carolyne/uarch/o3/exec_unit.py:172-210 | What the branch's record and the other units put on the wires is what the squash cycle's definition reads |
| CoreO3.CoreO3.OnMisPred | carolyne/uarch/o3/core.py:128-187 | The squash fan-out, beside the cycle's reports, leaves exactly the registers the cycle's definition says, ready for the next cycle |
| Theorems.ResetInv | carolyne/uarch/o3/rob.py:93-139 | The invariant holds at reset |
| Rings.WrapIsRemainder | carolyne/uarch/o3/rsv_ior.py:74-83 | A wrapped pointer is the remainder of its count by the table's size |
| Theorems.StepKeeps | carolyne/uarch/o3/core.py:128-224 | Every event keeps the invariant |
| Theorems.RunKeeps | carolyne/uarch/o3/core.py:128-224 | The invariant holds in every state any run of events reaches |
| Results.SequentialRefinement | carolyne/uarch/o3/rob.py:228-304 | In every reachable state the retired instructions are the sequential run's, the committed registers are its registers, and the next pc is its pc |
| Control.BranchGoes | carolyne/isa/riscv/exec_unit_br.py:34-66 | In every reachable state, a branch at its last stage mispredicts if and only if the instruction set, given the operands the program before it leaves, sends it anywhere but the next instruction, and a squash then goes there |
| Control.StepGoes | carolyne/isa/riscv/exec_unit_br.py:34-60 | The sequential machine goes on where the instruction set sends a branch with its own operands, and else to the next instruction |
| Control.OperandsAre | carolyne/uarch/o3/arf.py:83-95 | An operand is an immediate, a hardwired register's own constant, or the register's value; an empty slot gives nothing |
| Control.HardwiredSource | carolyne/uarch/o3/arf.py:83-95 | In every reachable state a source that names a hardwired register is there and holds its constant, whatever was written to it |
| Control.PlacedAlways | carolyne/uarch/o3/rsv_o3.py:295-319 | In every reachable state a waiting record is in a row its station has, and an executing one in a unit that runs its instruction |
| Results.MemoryRefinement | carolyne/uarch/o3/store_buf.py:301-323 | Data memory is always the sequential memory at some retired point, and at the latest one once no retired store waits |
| Results.RetiredForGood | carolyne/uarch/o3/rob.py:265-304 | No event takes back a retired instruction, and one event retires at most one |
| Results.SquashIsExact | carolyne/uarch/o3/exec_unit.py:315-338 | A misprediction removes exactly the records dispatched after the branch, and exactly the buffered stores after it; the declaring branch reports |
| Results.SquashKeepsPrefix | carolyne/uarch/o3/rob.py:332-343 | The reorder buffer keeps exactly the rows through the branch, unchanged but for the branch's own report |
| Results.InFlightIs | carolyne/uarch/o3/rob.py:315-343 | The rows from the commit pointer on are the in-flight instructions in program order |
| Results.RenameIsHistory | carolyne/uarch/o3/rt.py:99-130 | The rename table answers every read as the in-flight rows, replayed in order, dictate |
| Results.SnapshotIsHistory | carolyne/uarch/o3/rt.py:132-204 | Restoring an open branch's snapshot is rebuilding the table from the rows up to and including it |
| Tagging.KillMaskIsExact | carolyne/uarch/o3/mpft.py:40-114 | The row of each open tag is the open tags no younger, and its kill mask is, among the open tags, those no older |
| Tagging.TidyAlways | carolyne/uarch/o3/mpft.py:64-114 | From an empty table, rows of closed tags never hold another tag's bit, so the kill mask is exact on every bit |
| Tagging.OpenIs | carolyne/uarch/o3/mpft.py:72-88 | The row of the newest tag reads back exactly the open tags |
| Tagging.OpenGrows | carolyne/uarch/o3/mpft.py:90-109 | A booked branch adds its own tag to the open ones, and nothing else does |
| Tagging.TagHygiene | carolyne/uarch/o3/exec_unit.py:340-380 | Every record and every buffered store that still speculates carries one open tag |
| Progress.NoLostWakeup | carolyne/uarch/o3/rsv.py:301-320 | A waiting source names the register of an older instruction that writes that very architectural register, has not reported, and still has a record |
| Progress.OldestIsReady | carolyne/uarch/o3/rsv.py:134-146 | The oldest unreported instruction waits for no source |
| Progress.MemoryMoves | carolyne/isa/riscv/exec_unit_ls.py:59-112 | The memory unit moves whenever it holds the oldest instruction: the store finds room, or the head can drain |
| Progress.NeverStuck | carolyne/uarch/o3/core.py:92-125 | While anything is in flight or waits for memory, some back-end event can happen |
| Progress.Advances | carolyne/uarch/o3/exec_unit.py:291-313 | Every back-end event strictly lowers a measure of the work left |
| Progress.ComesToRest | carolyne/uarch/o3/core.py:92-125 | From any reachable state, back-end events alone retire everything and write every store, in no more steps than the measure |
| Occupancy.BufferIsOneRun | carolyne/uarch/o3/store_buf.py:146-183 | The busy rows are one run from the retire pointer to the allocation pointer, the retired ones its leading part up to the commit pointer, and full means every row is busy |
| Occupancy.SearchIsNewest | carolyne/uarch/o3/store_buf.py:185-249 | In every reachable state the comparison tree answers as the scan for the newest matching store |
| Occupancy.DrainWritesNext | carolyne/uarch/o3/store_buf.py:301-323 | Each write to memory is the next retired store of the program, whole: in order, none left out, none twice |
| Occupancy.CountMatchesPointers | carolyne/uarch/o3/rob.py:315-343 | The reorder buffer's count is the distance between its pointers, and tells full from empty |
| Occupancy.PhysicalRing | carolyne/uarch/o3/prf.py:128-207 | Free entries and in-flight destinations make up the file, and the destinations are consecutive, ending just behind the pointer |
| Occupancy.SquashReturnsRegisters | carolyne/uarch/o3/prf.py:245-261 | The rollback subtraction returns exactly the younger instructions' registers |
| Occupancy.IdleLaneHarmless | carolyne/uarch/o3/dispatch.py:232-243 | A granted lane that takes no register spares every held entry if and only if an entry is free or the oldest held one is unwritten |
| Occupancy.IdleLaneHarms | carolyne/uarch/o3/prf.py:141-157 | In a file of any size from two up, fill it from reset and write the first entry back: all are held, and such a lane clears that one |
| Occupancy.NeverFull | carolyne/uarch/o3/prf.py:183-207 | With more registers than reorder-buffer entries some entry is always free |
| Occupancy.TagRing | carolyne/uarch/o3/tag_gen.py:169-219 | The next tag is one bit that is not open, and the open tags are the consecutive rotations behind it, as many as the free count leaves |
| Occupancy.NearestBranch | carolyne/uarch/o3/tag_gen.py:95-146 | A record carries the tag of the nearest branch before it while that branch is open; a branch carries its own |
| KeepCommit.CommitKeeps | carolyne/uarch/o3/rob.py:265-304 | Retiring the oldest instruction keeps the invariant |
| KeepCommit.CommitMap | carolyne/uarch/o3/rt.py:140-167 | Dropping a mapping only while it still names the retiring register leaves the right map |
| KeepCommit.OneRegister | carolyne/uarch/o3/prf.py:128-139 | No two in-flight destinations share a physical register |
| KeepReport.ReportsResult | carolyne/uarch/o3/exec_unit.py:233-249 | What a last stage reports is what the sequential machine computes there, and where it continues |
| KeepReport.CompleteKeeps | carolyne/uarch/o3/exec_unit.py:233-249 | A report, its writeback and its broadcast keep the invariant |
| KeepResolve.OldestOpen | carolyne/uarch/o3/config.py:150-180 | A branch that reports is the oldest open one |
| KeepResolve.ResolveKeeps | carolyne/uarch/o3/core.py:190-224 | A right prediction, its tag taken off every record, row and table, keeps the invariant |
| KeepSquash.KillsYounger | carolyne/uarch/o3/rsv.py:231-238 | The kill test picks exactly the records of younger instructions |
| KeepSquash.KillsYoungerStores | carolyne/uarch/o3/store_buf.py:252-274 | The kill test picks exactly the buffered stores after the branch, and no retired one |
| KeepSquash.SurvivorCount | carolyne/uarch/o3/store_buf.py:252-274 | Counting the surviving stores finds how many of the program's stores stay buffered |
| KeepSquash.MisPredictKeeps | carolyne/uarch/o3/core.py:128-187 | A wrong prediction and the whole rollback keep the invariant |
| KeepMove.IssueKeeps | carolyne/uarch/o3/rsv.py:252-260 | An issue keeps the invariant |
| KeepMove.HopKeeps | carolyne/uarch/o3/exec_unit_api.py:56-103 | A hop to the next stage keeps the invariant |
| KeepAccess.Turn | carolyne/isa/riscv/exec_unit_ls.py:12-16 | An access takes its turn: every older store is buffered and no younger one is |
| KeepAccess.LoadSees | carolyne/uarch/o3/store_buf.py:185-249 | The newest buffered store to an address, else memory, is the word all older stores of the path leave there |
| KeepAccess.FullExactly | carolyne/uarch/o3/store_buf.py:146-148 | The full test holds exactly when every row holds a store |
| KeepAccess.AccessKeeps | carolyne/isa/riscv/exec_unit_ls.py:59-112 | A memory access, and the push of a store, keep the invariant |
| KeepAccess.DrainKeeps | carolyne/uarch/o3/store_buf.py:301-323 | Writing the head store to memory keeps the invariant |
| KeepDispatch.SourceAnswered | carolyne/uarch/o3/dispatch.py:341-405 | A source gets its sequential value when it can be read, else the register of the in-flight writer still to report |
| KeepDispatch.NextIsFree | carolyne/uarch/o3/prf.py:141-157 | The entry at the allocation pointer is no in-flight instruction's |
| KeepDispatch.DispatchKeeps | carolyne/uarch/o3/dispatch.py:228-298 | Dispatching one instruction keeps the invariant |
| KeepDispatch.EmptyLaneKeeps | carolyne/uarch/o3/dispatch.py:232-243 | A granted empty lane keeps the invariant |
| Tags.TagGen.constructor | carolyne/uarch/o3/tag_gen.py:56-93 | Reset: every tag but one is free, and the pointer is one-hot |
| Tags.TagGen.TagAfter | carolyne/uarch/o3/tag_gen.py:137-147 | The pointer rotated past the bookings of earlier lanes |
| Tags.TagGen.BookRename | carolyne/uarch/o3/tag_gen.py:95-135 | A lane is told what it would be told had the lanes before it already booked |
| Tags.TagGen.OverUse | carolyne/uarch/o3/tag_gen.py:186-211 | Over-use is signalled exactly when the asks exceed the free tags, this cycle's resolve counted |
| Tags.TagGen.Update | carolyne/uarch/o3/tag_gen.py:169-211 | A resolve returns its tag, then landed bookings take theirs; stalled asks take nothing |
| Tags.TagGen.OnMisPred | carolyne/uarch/o3/tag_gen.py:213-219 | A squash frees the pool and puts the pointer one past the branch's tag |
| KillMask.Mpft.GetFixTag | carolyne/uarch/o3/mpft.py:40-62 | The nested fold reads out the column the tag names |
| KillMask.Mpft.OnRename | carolyne/uarch/o3/mpft.py:72-109 | Every booking lane's row is the tags open before the cycle and this cycle's own so far |
| KillMask.Mpft.OnSucPred | carolyne/uarch/o3/mpft.py:111-115 | A resolved tag leaves every row |
| KillMask.Mpft.OnMisPred | carolyne/uarch/o3/mpft.py:64-67 | A squash leaves the branch's row with its own bit and empties the rest |
| Physical.Prf.constructor | carolyne/uarch/o3/prf.py:50-126 | Reset: every entry is free |
| Physical.Prf.BookRename | carolyne/uarch/o3/prf.py:128-139 | A lane is promised the entry it would get had the lanes before it already taken theirs |
| Physical.Prf.OverUse | carolyne/uarch/o3/prf.py:183-207 | Over-use is signalled exactly when the asks exceed the free entries, this cycle's commits counted |
| Physical.Prf.ReadView | carolyne/uarch/o3/prf.py:210-242 | A reader sees the cycle's writebacks, and every promised entry as not written |
| Physical.Prf.Update | carolyne/uarch/o3/prf.py:141-207 | Writebacks, returned entries and landed allocations of one cycle add up; stalled asks take nothing; `CorePorts.NoCollision` says that no entry is both written back and promised |
| Physical.Prf.OnMisPred | carolyne/uarch/o3/prf.py:245-261 | Allocation rolls back to just past the branch's entry |
| Rename.RetireAllAt | carolyne/uarch/o3/rt.py:140-167 | Commit lanes that all read the register drop exactly what lane-by-lane retirement drops, in the map and every snapshot |
| Rename.Rt.CommitRow | carolyne/uarch/o3/rt.py:140-167 | The commit row is the map after all this cycle's retirements |
| Rename.Rt.RepairPlanes | carolyne/uarch/o3/rt.py:140-167 | Every snapshot is repaired by all this cycle's retirements |
| Rename.Rt.OnNormalFlow | carolyne/uarch/o3/rt.py:99-204 | The registers take commits then renames in lane order |
| Rename.Rt.OnMisPred | carolyne/uarch/o3/rt.py:132-138 | A squash restores the branch's snapshot |
| Architectural.Arf.ReadLane | carolyne/uarch/o3/arf.py:72-117 | The read view has this cycle's commits in, the later lane winning, constants kept |
| Architectural.Arf.Update | carolyne/uarch/o3/arf.py:97-117 | Storage takes this cycle's commits, the later lane winning, constants kept |
| Reorder.LeadingRun | carolyne/uarch/o3/rob.py:229-263 | The lanes that retire are a leading run, and none before its last is a branch or a store |
| Reorder.RetiresExactly | carolyne/uarch/o3/rob.py:246-253 | A lane retires if and only if it and all before it are in use and have reported and none before it is a branch or a store |
| Reorder.PushAllPointer | carolyne/uarch/o3/rob.py:154-204 | A gapped bundle compacts: the pointer and count move by its valid lanes |
| Reorder.PushAllLater | carolyne/uarch/o3/rob.py:315-330 | What a bundle writes does not depend on the retirements beside it |
| Reorder.Rob.constructor | carolyne/uarch/o3/rob.py:93-139 | Reset: empty |
| Reorder.Rob.FreeSlots | carolyne/uarch/o3/rob.py:141-183 | The bundle fits exactly when its valid lanes fit, and each lane's entry skips the empty lanes before it |
| Reorder.ChainCommit | carolyne/uarch/o3/rob.py:240-253 | The chain of commit bits, lane by lane: each set if and only if its lane and all before it are in use and have reported and none before it is a branch or a store |
| Reorder.Rob.CommitLanes | carolyne/uarch/o3/rob.py:229-263 | Of the rows at the commit pointer, lane k may retire if and only if it and all before it are in use and have reported and none before it is a branch or a store |
| Reorder.Rob.OnWriteBack | carolyne/uarch/o3/rob.py:223-227 | One entry is marked reported |
| Reorder.Rob.OnDispatch | carolyne/uarch/o3/rob.py:185-204 | The bundle's rows land in lane order |
| Reorder.Rob.Update | carolyne/uarch/o3/rob.py:315-330 | Reports, retirements and the bundle of one cycle add up, the count moving once by both |
| Reorder.Rob.OnMisPred | carolyne/uarch/o3/rob.py:332-343 | Everything younger than the branch leaves |
| Stores.TreeNewest | carolyne/uarch/o3/store_buf.py:202-238 | Any subtree of the comparison tree carries up its newest matching row |
| Stores.ScanNewest | carolyne/uarch/o3/store_buf.py:185-200 | A scan from the newest end returns the match that no other match is younger than |
| Stores.SearchRefinesScan | carolyne/uarch/o3/store_buf.py:185-249 | For every depth, pointer position and address the tree answers as the scan |
| Stores.CycleInOrder | carolyne/uarch/o3/store_buf.py:121-183 | Push, resolve, commit and retire in one cycle leave what they leave one after another |
| Stores.StoreBuf.OnNewEntry | carolyne/uarch/o3/store_buf.py:157-177 | A store lands at the tail |
| Stores.StoreBuf.OnCommit | carolyne/uarch/o3/store_buf.py:179-183 | The store at the commit pointer is marked retired |
| Stores.StoreBuf.Retire | carolyne/uarch/o3/store_buf.py:301-323 | The head row empties |
| Stores.StoreBuf.OnSucPred | carolyne/uarch/o3/store_buf.py:276-297 | A resolved tag leaves every busy row |
| Stores.StoreBuf.Update | carolyne/uarch/o3/store_buf.py:146-183 | The cycle's push goes through the overrider, so the resolve of the cycle has already left it |
| Stores.StoreBuf.OnMisPred | carolyne/uarch/o3/store_buf.py:252-274 | Killed rows empty and the tail lands past the survivors |
| Queues.QueuesShow | carolyne/uarch/o3/rsv_ior.py:71-199 | Run by what the pointers offer, the engine reaches only what it reaches by age, by the same events; and in every state each ring's valid rows are the engine's waiting rows, oldest first from the head |
| Queues.PointersOffer | carolyne/uarch/o3/rsv_ior.py:158-180 | In every reachable state the head row may issue exactly when the engine would let some row of the station issue, and then it is that row; and the allocation pointer names a free row whenever the station has one |
| Queues.SquashTakesLast | carolyne/uarch/o3/rsv_ior.py:183-199 | In every reachable state a misprediction kills the last of every in-order station's queue: what is left is the records older than the branch, and head plus survivors is the tail |
| Queues.QueuesComeToRest | carolyne/uarch/o3/rsv_ior.py:158-180 | By what the pointers offer alone, everything in flight retires and every store is written: no head ever blocks the machine |
| Queues.EventShows | carolyne/uarch/o3/rsv_ior.py:132-199 | Dispatch, issue, wake, resolve and squash each keep the ring showing the engine's rows in program order |
| ClockQueues.ClockedQueuesShow | carolyne/uarch/o3/rsv_ior.py:71-199 | After any number of clock cycles, with lanes landing where the ports say, each in-order station's ring shows the clocked core's rows, oldest first |
| ClockQueues.EdgeIsQueue | carolyne/uarch/o3/rsv_ior.py:96-180 | One edge in which a station issues, hears broadcasts, loses a tag and takes lanes, all worked out from the old registers, drops the front of its queue, wakes and masks the rest, and adds the lanes at the back |
| ClockQueues.TickShows | carolyne/uarch/o3/rsv_ior.py:132-180 | The ring after an ordinary cycle shows the rows the engine then has, the landed ones youngest |
| ClockQueues.SquashCycleShows | carolyne/uarch/o3/rsv_ior.py:183-199 | The ring after a squash cycle, broadcasts heard and killed rows gone, shows the rows the engine then has |
| ClockQueues.HeadLeaves | carolyne/uarch/o3/rsv_ior.py:158-180 | In any cycle, a record that leaves an in-order station is its head, present and ready, and no other leaves |
| Queues.HeadIsOldest | carolyne/uarch/o3/rsv_ior.py:158-180 | The head's row is exactly the row that issue by age would take |
| InOrderStation.RunCounts | carolyne/uarch/o3/rsv_ior.py:71-94 | The valid rows count what waits, though no register does |
| InOrderStation.LandAllKeeps | carolyne/uarch/o3/rsv_ior.py:132-157 | Records that fit go to the back of the queue in order |
| InOrderStation.TakeKeeps | carolyne/uarch/o3/rsv_ior.py:158-180 | The head row is the front of the queue, and taking it leaves the rest |
| InOrderStation.KillKeeps | carolyne/uarch/o3/rsv_ior.py:183-199 | After any squash the ring is a queue again if and only if what died was the last of it; then head plus survivors is the tail and the front is unchanged |
| InOrderStation.PortFree | carolyne/uarch/o3/rsv_ior.py:96-130 | The row a port looks at is free exactly while the queue leaves room for it |
| InOrderStation.RsvIOR.constructor | carolyne/uarch/o3/rsv_ior.py:71-91 | Reset: an empty queue |
| InOrderStation.RsvIOR.FreeSlots | carolyne/uarch/o3/rsv_ior.py:96-130 | All lanes aimed here fit exactly when they are no more than the free rows, and each is told its own row |
| InOrderStation.RsvIOR.OnDispatch | carolyne/uarch/o3/rsv_ior.py:132-156 | The lanes that fit go to the back in lane order; one that does not blocks every later one |
| InOrderStation.RsvIOR.BuildIssue | carolyne/uarch/o3/rsv_ior.py:158-180 | The front of the queue, and nothing else, issues when it is ready and the unit takes it; else the station stalls |
| InOrderStation.RsvIOR.OnBypass | carolyne/uarch/o3/rsv.py:301-320 | A broadcast wakes the waiting records and moves none |
| InOrderStation.RsvIOR.OnSucPred | carolyne/uarch/o3/rsv.py:273-299 | A resolved tag leaves the waiting records and moves none |
| InOrderStation.RsvIOR.OnMisPred | carolyne/uarch/o3/rsv_ior.py:183-199 | For every kill mask: killed rows empty, the tail is head plus survivors, and the station is a queue exactly when the last of it died, the front then unchanged |
| OutOfOrderStation.FindFree | carolyne/uarch/o3/rsv_o3.py:120-157 | The fold finds a free row if there is one, the lowest |
| OutOfOrderStation.PickOldest | carolyne/uarch/o3/rsv_o3.py:255-293 | The fold picks an issuable row, of an older epoch if there is one, and of the smallest stamp in its epoch |
| OutOfOrderStation.StampIs | carolyne/uarch/o3/rsv_o3.py:180-207 | A row's stamp and epoch bit, from the dispatch cycle that filled it: inside an epoch the row of the cycle that spent the last stamp has the top stamp, and those after it count from zero |
| OutOfOrderStation.OldestExactly | carolyne/uarch/o3/rsv_o3.py:266-269 | Of rows no more than a wrap old, the one the comparison picks was filled first if and only if it has the top stamp or no row of its epoch that it was chosen over has |
| OutOfOrderStation.NewestFirst | carolyne/uarch/o3/rsv_o3.py:180-207 | A run of a two-row station after which the unit is given the row filled later, the other having the top stamp |
| OutOfOrderStation.UopIdxRanges | carolyne/isa/exec_unit.py:150-163 | The runs cover exactly the unit's ids, ascending and never touching |
| OutOfOrderStation.MatchIsMembership | carolyne/uarch/o3/rsv_o3.py:295-337 | For every id routed to the station, the range tests are membership in the unit's ids |
| OutOfOrderStation.RsvO3.FreeSlots | carolyne/uarch/o3/rsv_o3.py:91-118 | All lanes fit exactly when they are no more than the free rows, and then get different free rows |
| OutOfOrderStation.RsvO3.BuildIssue | carolyne/uarch/o3/rsv_o3.py:210-281 | Units pick different ready rows they can run, each of the oldest epoch and in it of the smallest stamp of those left to it, which is the row filled first exactly when no row of its epoch with the top stamp is passed over |
| OutOfOrderStation.RsvO3.RollTrackEpoch | carolyne/uarch/o3/rsv_o3.py:201-207 | Every entry ages by one epoch |
| OutOfOrderStation.RsvO3.WriteEntries | carolyne/uarch/o3/rsv_o3.py:190-199 | Accepted lanes land stamped, and no other row changes |
| OutOfOrderStation.RsvO3.OnDispatch | carolyne/uarch/o3/rsv_o3.py:170-188 | One stamp a cycle; when it wraps, the rows already here age and the ones landing do not; every row's stamp and epoch bit stay those its dispatch cycle dictates |
| Station.WakeAllIs | carolyne/uarch/o3/rsv.py:301-320 | Broadcasts taken port by port wake each row by itself |
| Rename.Rt.Flow | carolyne/uarch/o3/rt.py:99-204 | Each port reads the row after the commits and the ports before it, and a branch's snapshot is its own port's row |
| Station.Rsv.SlotReady | carolyne/uarch/o3/rsv.py:134-146 | Ready exactly when the row is occupied and every source its entry reads has landed |
| Station.Rsv.OnIssue | carolyne/uarch/o3/rsv.py:252-260 | The record reaches its unit without the tag resolving beside it, and its row frees |
| Station.CaptureIsWake | carolyne/uarch/o3/rsv.py:301-320 | The row's own test, which does not ask whether a slot is filled, does to what is read exactly what waking the filled slots does |
| Station.Rsv.OnBypass | carolyne/uarch/o3/rsv.py:301-320 | Every waiting source that names a broadcast register takes its value, and nothing else that is read changes |
| Station.Rsv.WriteEntry | carolyne/uarch/o3/rsv.py:209-214 | A dispatch fills one row and no other |
| Station.Rsv.OnSucPred | carolyne/uarch/o3/rsv.py:273-299 | A resolved tag leaves every waiting entry |
| Station.Rsv.OnMisPred | carolyne/uarch/o3/rsv.py:262-271 | Every waiting entry under a killed tag leaves, and no other |
| ByteMemory.StoreRefines | carolyne/isa/riscv/exec_unit_ls.py:96-112 | An aligned store, merged into its word, is that store on little-endian byte memory |
| ByteMemory.LoadRefines | carolyne/isa/riscv/exec_unit_ls.py:115-133 | An aligned load, extracted and extended from its word, is what byte memory holds |
| ByteMemory.LoadRightIffAligned | carolyne/isa/riscv/exec_unit_ls.py:80-91 | A load is right for every memory if and only if it is aligned |
| ByteMemory.StoreRightIffAligned | carolyne/isa/riscv/exec_unit_ls.py:80-112 | A store is right for every memory and datum if and only if it is aligned |
| ByteMemory.MergedByte | carolyne/isa/exec_unit_util.py:46-49 | A byte merge sets the addressed byte and keeps the others |
| ByteMemory.MergedHalf | carolyne/isa/exec_unit_util.py:52-55 | A halfword merge sets its two bytes and keeps the others |
| LoadStore.MemoryStands | carolyne/isa/riscv/exec_unit_ls.py:59-112 | Along any path of aligned accesses, word memory stands for byte memory after the same stores |
| LoadStore.LoadsSeeBytes | carolyne/isa/riscv/exec_unit_ls.py:59-135 | In every reachable state, a load about to report writes back what byte memory holds after all the older stores of its path |
| LoadStore.LoadsReadSum | carolyne/isa/riscv/exec_unit_ls.py:74-89 | In every reachable state, a load with operands base and immediate writes back the bytes at their sum |
| LoadStore.BytesAre | carolyne/isa/riscv/exec_unit_ls.py:74-112 | Along a path, a store with operands base, data and immediate puts the bytes of its data at base plus immediate, and nothing else changes any byte |
| LoadStore.LawfulAre | carolyne/isa/riscv/exec_unit_ls.py:85-87 | What an access must keep to, at base plus immediate: words on words, halfwords on halfwords, inside the memory |
| ByteMemory.PutBytesAt | carolyne/isa/riscv/exec_unit_ls.py:96-112 | A store changes the bytes from its address on, as many as it is wide, the least significant first, and no other |
| LoadStore.SomeUnit | carolyne/isa/riscv/exec_unit_ls.py:80-112 | There is a memory unit whose numbering is sound, for any routing of loads and stores |
| LoadStore.SomeIsa | carolyne/isa/riscv/exec_unit_ls.py:59-135 | Any configuration has an instruction set that performs its accesses, so what loads see is said of something |
| Arithmetic.SltIsSignedOrder | carolyne/isa/riscv/exec_unit_alu.py:48-49 | Unsigned order with the sign bits flipped is signed order |
| Arithmetic.SraIsFloorDivision | carolyne/isa/riscv/exec_unit_alu.py:33-47 | Xor-subtract of the shifted sign bit is division by a power of two, rounding down |
| Arithmetic.RotrBit | carolyne/isa/mips/exec_unit_alu.py:35-36 | Bit i of a rotate is bit i + sh of the operand, round the register |
| Arithmetic.ExtBit | carolyne/isa/mips/exec_unit_alu.py:38-43 | An extract is the field at the bottom with zeros above, full width included |
| Arithmetic.InsBit | carolyne/isa/mips/exec_unit_alu.py:38-44 | An insert takes the field from one operand and every other bit from the other |
| Arithmetic.Leading | carolyne/isa/mips/exec_unit_alu.py:46-51 | How many top bits are alike, up to the first that differs |
| Arithmetic.CountLeading | carolyne/isa/mips/exec_unit_alu.py:46-51 | The mux chains count the leading zeros and the leading ones |
| Arithmetic.MulHighIsExact | carolyne/isa/riscv/exec_unit_muldiv.py:42-49 | The top half of the widened product is the high word of the exact product, for every pair of signed and unsigned readings |
| Arithmetic.MulLow | carolyne/isa/riscv/exec_unit_muldiv.py:63-63 | The low word is the same for every pair of readings |
| Arithmetic.DivIsTruncated | carolyne/isa/riscv/exec_unit_muldiv.py:51-70 | For all operands: division truncates toward zero with the remainder's sign the dividend's, a zero divisor gives minus one and the dividend, the one overflow gives the dividend and no remainder |
| Arithmetic.DivUIsQuotient | carolyne/isa/riscv/exec_unit_muldiv.py:67-70 | For all operands: the unsigned quotient and remainder are the dividend's, and a zero divisor gives all ones and the dividend |
| Fetch.DriveReadIndex | carolyne/uarch/mem/easy_mem.py:206-216 | The mux chain gives a bank the index of the lowest-numbered reader that named it |
| Fetch.ReadAll | carolyne/uarch/mem/easy_mem.py:186-253 | A port is valid exactly when no lower one named its bank, and then has the word at its own bank and row |
| Fetch.KeepLeadingRun | carolyne/uarch/o3/fetch.py:115-126 | A lane is kept exactly when it and every lower lane answered |
| Fetch.RunCount | carolyne/uarch/o3/fetch.py:97-100 | The count of the kept lanes is where the run ends |
| Fetch.PortIsWord | carolyne/uarch/mem/common/mem_port.py:65-75 | Inside the memory a word's bank and row are its own number cut in two, so no two words share a row of a bank |
| Fetch.FetchStage.BindAddresses | carolyne/uarch/o3/fetch.py:88-94 | The first lane names the word at the pc and each next lane the next word, round the end of the address space, each cut into its bank and row |
| Fetch.FetchStage.Consecutive | carolyne/uarch/o3/fetch.py:106-113 | The words captured since the last redirect start where it went and follow one another by one instruction length, and the pc is where the next one is |
| Fetch.FetchStage.Transfer | carolyne/uarch/o3/fetch.py:85-113 | Whichever ports answer, given that an answering port has its own word, exactly the lanes before the first that did not are captured, the first at the pc, each next one instruction length on, and the pc moves to just past the last |
| Fetch.FetchStage.FetchCycle | carolyne/uarch/o3/fetch.py:85-113 | On the banked memory each granted cycle captures at least one more word, from the pc on and none skipped or repeated |
| Fetch.FetchStage.OnMisPred | carolyne/uarch/o3/fetch.py:70-84 | A squash empties the stage and restarts at the corrected pc |
| Fetch.EveryLaneAnswered | carolyne/uarch/mem/easy_mem.py:228-253 | With a bank for every lane, every lane is answered, across the end of the address space too |

## Left out

- Kathryn itself (pipes, handshakes, write priorities, Verilog) is not part of this model; its effects are the assumptions above.
- Several register classes: one class is modelled; each has its own map, file and ring, and they meet only at dispatch's all-or-nothing answer.
- Macro instructions that crack into several micro-operations, linking temporaries, and the branch predictor: every instruction is one micro-operation and every prediction is the next instruction.
- The choice of which ready row issues is left open in `Engine` out of order; `OutOfOrderStation` says how it is picked and when that is the oldest, and of rows that wait through more than one wrap only what the comparator does. In order it is the oldest waiting row, and `Queues` proves that the head pointer finds it.
- `Engine` keeps a record's sources along its unit's stages; the source carries only what each stage declares.
- `Physical.Prf.Update`: would leave an entry both written back and promised in one cycle not-written, where the source gives the two writes no order; `CorePorts.NoCollision` proves it does not arise.
- `Reorder.Rob.Update`: states the count's one write; the lanes' promises are `Reorder.Rob.FreeSlots`, and that a bundle stalls whole is `Wiring.Grant`.
- `CoreO3.CoreO3.Tick`: holds the places of stations and units as one map, and is given the moves and the free rows they choose; `OutOfOrderStation.RsvO3` and `InOrderStation.RsvIOR` say how a station chooses, and `ClockQueues` that an in-order one's rows are the map's. The records it numbers carry the instruction's number, which decides nothing.
- Register widths wrap by construction (`Rings.Wrap`); pcs are unbounded in the engine and wrap in `Fetch`.
- Data memory answers in the cycle it is asked; a banked data memory and the write routing of the banked memory are not modelled.
- Accesses that span words, traps, FENCE, ECALL and MIPS delay slots: the repository does not handle them; which accesses are right is `ByteMemory.LoadRightIffAligned` and `ByteMemory.StoreRightIffAligned`.
- The branch unit's taken and target expressions, immediates and encoding tables: the instruction set is a parameter, and these would add easy members.
- Decoding: what decode guarantees is `Program.Config.OpOk`, and how matchers are collected is not modelled.
- The slot table, probes, console, debugger, simulation runs and their oracle: observation and I/O.
- Construction checks of `isa.py`, `config.py` and the record builders: single refusals, taken as preconditions.
