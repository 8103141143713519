# A model of the int8 systolic accelerator, from its clocked datapath to its driver

Everything in this repository serves one specification: `C = A @ W` with int8 operands, accumulated in
int32 with wrap-around (`model/golden.py`). This project models the accelerator in Dafny and proves that
the hardware, the driver and the scheduler compute that product, and under which conditions they do.
`dafny verify dfyconfig.toml` checks the whole project.

* **Integers and the golden model** (`Arith`): int8 and int32, two's-complement wrap-around, the dot product.
* **Datapath** (`Systolic`, `Wavefront`, `Stream`, `StreamInvariant`, `StreamRuns`, `StreamDevice`). The grid of
  processing elements and the seven-state sequencer are clocked objects; one edge is a relation between all old
  and all new registers. The grid size N, the number of rows M, the addresses and the RAM contents are
  arbitrary. `Wavefront` gives the closed form of every register after any number of ticks. `StreamInvariant`
  carries it through the skew and de-skew chains, and `StreamRuns` states the results about whole runs:
  quiescence, the end-to-end product, the exact write stream and latency, sessions of many commands.
* **Register block** (`CmdQueue`, `MmioRuns`, `CoprocMmio`). The MMIO FIFO, counters and interrupt flag, with every
  bus cycle decoded down to its address and width; then the block wired to the datapath: accepted commands are
  computed once each and in order, STATUS does not lie, every accepted command finishes after an exactly known
  number of edges, and completions are a known distance apart. `CoprocMmio` puts the two together for the C
  functions `coproc_matmul` and `coproc_wait`: from the stores on the bus to the words of the result RAM.
* **Bridge** (`Bridge`). Every clock edge of the wired system is a step of the device that the driver runs on: its
  store of that cycle, then a retirement if a command is done, with the same memories, queue, registers and
  counters. This holds for N = 4, addresses that do not wrap, and a host that leaves outstanding operands alone.
* **Driver** (`Coproc`, `SlotQueue`, `Driver`, `IrqProtocol`, `Mlp`). `Coproc.Device` retires queued commands
  between any two driver actions, at moments of its own choosing. On it run the four-slot queue, the tiled
  multiplication with its interrupt handshake, and the two-layer network. `IrqProtocol` isolates the handshake
  as a state machine, to say exactly when it can get stuck; what driver and device do are steps of it
  (`Driver.StepsOfTheHandshake`).
* **Tiling, convolution, fixed point** (`Tiling`, `Tiler`, `Conv`, `Graph`, `Requant`).
* **Smaller machines** (`Schedule`, `ByteMemory`, `ChunkedBackend`, `Gating`, `Scratchpad`).

The parts meet in one contract, `run_tile(Wt, At) = At @ Wt`: `Schedule.RunTile`, `ChunkedBackend.RunTile` and
`Tiler.NumpyIsGolden` establish it, `Tiler.Execute` and through it `Graph` rely on it.

## Where the code does less than its documentation says

* The driver promises an exact one-to-one count of interrupts and retirements (`sw/coproc_driver.h:91-95`). The
  flag is one bit, so two retirements before the driver clears it are one interrupt, and the driver then
  sleeps for ever. A block can hang exactly if it has two or more tiles (`IrqProtocol.CanHang`,
  `IrqProtocol.CannotHang`), and a run that has come to its end is complete exactly if no interrupt was lost
  (`IrqProtocol.EndsWell`). Whenever the driver does return, its result is right (`Driver.MatmulTiled`), and a
  driver prompt enough to clear the flag within M + 4N + 4 clock edges of each completion loses none
  (`MmioRuns.PromptDriverLosesNothing`).
* The completion test subtracts a 16-bit counter in 32-bit arithmetic, with no mask. Whatever the counter showed
  at the start of a block, the test passes after one interrupt per tile, wrapping or not, while the block has at
  most 65535 tiles (`IrqProtocol.CountReached`). For every starting value, runs that hang although no interrupt
  was lost exist exactly from 65536 tiles on (`IrqProtocol.CounterLimitIsExact`); starting from at most 65532,
  no run of such a block finishes at all (`IrqProtocol.CounterTooNarrow`).
* A graph's tiled forward pass equals the numpy reference except exactly where the size of the input takes the
  reference through a dense layer on an unflattened tensor: there the tiled pass raises
  (`Graph.TiledMatchesPure`). This covers every graph whose raw outputs are last or go straight into a ReLU.
  A raw output that is flattened is truncated to int8 on one side only, which shows exactly if some value is out
  of range (`Graph.RawThenFlatten`).
* The scratchpad and its reference model disagree after a write in the very first reset cycle, exactly when
  the bank register powered up differently and the write changes something (`Scratchpad.FirstResetWriteDiffers`).
* The gated array is said to be safe because a frozen activation is isolated (`rtl/cg/pe_cg.sv:1-9`). It equals
  the plain array for all weights and activations exactly if it has a single column or no row's validity ever
  drops with a tick left to see it (`Gating.GatingExactly`): a row that becomes invalid after having been valid
  is multiplied once more in the next column (`Gating.DroppingIsVisible`).
* The stream testbench's timeout of `10 M + 100` edges does not allow for the `4 N` of loading and skewing:
  `StreamDevice.StreamTop.RunOne` gives up exactly if `M + 4N + 2` exceeds it.

## Model

The first 27 rows are the main results; the others, by module, are what they are built from and the methods that
are proved against them.

| member | source | states |
|---|---|---|
| StreamRuns.AcceleratorIsCorrect | rtl/stream_ctrl.sv:53-161 | after any reset and any history, a start in an idle state puts every sum_r A[k][r] W[r][c] into its word and lane, and leaves all other words alone |
| StreamRuns.Quiescence | rtl/stream_ctrl.sv:80-131 | in every state reachable after a reset, under arbitrary inputs, the pipeline is empty outside S_STREAM |
| StreamRuns.WriteStream | rtl/stream_ctrl.sv:60-67 | row k is written on edge 4N + 2 + k: M writes, consecutive, in order, once each, and no other |
| StreamRuns.SessionResult | sim/stream/tb_stream.cpp:126-150 | any number of commands with any gaps and no reset leaves the fold of their golden writes |
| Wavefront.RunClosedForm | sim/tb_main.cpp:5-8 | after every tick of any run from an empty grid, act(r,c) is row r's input c ticks ago and psum(r,c) is the diagonal sum of rows 0..r |
| MmioRuns.InvAlways | rtl/mmio/coproc_mmio_top.sv:18-31 | after every edge of every run from a reset, with resets and stores at any time, FIFO, datapath, result RAM and counter are what the accepted commands make of them |
| MmioRuns.IdleMeansDone | sw/coproc_mmio.h:46-52 | waiting for empty and not busy means that all accepted commands are computed in order, counted, and nothing else is written |
| MmioRuns.Drains | sw/coproc_mmio.h:46-52 | left alone, the device counts its last command after exactly the work left, so polling ends |
| MmioRuns.PromptDriverLosesNothing | sw/coproc_driver.h:91-95 | a driver that clears the flag within M + 4N + 4 edges of every completion loses no interrupt |
| CoprocMmio.MatmulThenWait | sw/coproc_mmio.h:37-52 | from an idle device, the five stores of `coproc_matmul` at any edges and polls of STATUS: the loop ends with the first poll that is M + 4N + 6 edges or more after the CMD store, never before, and the result RAM is then the golden result of that one command |
| CoprocMmio.MatmulWords | sw/coproc_mmio.h:36-52 | then result word c + r, lane l, is the dot product of operand row a + r with column l of the rows from w on, and every other word is as it was |
| Bridge.EdgeRefinesDevice | rtl/mmio/coproc_mmio_top.sv:18-31 | every clock edge of the wired system, memories included, is the driver's store followed by `Coproc.Retire` if a command is done |
| Driver.MatmulTiled | sw/coproc_driver.h:110-157 | whenever it returns, C is A @ W in int32 however retirements fell, across row blocks, with no command dropped and one interrupt per command |
| IrqProtocol.EndsWell | sw/coproc_driver.h:91-105 | a run that ends has finished if and only if no interrupt was lost |
| IrqProtocol.CounterLimitIsExact | sw/coproc_driver.h:96-105 | for every starting count no lossless run hangs if and only if there are at most 65535 jobs |
| Mlp.Infer | sw/int8_mlp.h:43-59 | logit c is the biased dot product over a hidden layer whose unit j is the biased dot product of the image, rescaled and cut to 0..127; bit for bit the reference, and over both calls one interrupt is taken per command |
| Tiler.Execute | sched/tiler.py:79-98 | for every permutation of the plan and every backend that meets the tile contract, the result is A @ W |
| Tiler.NoPartialSumWraps | sched/tiler.py:93 | for K up to 131071 no int32 partial sum wraps, in any order |
| Conv.ConvolutionIsDirect | sched/nn/test_nn.py:17-33 | row (b OH + i) OW + j, column o of the product of patch matrix and kernel matrix is the int32 sum over c, dy, dx of x[b][c][i+dy][j+dx] W[o][c][dy][dx] |
| Graph.TiledMatchesPure | sched/nn/quant.py:27-69 | the two forward passes agree if and only if the input size does not take the reference through a dense layer on an unflattened tensor; decided by layers and input size |
| Graph.ConvEntry | sched/nn/layers.py:62-72 | pixel (b, o, i, j) of a convolution layer, in either pass, is that sum plus bias o, rescaled and cut to -127..127 |
| Requant.RequantError | sched/mnist/quantize.py:36-46 | the result is off from acc * m by at most 1/2 + abs(acc) m 2^-31 |
| ChunkedBackend.RunTile | sched/coproc_backend.py:83-144 | the result is At @ Wt for every number of rows, with one command per chunk and none dropped |
| Schedule.StreamAndVerify | sim/perf/tb_perf.cpp:75-120 | every output is captured exactly once and right, in M + 2N - 2 ticks, with M N N busy PEs |
| Gating.GatingExactly | rtl/cg/pe_cg.sv:1-9 | the two arrays agree for all weights and activations at every tick if and only if there is a single column or no row drops with a tick left to see it |
| Scratchpad.RtlRefinesShadow | sim/scratchpad/tb_scratchpad.cpp:19-42 | from a first reset without a write RTL and model agree on every input trace |
| Scratchpad.ReadReturns | rtl/scratchpad_dbuf.sv:51-63 | a read returns the last write of an epoch of the other parity, whatever is written or swapped meanwhile |
| Arith.Wrap32Modulo | rtl/pe.sv:9-25 | a 32-bit accumulator keeps the representative modulo 2^32 in the signed range |
| Arith.Wrap32Add2 | rtl/pe.sv:25 | wrapping early or late gives the same int32 sum |
| Systolic.Pe.Tick | rtl/pe.sv:14-27 | all three registers after an edge, from the old weight; reset wins over load |
| Systolic.SystolicArray.Wires | rtl/systolic_array.sv:15-22 | every cell's inputs are its left and upper neighbours' old registers, or the array's inputs |
| Systolic.SystolicArray.Tick | rtl/systolic_array.sv:15-36 | the N x N cells, clocked one by one in the model, move as if all at once |
| Wavefront.WeightsHeld | rtl/pe.sv:14-17 | without load or reset the whole weight matrix stays |
| Wavefront.TracksStep | rtl/systolic_array.sv:21-29 | the closed form of every register is kept by one tick of arbitrary input |
| Wavefront.SkewedOutput | sim/tb_main.cpp:8-10 | with the skewed feed, column c of vector k leaves after tick k + c + N - 1, and zero outside the stream |
| Wavefront.SkewedDrains | rtl/stream_ctrl.sv:51 | M + 2N - 1 ticks after the start the grid is empty again |
| StreamInvariant.ActInIsSkewed | rtl/stream_ctrl.sv:76-103 | what the skew chains present is the row stream with lane r delayed by r |
| StreamInvariant.WriteIsResultRow | rtl/stream_ctrl.sv:105-131 | the de-skewed word on the write port is one complete row of A @ W |
| StreamInvariant.ChainsStep | rtl/stream_ctrl.sv:88-127 | both families of shift registers keep holding the last pushes and the last results |
| StreamInvariant.CountersDoNotWrap | rtl/stream_ctrl.sv:51-67 | no 32-bit counter expression wraps while M + 2N is at most 2^32 |
| StreamInvariant.StreamStep | rtl/stream_ctrl.sv:153-156 | one edge of S_STREAM keeps the flow invariant, or ends with everything written and the pipeline empty |
| StreamInvariant.StreamDrains | rtl/stream_ctrl.sv:88-127 | after the last cycle every skew, grid and de-skew register is zero |
| StreamInvariant.QuietStep | rtl/stream_ctrl.sv:139-152 | outside S_STREAM an empty pipeline stays empty, although the grid is clocked, and the result RAM is untouched |
| StreamInvariant.ResetStep | rtl/stream_ctrl.sv:92-93 | reset empties every pipeline register from any state whatever |
| StreamRuns.StartStep | rtl/stream_ctrl.sv:140-144 | a start pulse in an idle state begins the job, M + 4N + 2 edges from its end |
| StreamRuns.ExecutingStep | rtl/stream_ctrl.sv:145-156 | every further edge keeps the job's invariant and brings the end one edge closer |
| StreamRuns.DoneStep | rtl/stream_ctrl.sv:157 | done rises with exactly the golden rows in the result RAM and an empty pipeline |
| StreamRuns.EndToEnd | rtl/stream_top.sv:42-65 | from any quiet idle state one start reaches done after exactly M + 4N + 2 edges, not earlier, with the golden result |
| StreamRuns.GoldenWords | sim/stream/tb_stream.cpp:40-50 | result word c_base + k lane c is sum_r A[k][r] W[r][c] mod 2^32, and every other word is unchanged |
| StreamRuns.LatencyWithinBudget | sim/stream/tb_stream.cpp:90-92 | the latency is within M + 2N + N*N + 16 for every N |
| StreamRuns.ReadStream | rtl/stream_ctrl.sv:53-67 | weight row j is fetched on edge 1 + 2j, activation row k on edge 2N + 2 + k, and there is no other read |
| StreamDevice.StreamTop.TickFsm | rtl/stream_ctrl.sv:134-161 | the sequencer's assignments, one by one, are the FSM's next state |
| StreamDevice.StreamTop.TickSkew | rtl/stream_ctrl.sv:88-127 | the chains are shifted in place as the parallel update prescribes |
| StreamDevice.StreamTop.TickRams | rtl/sim_ram.sv:13-16 | the registered read and the write use the old addresses, data and strobes |
| StreamDevice.StreamTop.Tick | rtl/stream_top.sv:42-65 | the assembled object refines the one-edge relation that all run theorems are about |
| StreamDevice.StreamTop.RunOne | sim/stream/tb_stream.cpp:53-74 | the testbench loop returns the exact latency and the golden memory, or -1 exactly if its timeout is too short |
| CmdQueue.CmdQueueRegs.TickFifo | rtl/mmio/cmd_queue_regs.sv:71-94 | enqueue and pop on one edge update FIFO, indices, count and start pulse together |
| CmdQueue.CmdQueueRegs.TickHold | rtl/mmio/cmd_queue_regs.sv:96-119 | register writes, counter and flag; a completion wins over a clear on the same edge |
| CmdQueue.CmdQueueRegs.Tick | rtl/mmio/cmd_queue_regs.sv:71-119 | both halves of the block read the registers of before the edge |
| CmdQueue.FifoOrder | rtl/mmio/cmd_queue_regs.sv:62-94 | the ring buffer is a queue: in at the back, out at the front with the start pulse, nothing else moves |
| CmdQueue.IdleStatus | rtl/mmio/cmd_queue_regs.sv:123-128 | "empty and not busy" in STATUS holds exactly if FIFO, start, datapath and done are all idle; the other fields read back |
| CmdQueue.StoreDecode | rtl/mmio/cmd_queue_regs.sv:96-119 | by absolute address and width, which bus cycle sets which operand register, the interrupt enable or clears the flag; every other address, width and every read changes none of them |
| CmdQueue.CommandDecode | rtl/mmio/cmd_queue_regs.sv:68-94 | the one bus cycle that queues a command, while fewer than four wait, and what leaves at the front |
| MmioRuns.InvKept | rtl/mmio/coproc_mmio_top.sv:18-31 | one edge of the wired system keeps FIFO, datapath phase, result RAM and counter consistent with the accepted commands |
| MmioRuns.QueueDepth | rtl/mmio/cmd_queue_regs.sv:65-69 | at most four commands wait and one runs; CMD is obeyed exactly while fewer than four wait, so a fifth is dropped |
| MmioRuns.CountedResultsReadable | rtl/mmio/cmd_queue_regs.sv:115-118 | rows of counted commands are final in RAM while later commands run, outside the running command's own region |
| MmioRuns.WorkStep | rtl/mmio/cmd_queue_regs.sv:69-94 | without a new command every edge reduces the work left by exactly one |
| MmioRuns.PendingMeansUnanswered | rtl/mmio/cmd_queue_regs.sv:107-118 | IRQ_PENDING is set exactly if some completion since the reset has not been answered by a later clear |
| MmioRuns.DonesAreApart | rtl/mmio/cmd_queue_regs.sv:69-94 | a completion follows the one before by at least M + 4N + 4 edges |
| MmioRuns.EdgeIsDeviceStep | rtl/mmio/cmd_queue_regs.sv:65-119 | every clock edge, as far as queue, registers, flag and counter go, is a store followed by at most one retirement |
| CoprocMmio.CallIsAccepted | sw/coproc_mmio.h:37-44 | a call made while fewer than four commands wait adds exactly its command, truncated to the registers' widths, whatever passes on the bus between its stores |
| Coproc.WriteRowsResult | rtl/stream_ctrl.sv:4-7 | a retired command leaves A @ W of its own operands in its C region |
| Coproc.WriteRowsElsewhere | sw/coproc_driver.h:26-34 | and touches nothing outside that region |
| Coproc.UnreadIsIrrelevant | sw/coproc_driver.h:21 | a store that a command does not read changes nothing of what it will write |
| Coproc.EvolveTotals | rtl/mmio/cmd_queue_regs.sv:115-118 | k retirements leave operands and registers alone, set the flag, and lose k - 1 interrupts, or k if it was set |
| Coproc.EvolveDoneCount | rtl/mmio/cmd_queue_regs.sv:116 | done_count advances by k modulo 2^16 |
| Coproc.Device.Interfere | sw/coproc_driver.h:96-105 | between two driver actions the hardware retires any number of queued commands, in order |
| Coproc.Device.WriteIrq | rtl/mmio/cmd_queue_regs.sv:108-111 | enable is written, and pending cleared only by a one |
| Coproc.Device.WaitIrq | sw/coproc_driver.h:22-24 | returns with the flag up, or not at all if nothing is left that could raise it |
| Coproc.Device.WaitIdle | sw/coproc_mmio.h:46-52 | returns once everything accepted has retired |
| Coproc.Device.ReadDoneCount | rtl/mmio/cmd_queue_regs.sv:128 | the 16-bit counter at that moment |
| Coproc.Device.MemWrite | sw/coproc_driver.h:21 | stores operand bytes, which must belong to no command that may still read them |
| Coproc.Device.MemRead | sw/coproc_driver.h:22 | loads result cells, which must belong to no command that may still write them |
| Coproc.Device.WriteCmd | rtl/mmio/cmd_queue_regs.sv:68 | the command is queued if the FIFO has room and dropped otherwise |
| Bridge.SameOperands | rtl/stream_ctrl.sv:4-7 | the operand bytes a driver stored are the rows the datapath reads, word by word |
| Bridge.RetirementIsDatapath | rtl/stream_ctrl.sv:4-7 | retiring a command in the driver's device leaves exactly what the datapath's golden write leaves |
| Bridge.EvolutionIsDatapath | rtl/mmio/coproc_mmio_top.sv:18-31 | any number of retirements leaves the fold of the datapath's golden writes |
| Bridge.ResetIsFresh | rtl/mmio/cmd_queue_regs.sv:97-99 | after a reset the system is a fresh device |
| Bridge.HostStores | sw/coproc_driver.h:21 | the host may rewrite operand memory that no outstanding command reads |
| Bridge.StoredDecode | sw/coproc_driver.h:84-100 | the driver's register writes, by absolute address, are the operations of its device |
| SlotQueue.RetireKeeps | sw/coproc_driver.h:26-34 | a retirement computes the oldest job's product and disturbs no other slot |
| SlotQueue.SlotFree | sw/coproc_driver.h:132-139 | the slot about to be filled belongs to no queued command |
| SlotQueue.StoreKeeps | sw/coproc_driver.h:82-83 | filling a free slot leaves every queued job's operands and every uncollected result as they are |
| SlotQueue.IssueKeeps | sw/coproc_driver.h:84-88 | queueing the packed job keeps all jobs in flight intact |
| SlotQueue.CollectKeeps | sw/coproc_driver.h:143-146 | the oldest retired result is intact when it is read, and no queued command writes it |
| SlotQueue.RoomInQueue | sw/coproc_driver.h:133-134 | with fewer than four jobs uncollected a command is never dropped |
| SlotQueue.IssueTile | sw/coproc_driver.h:80-89 | packs, programs and queues one tile under any interleaving with retirements |
| SlotQueue.ReadResult | sw/coproc_driver.h:146 | what is read back is that job's product |
| Driver.PackWTile | sw/coproc_driver.h:64-70 | the zero-padded weight tile, the same one that the scheduler cuts |
| Driver.PackATile | sw/coproc_driver.h:71-77 | the zero-padded activation columns of one row block |
| Driver.WaitOnce | sw/coproc_driver.h:99-102 | one wakeup clears exactly one pending interrupt and reads the counter afterwards |
| Driver.ClearFlag | sw/coproc_driver.h:100 | answers the one pending interrupt and keeps interrupts enabled |
| Driver.WaitRetired | sw/coproc_driver.h:96-105 | terminates, takes at least one interrupt, exactly one with at most 65535 commands issued, and fails only asleep with nothing outstanding |
| Driver.StepsOfTheHandshake | sw/coproc_driver.h:96-154 | retiring, clearing, comparing and issuing on the device are exactly the steps of the handshake machine |
| IrqProtocol.CountReached | sw/coproc_driver.h:103 | the unmasked 32-bit difference shows the retirements, whether the 16-bit counter has wrapped or not |
| Driver.ZeroRows | sw/coproc_driver.h:121-123 | clears the block's rows of C and no other |
| Driver.AddTile | sw/coproc_driver.h:147-151 | adds one tile product to its columns of its rows, dropping the padding columns |
| Driver.Fill | sw/coproc_driver.h:134-141 | issues jobs in the scheduler's order until four are uncollected or all are issued |
| Driver.CollectOne | sw/coproc_driver.h:142-153 | one result is collected for one interrupt of its own |
| Driver.Finished | sw/coproc_driver.h:91-95 | with all results collected nothing is pending, none was lost, and interrupts taken equal commands issued |
| Driver.RunBlock | sw/coproc_driver.h:118-155 | a block of rows of C is A @ W; if it does not finish, an interrupt was lost |
| IrqProtocol.Accounting | sw/coproc_driver.h:91-105 | in every state retirements cover interrupts taken plus pending, a job is collected only after it retired, and at most four are in flight |
| IrqProtocol.RunsAreFinite | sw/coproc_driver.h:132-154 | no run of the handshake has more than 9 total + 4 states |
| IrqProtocol.StuckExactly | sw/coproc_driver.h:96-99 | a state is stuck exactly if the driver sleeps, the flag is down and everything issued has retired |
| IrqProtocol.Progress | sw/coproc_driver.h:132-154 | as long as none is lost the driver or the hardware can move |
| IrqProtocol.LostMeansStuck | sw/coproc_driver.h:96-99 | once one is lost the run goes on to a stuck state |
| IrqProtocol.CanHang | sw/coproc_driver.h:132-154 | two or more jobs can hang |
| IrqProtocol.CannotHang | sw/coproc_driver.h:132-154 | fewer than two cannot |
| IrqProtocol.CounterTooNarrow | sw/coproc_driver.h:103 | counted from at most 65532, no run of 65536 jobs or more ever finishes |
| IrqProtocol.HangsWithoutLoss | sw/coproc_driver.h:103 | with 65536 jobs or more, from every starting count, some run hangs although every retirement found the flag clear |
| Mlp.ActivateLoop | sw/int8_mlp.h:50-53 | bias, rescale, ReLU and saturation equal the reference's vector expression |
| Mlp.ForwardEntries | sched/mnist/quantize.py:91-100 | the reference's logits, unit by unit, over its hidden layer |
| Mlp.Argmax | sw/int8_mlp.h:61-66 | the first index of the largest logit |
| Tiling.TilesAddUp | sched/tiler.py:89-93 | the zero-padded tile products of a column add up to the dot product, for sizes that are no multiple of 4 and for zero |
| Tiling.PlanAt | sw/coproc_driver.h:135 | job i of the driver's order is entry i of the plan |
| Tiling.PlanOnce | sched/tiler.py:22-24 | every tile is listed exactly once |
| Tiling.PlanRange | sched/tiler.py:19-24 | and exactly the tiles in range are |
| Tiling.SumPermutation | sched/tiler.py:89 | a sum over a schedule does not depend on its order |
| Tiling.ScheduleAddsUp | sched/tiler.py:89-93 | any permutation of the plan adds up to the dot product |
| Tiler.MakePlan | sched/tiler.py:17-25 | the nested loops list every tile in range exactly once, in the plan's order |
| Tiler.PadTile2d | sched/tiler.py:28-35 | the slice, with zeros beyond the matrix |
| Tiler.NumpyIsGolden | sched/tiler.py:38-40 | the int32 product, wrapped after every operation, meets the tile contract: wrapping early loses nothing |
| Tiler.ExecuteOnNumpy | sched/test_tiler.py:11-22 | executing the plan on the numpy backend gives A @ W for every shape |
| Tiler.OneMoreColumnWraps | sched/tiler.py:93 | at K = 131072 one does |
| Conv.AtPos | sched/nn/layers.py:26 | row-major positions and multi-dimensional indices are in bijection |
| Conv.FillPatches | sched/nn/layers.py:22-25 | slice by slice, every pixel lands under its kernel offset |
| Conv.Im2col | sched/nn/layers.py:18-26 | the reshaped patch array is the patch matrix in (c, dy, dx) order |
| Conv.PatchLayout | sched/nn/layers.py:19-26 | entry [(b OH + i) OW + j][(c kh + dy) kw + dx] of the patch matrix is x[b][c][i+dy][j+dx] |
| Graph.ConvForward | sched/nn/layers.py:62-72 | the layer run through im2col, the plan and any backend is that convolution, or raises on shapes that do not fit |
| Graph.DenseForward | sched/nn/layers.py:134-143 | a dense layer run through the plan and any backend is the matrix product, biased, rescaled and clipped unless it is the output |
| Graph.DenseEntry | sched/nn/layers.py:134-143 | each entry of a dense layer, in either pass, is the biased int32 dot product, raw for the output layer, else rescaled and cut to -127..127 |
| Graph.BroadcastEntry | sched/nn/quant.py:53-59 | the reference applies a dense layer to the last axis of an unflattened tensor |
| Graph.PoolEntry | sched/nn/quant.py:62-64 | a pooled pixel is at least, and equal to one of, the four pixels of its window |
| Graph.FlattenEntry | sched/nn/quant.py:65-66 | entry (c H + i) W + j of a flattened row is x[c][i][j] |
| Graph.ReluEntry | sched/nn/quant.py:60-61 | on every form of tensor a negative entry becomes 0, 0..127 stays and more becomes 127 |
| Graph.GraphForward | sched/nn/quant.py:27-39 | the whole graph on any backend; equal to the reference whenever it returns and raw outputs are last or rectified |
| Graph.TiledAgrees | sched/nn/test_nn.py:50-76 | running both passes and comparing succeeds exactly if sizes alone say so |
| Graph.ForwardFits | sched/nn/quant.py:42-69 | the reference returns exactly if the size of its input fits the layers, and then with the size they make of it |
| Graph.LayerAgrees | sched/nn/layers.py:75-143 | a layer's own forward pass, with its casts to int8, agrees with the reference on int8 tensors, except that a dense layer raises on an unflattened one |
| Graph.UnflattenedDenseDiffers | sched/nn/layers.py:135 | every dense layer on every unflattened tensor that fits: the reference broadcasts, the tiled pass raises |
| Graph.RawThenFlatten | sched/nn/layers.py:106-107 | flattening raw outputs truncates them on one side only, visibly exactly if some value is outside int8 |
| Requant.QuantizeMultiplier | sched/mnist/quantize.py:18-33 | terminates for every m; for m > 0, 2^30 <= M0 < 2^31 and M0 2^shift / 2^31 is within m 2^-31 of m |
| Requant.NoOverflow | sw/int8_mlp.h:25-33 | for shift distances 0 to 63 no int64 step overflows |
| Requant.LeftShift | sched/mnist/quantize.py:44-45 | for shifts beyond 31 it multiplies by the power of two, modulo 2^64 |
| Requant.Monotone | sched/mnist/quantize.py:36-46 | the rescale preserves order |
| Requant.ExactIsNearest | sched/mnist/quantize.py:42-43 | adding half and shifting rounds to the nearest multiple, ties up |
| Requant.ClipRelu | sw/int8_mlp.h:35-39 | clamps to 0..127 |
| Schedule.StreamTick | sim/perf/tb_perf.cpp:82-88 | one tick of the skewed feed keeps the array's closed form |
| Schedule.Capture | sim/perf/tb_perf.cpp:99-105 | exactly the outputs due after this tick are stored, with their right values |
| Schedule.CountedPeHoldsVector | sim/perf/tb_perf.cpp:90-95 | a PE is counted in a tick exactly if its activation register then holds a stream vector |
| Schedule.CountValid | sim/perf/tb_perf.cpp:90-95 | the count of one tick is the growth of the total busy time |
| Schedule.BusyGridEnd | sim/perf/metrics.h:23 | after M + 2N - 2 ticks the counts sum to exactly M N N |
| Schedule.Utilisation | sim/perf/metrics.h:24-27 | utilisation is exactly M / (M + 2N - 2), and complete only for N = 1 |
| Schedule.Verify | sim/perf/tb_perf.cpp:107-118 | passes if and only if everything was captured and equals A @ W |
| Schedule.ResetAndLoad | sched/tile_runner.cpp:65-74 | reset and load leave an empty array with the weights, whatever it held |
| Schedule.RunTile | sched/tile_runner.cpp:65-95 | the runner returns At @ Wt, captures each output once, and reports M + 9 cycles |
| ByteMemory.WordRam.MemWrite | sched/coproc_runner.cpp:59-73 | at any alignment a byte range written word by word is a store into the flat byte memory |
| ByteMemory.WordRam.MemRead | sched/coproc_runner.cpp:75-89 | and reading is a slice of it |
| ByteMemory.LoadAfterStore | sched/coproc_runner.cpp:59-89 | a load returns what was stored, and bytes outside are unchanged |
| ByteMemory.BytesOfCells | sched/coproc_backend.py:137 | byte j of int32 cell i is its j-th base-256 digit modulo 2^32, the lowest first |
| ByteMemory.LoadCell | sched/coproc_backend.py:137 | reading those four bytes as an int32 gives the cell back |
| ByteMemory.StoreOperands | sched/coproc_runner.cpp:59-73 | byte at + i of the word array becomes data[i] modulo 2^8 and no other byte changes; this is `Coproc.Device.MemWrite` on the memory it holds |
| ByteMemory.StoreResults | sched/coproc_runner.cpp:59-73 | a result row stored as bytes is the row stored as int32 cells |
| ByteMemory.LoadResults | sched/coproc_backend.py:135-137 | each int32 read is congruent to b0 + 2^8 b1 + 2^16 b2 + 2^24 b3; this is `Coproc.Device.MemRead` on the memory the word array holds |
| ChunkedBackend.MakeChunks | sched/coproc_backend.py:90-96 | the loop yields the chunks |
| ChunkedBackend.ChunksPartition | sched/coproc_backend.py:88-96 | every row lies in exactly one chunk of at most 1024 rows |
| ChunkedBackend.LayoutIsDisjoint | sched/coproc_backend.py:25-34 | the four fixed slots overlap nowhere |
| ChunkedBackend.RunBatch | sched/coproc_backend.py:103-139 | up to four chunks are queued, awaited and read back into their rows |
| Gating.SoftArray.Step | sim/power/tb_power.cpp:93-112 | one step of the oracle: a gated cell keeps its activation and validity and adds a zero product |
| Gating.SoftArray.Reset | sim/power/tb_power.cpp:87-89 | clears activations, validity and sums, keeps the weights |
| Gating.PeCg.Tick | rtl/cg/pe_cg.sv:25-50 | out of reset the gated cell does to its registers what a step of the oracle does to that cell |
| Gating.GatingIsInvisible | sim/power/tb_power.cpp:71-112 | all partial sums equal the plain array's on masked activations as long as no row's validity has dropped before the last tick |
| Gating.DroppingIsVisible | rtl/cg/pe_cg.sv:1-9 | for every array of two or more columns and every schedule in which a row drops there are weights and activations for which the two differ |
| Scratchpad.ScratchpadDbuf.Tick | rtl/scratchpad_dbuf.sv:33-63 | all registers and both banks after an edge, from the old bank select |
| Scratchpad.ShadowModel.Tick | sim/scratchpad/tb_scratchpad.cpp:27-41 | the reference model's step |
| Scratchpad.FirstResetWriteDiffers | rtl/scratchpad_dbuf.sv:46-49 | when exactly a write in that reset makes them differ |
| Scratchpad.BanksByEpoch | rtl/scratchpad_dbuf.sv:33-49 | bank 0 collects the writes of even swap epochs, bank 1 those of odd ones |
| Scratchpad.LastWriteIsEarlier | rtl/scratchpad_dbuf.sv:29-31 | that write is from a strictly earlier epoch |

## Left out

- The AXI4 bridge between the register block and DRAM, and its memory model. `Coproc.Device` assumes that accepted
  commands retire in FIFO order and eventually; `MmioRuns` proves both for the variant without the bridge.
  `sim/coproc_axi/tb_coproc_axi.cpp:185-195` reports row counts at which the bridge itself stalls.
- Floating-point training, calibration and scale selection: quantised weights, biases, M0 and shift are inputs.
  `quantize_multiplier` is modelled over exact reals.
- Coproc.Device.WaitIrq: does not bound the wait, because eventual retirement is an assumption on the bridge.
- Coproc.Device.WaitIdle: likewise; `MmioRuns.Drains` has the exact bound without the bridge.
- Address arithmetic in C: the matrices of the driver and the network are sequences of rows, not flat buffers.
- Register truncation and byte/cell units in `Coproc`: operand addresses are byte addresses and C bases count
  int32 cells, both unbounded; `ByteMemory` relates cells to bytes, `Bridge` bytes and cells to RAM rows, and
  `CmdQueue` models the truncation.
- ChunkedBackend.RunTile: runs on the device's int8 and int32 memories, not on word arrays of bytes; `ByteMemory` proves
  operation by operation that the word arrays do the same to the memories they hold.
- In `Coproc` a command's memory effects happen at its retirement. The operations there demand that no memory of
  an outstanding command is touched, and `MmioRuns.CountedResultsReadable` proves for the real datapath that
  results of counted commands are final.
- Signed overflow in the driver's and the network's int32 additions, undefined in C, is modelled as wrap-around.
- Commands whose M + 2N exceeds 2^32 (the cycle counter would wrap), and shift distances of 64 or more (undefined).
- The ID register and register read-back.
- A dense layer's raw output on an unflattened tensor as input of a layer other than ReLU (`Graph.Unmodelled`).
- Statistics fields, subprocess pipes, line protocols, file formats and waveform output.
- Activity and energy figures, the roofline and the physical-design flow under `pd/`.
