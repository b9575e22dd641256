# SCARV core: a verified model

A Dafny model of the SCARV side-channel hardened RISC-V core (RV32IMC and XCrypto, five stages,
in order) and of the small algorithms around it, with proofs. The main results speak about every
run: every program, every delay of the instruction and data buses and every stall of the
multi-cycle units.

The clock edge of the core is a function from the old registers and the inputs to the new
registers (`Fetch.Next`, `Core.Next`). `Machine` is the sequential machine that executes one
instruction at a time; it does not know about stages. The proofs relate the two. `FetchUnit`,
`CoreUnit` and the register file are the same hardware as classes whose methods compute the
wires and then update the registers in place, each proved to do what the function says; in
`CoreUnit` one helper method per stage computes its wires or next values.

| file | content |
|---|---|
| `Words.dfy` | words, half-words, the instruction at an address |
| `Fetch.dfy`, `FetchUnit.dfy` | fetch stage, fetch buffer and program counter; correctness and progress |
| `Gprs.dfy` | banked register file, hazard test |
| `Machine.dfy` | decoded instructions and the sequential machine |
| `Core.dfy`, `CoreUnit.dfy` | the pipeline: wires, clock edge, surroundings |
| `Refinement.dfy`, `EndToEnd.dfy` | the pipeline refines the sequential machine |
| `Protocol.dfy`, `Liveness.dfy` | data bus, precise exceptions, retirement; no deadlock |
| `Decode.dfy`, `Assembler.dfy`, `Encodings.dfy` | the decoder, the encodings that it undoes, and those that it takes at all |
| `Isa.dfy`, `Immediates.dfy`, `Bits.dfy` | what RV32IMC instructions do, stated without the decoder and the operand multiplexers; immediates as numbers |
| `XcMemory.dfy` | the indexed loads and stores, gather and scatter of XCrypto |
| `Rvc.dfy`, `Program.dfy` | compressed instructions and programs of expansions |
| `Lanes.dfy` | byte lanes and the byte memory that programs see |
| `Limits.dfy`, `Gather.dfy` | where fetching and forwarding fall short, with the exact conditions |
| `ShortRuns.dfy`, `GatherRuns.dfy` | two-instruction programs cycle by cycle from reset; two of them read a wrong register value |
| `Traps.dfy`, `StaleCause.dfy`, `Timer.dfy` | trap registers and vectors; the pipeline registers that cost a trap its cause; the 64-bit timer and its access routines |
| `Isw.dfy`, `Elastic.dfy`, `Funnel.dfy`, `Clmul.dfy`, `SramAgent.dfy` | masked multiplication, two-place register, rotate network, carry-less product, simulated memory |

What the pipeline theorems assume, as `verif/rvfi/fi_fairness.sv` does: no interrupts and no bus
errors; memories answer granted requests only, in order; at most seven fetches are unanswered
when a redirect is accepted (`Limits` shows that this cannot be dropped); the program contains no
CSR, RNG or leakage-fence instruction and stays out of the memory-mapped registers; and none of
the three instructions behind an xc.gather or xc.scatter reads the register that its rd field
names (`GatherRuns` shows that this cannot be dropped either). ALU,
multiplier, bitwise and algorithm-specific units are arbitrary functions of the operands that the
instruction uses, and the data memory is any deterministic one; `Lanes` then fixes the byte lanes
and a byte memory, `Decode` the decoder.

Where the code and `docs/pipeline.md` differ, the code is followed: a misaligned load or store is
found in the memory stage (`rtl/core/frv_pipeline_memory.v:167-171`), not in execute, and its
cause travels in the `rd` field, not in operand B.

## Model

| member | source | states |
|---|---|---|
| `Fetch.FrontEndCorrect` | rtl/core/frv_pipeline_fetch.v:76-191 | From reset, under every interleaving of redirects, grants, answers and stalls, a valid instruction is the one in memory at decode's program counter, and the buffer never holds more than four half-words. |
| `Fetch.StepKeepsInv` | rtl/core/frv_pipeline_fetch.v:121-177 | A cycle keeps buffer, outstanding fetches and address in step with memory if a redirect leaves fewer than eight fetches unanswered, and only if (for fewer unanswered fetches than memory has words). |
| `Fetch.DeliversInstr` | rtl/core/frv_core_fetch_buffer.v:51-67 | Two or one buffered half-words are the instruction at the program counter, also across word boundaries. |
| `Fetch.ConsumesInstr` | rtl/core/frv_pipeline_decode.v:793-804 | Handing an instruction on moves the program counter by the size of the instruction in memory. |
| `Fetch.NeverStarves` | rtl/core/frv_pipeline_fetch.v:104-118 | Without a complete instruction the stage accepts answers, and an answer is due, a request is up, or one goes up in the next cycle. |
| `Fetch.ResponsesComplete` | rtl/core/frv_pipeline_fetch.v:76-95 | Without a redirect, `ignore_rsps` + 2 accepted answers always complete an instruction. |
| `FetchUnit.ShiftAndInsert` | rtl/core/frv_core_fetch_buffer.v:76-88 | Shifting out, shifting in and OR-ing the 64-bit buffer is removal at the head and insertion at the tail of a queue. |
| `FetchUnit.FetchBuffer.Outputs` | rtl/core/frv_core_fetch_buffer.v:46-67 | Output word, validity, half-words eaten and readiness, as functions of the queue. |
| `FetchUnit.FetchBuffer.Clock` | rtl/core/frv_core_fetch_buffer.v:69-111 | The queue after a clock edge: what was eaten is gone, what came is at the end, a flush empties it. |
| `FetchUnit.FetchStage.Wires` | rtl/core/frv_pipeline_fetch.v:76-118 | The wires computed from the registers are those of the model. |
| `FetchUnit.FetchStage.Clock` | rtl/core/frv_pipeline_fetch.v:121-191 | One edge of all registers of the stage is one step of the model. |
| `Gprs.HazardIsWrite` | rtl/core/frv_pipeline.v:332-369 | The hazard test and the choice of half tell exactly what the register file will hold after a pending narrow or wide write, for every register including x0 and x1. |
| `Gprs.WriteMeans` | rtl/core/frv_gprs.v:42-87 | What a narrow or wide write leaves in each register: low half in the even, high half in the odd one, x0 zero. |
| `Gprs.RegisterFile.Read` | rtl/core/frv_gprs.v:36-40 | Reading the banks gives the architectural register. |
| `Gprs.RegisterFile.Clock` | rtl/core/frv_gprs.v:42-87 | Writing the banks is the architectural narrow or wide write; x0 stays zero. |
| `Refinement.LockStep` | rtl/core/frv_pipeline_register.v:30-47 | The stages behind decode all advance or all hold. |
| `Refinement.RedirectsAgree` | rtl/core/frv_pipeline_writeback.v:244-293 | Writeback redirects exactly when the sequential machine leaves the straight line, and to the same address. |
| `Refinement.WriteEffect` | rtl/core/frv_pipeline_writeback.v:428-455 | The write port leaves the register file of the machine before or after the instruction, and of no other; loads write once, with their answer. |
| `Refinement.AnswerIsOwn` | rtl/core/frv_pipeline_writeback.v:326-345 | An answer that writeback takes is the one to its own request. |
| `Refinement.RequestIsNext` | rtl/core/frv_lsu.v:79-109 | A data request is that of the instruction which the sequential machine executes next, never of one that will be flushed. |
| `Refinement.ForwardingCorrect` | rtl/core/frv_pipeline.v:335-399 | A forwarded operand is the register value after all older instructions, provided none of them redirects and none is a load of it. |
| `Refinement.Shift2` | rtl/core/frv_pipeline_decode.v:844-905 | Decode hands on the instruction at the program counter with the operands that the sequential machine uses. |
| `Refinement.Shift3` | rtl/core/frv_pipeline_execute.v:523-598 | Execute hands on the result, the resolved branch and the target. |
| `Refinement.Shift4` | rtl/core/frv_pipeline_memory.v:155-204 | The memory stage hands on an instruction ready to commit, with the trap and its cause. |
| `Refinement.HoldStep` | rtl/core/frv_pipeline_writeback.v:133-158 | A stalled cycle keeps the relation to the same architectural state. |
| `Refinement.FlushStep` | rtl/core/frv_pipeline.v:213-217 | A redirect retires the instruction in writeback and discards everything younger without trace. |
| `Refinement.ShiftStep` | rtl/core/frv_pipeline.v:332-399 | A shift retires the instruction in writeback and keeps the relation. |
| `EndToEnd.CycleRefines` | rtl/core/frv_pipeline.v:213-399 | Every cycle is one step of the sequential machine or none. |
| `EndToEnd.Refines` | rtl/core/frv_pipeline.v:213-399 | For every program and schedule: the retired program counters, the registers, mepc and the list of data requests are those of the sequential machine. |
| `Protocol.SchedulesAgree` | rtl/core/frv_pipeline.v:213-399 | Two schedules of one program retire the same instructions, and agree on registers and data requests when equally far. |
| `Protocol.OneOutstanding` | rtl/core/frv_pipeline_writeback.v:326-371 | At most one data request is unanswered; answers taken match retired accesses one to one. |
| `Protocol.RequestNotWithdrawn` | rtl/core/frv_lsu.v:103-111 | A data request stays up unchanged until it is granted. |
| `Protocol.NoRequestDiscarded` | rtl/core/frv_pipeline_writeback.v:139-141 | A redirect discards no instruction that has made a request. |
| `Protocol.RetiredAccess` | rtl/core/frv_pipeline_writeback.v:326-371 | A retiring access has made its one request, taken its one answer, and written the value it brought. |
| `Protocol.PreciseTrap` | rtl/core/frv_pipeline_writeback.v:474-504 | While an exception waits and when it is taken: older instructions are complete, no register write or request by it or a younger one, mepc and the cause on the trap bus are right, the handler comes next. |
| `Protocol.TrapWaits` | rtl/core/frv_pipeline_writeback.v:256-293 | The same over any delay of the redirect. |
| `Protocol.RetiresOnce` | rtl/core/frv_pipeline_writeback.v:296-308 | In each cycle, whatever the inputs: decode's program counter accounts for everything in flight, and an instruction retires when it leaves writeback. |
| `Protocol.InstructionsConserved` | rtl/core/frv_pipeline.v:213-217 | Over any run, whatever the inputs: as many retirements as instructions that entered writeback and left it, and what decode handed on is retired, discarded by a redirect or in flight. |
| `Liveness.ReplyStaysRoomy` | verif/rvfi/fi_fairness.sv:206-243 | Surroundings that respond at once are fair, and keep the unanswered fetches within the counter. |
| `Liveness.Advances` | rtl/core/frv_pipeline_execute.v:367-376 | When buses and units respond, the pipeline moves, except for one cycle to notice a misaligned access. |
| `Liveness.Fetches` | rtl/core/frv_pipeline_fetch.v:104-118 | With an empty pipeline, a responsive cycle brings an instruction closer to decode. |
| `Liveness.NeverStuck` | rtl/core/frv_pipeline.v:213-399 | After any schedule, 37 responsive cycles retire an instruction: the core does not deadlock. |
| `Liveness.ReplyingRetires` | rtl/core/frv_pipeline_fetch.v:89-118 | From every reachable state with fewer than seven unanswered fetches such cycles exist, in any number, and retire an instruction. |
| `CoreUnit.Pipeline.Operand` | rtl/core/frv_pipeline.v:383-399 | The forwarding network reads the banked register file. |
| `CoreUnit.Pipeline.Clock` | rtl/core/frv_pipeline.v:213-399 | One edge of every register of the core, through the wires of each stage in turn, is one step of the model; the trace output is its retirement. |
| `CoreUnit.Simulate` | rtl/core/frv_pipeline_writeback.v:510-518 | Clocking the core through a run leaves the state and the trace that `EndToEnd.Refines` describes. |
| `Limits.MarkedStale` | rtl/core/frv_pipeline_fetch.v:149-157 | A redirect that leaves n fetches unanswered marks n modulo eight of them as stale. |
| `Limits.StaleFetchIsDelivered` | rtl/core/frv_pipeline_fetch.v:82-95 | With eight or more, for every even target and all later delays, a stale word enters the buffer as the instruction at the target. |
| `Limits.WrongHead` | rtl/core/frv_pipeline_decode.v:793-804 | That instruction is wrong whenever the stale half-word differs from the one at the target. |
| `Limits.TwoOutstanding` | rtl/core/frv_pipeline_fetch.v:97-118 | A run that never waits with half an instruction in the buffer leaves at most two fetches unanswered, so for it the bound holds by itself and every offered instruction is right. |
| `Limits.FrontEndOverruns` | rtl/core/frv_pipeline_fetch.v:104-118 | A concrete run from reset in which a slow but orderly memory makes the stage offer a wrong instruction. |
| `Gather.ForwardingExact` | rtl/core/frv_pipeline.v:335-399 | With xc.gather and xc.scatter in execute, memory or writeback, a forwarded value is right if and only if the youngest instruction that feeds the register is harmless: behind execute and memory the register must hold the address, behind writeback it must hold zero. |
| `GatherRuns.WrongFromExecute` | rtl/core/frv_pipeline_execute.v:586-598 | A fair run from reset, for all register contents: an add of x5 right behind a gather with rd 5 gets the address of the gather. All else that the refinement asks holds, so the rule about gathers is needed. |
| `GatherRuns.WrongFromWriteback` | rtl/core/frv_pipeline_writeback.v:444-456 | The same program with the add fetched two cycles later: it gets zero. |
| `Refinement.NothingFed` | rtl/core/frv_pipeline.v:335-399 | If no instruction among the three behind a gather or scatter reads the register of its rd field, none in flight spoils an operand; this is what the results on programs ask. |
| `Machine.NeverFedWithout` | rtl/core/frv_pipeline_decode.v:320-344 | Programs without gather and scatter meet that condition. |
| `Decode.UpperHalfIgnored` | rtl/core/frv_pipeline_decode.v:429-485 | A compressed instruction is decoded from its low half-word alone. |
| `Decode.DecoderIsGood` | rtl/core/frv_pipeline_decode.v:653-764 | The decoder meets what the pipeline theorems ask: operands used are sourced, only writing instructions name a register. |
| `Assembler.DecodeEncode` | rtl/core/frv_pipeline_decode.vh:1-51 | For every RV32IM instruction and all fields, decoding its encoding gives the operation, registers and immediate that `Isa.StepIsExec` then pins down. |
| `Encodings.TakesKnown` | rtl/core/frv_pipeline_decode.vh:1-51 | The base decoder accepts the listed bit patterns and leaves every other 32-bit word to the extensions. |
| `Immediates.Signed12Is` | rtl/core/frv_pipeline_decode.v:523-529 | The I and S immediates are the two's complement numbers of their twelve bits. |
| `Immediates.Signed13Is` | rtl/core/frv_pipeline_decode.v:531-532 | The same for branches. |
| `Immediates.Signed21Is` | rtl/core/frv_pipeline_decode.v:536-537 | The same for jal. |
| `Isa.StepIsExec` | rtl/core/frv_pipeline_decode.v:806-912 | For every RV32IMC instruction, compressed or not, one step of the machine reads and writes the registers that the encoding names, adds program counter and immediate where the instruction does, compares rs1 with rs2, links, requests, traps on misalignment: the effect that the standard gives. |
| `Isa.ExceptionIs` | rtl/core/frv_pipeline_writeback.v:491-499 | Exactly which of them trap, with codes 3, 4, 6 and 11; byte accesses never do. |
| `Isa.IllegalTraps` | rtl/core/frv_pipeline_decode.v:775-780 | Every other encoding raises code 2 and saves its address. |
| `Isa.ThreeOperands` | rtl/core/frv_pipeline_decode.v:907-912 | An operation on three registers gets rs1, rs2 and rs3; both halves of a wide result reach their registers. |
| `XcMemory.XcStep` | rtl/core/frv_pipeline_decode.v:875-908 | The twelve indexed accesses: rs1 plus rs2 times the width, the third register as store data, a read without result for gather and scatter. |
| `Rvc.Expands` | rtl/core/frv_pipeline_decode.vh:58-84 | The decoder accepts exactly the listed 16-bit patterns, and decodes each to the operation of the 32-bit expansion that the RISC-V standard gives (sections 16.3 to 16.5). |
| `Rvc.StepExpands` | rtl/core/frv_pipeline_decode.vh:58-84 | Executing a compressed instruction and executing its expansion, with size two, give the same architectural state. |
| `Program.RunsExpansions` | rtl/core/frv_pipeline_decode.v:429-632 | On every schedule the core retires what the sequential machine retires on the expanded program, whatever the parameter decodes the remaining encodings to, third source register included. |
| `Program.RunsProgram` | rtl/core/frv_pipeline.v:213-399 | For every program of RV32IMC instructions and every schedule, the core's program counter, registers, mepc and data requests are those of the instructions as `Isa.Exec` defines them. |
| `Program.HypothesesMet` | verif/rvfi/fi_fairness.sv:206-243 | The assumptions of `Program.RunsExpansions` are met together by a loop of a compressed load, an add, a gather and a compressed jump, in fair runs of every length that retire instructions. |
| `Program.OneRound` | rtl/core/frv_pipeline_decode.v:429-632 | What one round of that loop does to registers and data requests. |
| `Lanes.MmioWindow` | rtl/core/frv_core.v:94-95 | The memory-mapped window is the one of base and mask. |
| `Lanes.StoreThenLoad` | rtl/core/frv_lsu.v:111-136 | Through strobes, store lanes and load lanes, a load returns the extended low bits of what was stored, and no other byte changes. |
| `Lanes.LoadMeans` | rtl/core/frv_pipeline_writeback.v:373-396 | A load returns the sign- or zero-extended little-endian value of the byte memory that the earlier stores left. |
| `Lanes.StoreMeans` | rtl/core/frv_lsu.v:113-136 | A store changes exactly the bytes that its width names; nothing else changes memory. |
| `Traps.TrapRegisters.Clock` | rtl/core/frv_csrs.v:330-370 | mtvec, mepc and mcause after an edge; a legal mtvec stays legal. |
| `Traps.MepcAfter` | rtl/core/frv_csrs.v:414-440 | A trap or interrupt saves its program counter; csrrw, csrrs and csrrc leave the written, set or cleared bits but bit 0; otherwise mepc stays. |
| `Traps.MtvecAfter` | rtl/core/frv_csrs.v:330-370 | Which writes to mtvec are taken, and the bits that they leave. |
| `Traps.McauseAfter` | rtl/core/frv_csrs.v:458-491 | When mcause changes, and the bits that it then has. |
| `Traps.RunKeepsLegal` | rtl/core/frv_csrs.v:341-366 | No sequence of CSR writes, sets, clears and traps leaves an unsupported mode or a misaligned vectored base. |
| `Traps.InterruptUnit.Clock` | rtl/core/frv_interrupts.v:48-74 | The registered cause is below 32 and names a pending source by priority. |
| `Traps.TargetIsVectored` | rtl/core/frv_pipeline_writeback.v:286-293 | In every reachable state the OR-ed target is BASE + 4 * cause for vectored interrupts and BASE otherwise. |
| `Traps.SetAndClear` | rtl/core/frv_csrs.v:346-354 | csrrs and csrrc on mtvec do what the instructions mean if and only if the mode was direct or the mask names the mode bit. |
| `Traps.ModeLost` | rtl/core/frv_csrs.v:346-354 | From reset: vectored mode, then a csrrs or a csrrc of other bits, and the mode is direct. |
| `Traps.CauseRecorded` | rtl/core/frv_csrs.v:466-491 | A trap updates mcause if and only if the operands left in writeback do not look like an unlisted mcause write, or the value was there before. |
| `Traps.MisalignedCause` | rtl/core/frv_csrs.v:472-482 | So a misaligned word access loses its cause exactly when its address ends in 0x342 (or the cause was there before). |
| `Traps.LoadCauseLost` | rtl/core/frv_csrs.v:472-482 | From reset: a misaligned load at 0x2342 leaves mcause zero, one at 0x2346 sets it. |
| `StaleCause.CauseKept` | rtl/core/frv_pipeline_writeback.v:227-232 | The CSR lines show the operand registers of writeback; a trap's cause reaches mcause if and only if operand A is an exception code, or operand B does not end in 0x342, or it was there before. |
| `StaleCause.MepcShown` | rtl/core/frv_csrs.v:414-440 | mepc after a trap is the pipeline's trapping program counter. |
| `StaleCause.MisalignedShows` | rtl/core/frv_pipeline_memory.v:160-161 | In every run: for a misaligned access with all four strobes that means exactly when its address does not end in 0x342. |
| `StaleCause.CallBehindStore` | rtl/core/frv_pipeline_memory.v:193-201 | From reset, for all register contents, in a fair run: an ecall behind a store shows the store's data and address there, and loses its cause exactly by that rule. |
| `StaleCause.CallCauseLost` | rtl/core/frv_csrs.v:466-491 | With 0x1234 stored to 0x2342, mcause stays zero. |
| `Timer.Counters.Clock` | rtl/core/frv_counters.v:61-133 | The timer registers, the interrupt and the MMIO read data after an edge. |
| `Timer.ReadOnce` | verif/unit/share/util.S:12-15 | Equal high words mean that the pair is mtime at the low-word read, however long the loads take. |
| `Timer.RdMtime` | verif/unit/share/util.S:7-17 | `__rd_mtime` reads the low word once an iteration and returns the exact time of its last low-word read, after at most two of them if two iterations take fewer than 2^32 ticks. |
| `Timer.WrMtimecmp` | verif/unit/share/util.S:31-40 | During `__wr_mtimecmp` no edge shows a compare value below both old and new, so no interrupt comes unless the time had reached one of them. |
| `Isw.PairStep` | verif/unit/isw_mul/mul_isw.S:31-51 | One inner iteration moves the cross products of two shares into the result; the random word cancels. |
| `Isw.MulIsw` | verif/unit/isw_mul/mul_isw.S:13-57 | For every share count above one, all shares and all random words, the XOR of the result shares is the AND of the two secrets. |
| `Isw.Split` | verif/unit/isw_mul/test_isw.c:38-59 | The shares of a secret XOR to the secret. |
| `Isw.TestMain` | verif/unit/isw_mul/test_isw.c:38-69 | Splitting, multiplying and recombining gives `a & b`. |
| `Elastic.NextIsQueue` | rtl/core/frv_pipeline_register.v:51-143 | One edge of the two-place register is a queue operation; full exactly when busy, empty after a flush. |
| `Elastic.NothingLost` | rtl/core/frv_pipeline_register.v:51-143 | Over any pattern of valid and busy, what went in is what came out followed by at most two held items, in order. |
| `Elastic.Register.Clock` | rtl/core/frv_pipeline_register.v:62-143 | The clocked registers take the next values of the model. |
| `Elastic.Stream` | rtl/core/frv_pipeline_register.v:62-143 | Clocking the register through a run takes in and passes on exactly the items of the run. |
| `SramAgent.Agent.DriveResponse` | flow/verilator/sram_agent.cpp:47-84 | Responses come oldest request first, after a bounded wait. |
| `SramAgent.Agent.TakeRequest` | flow/verilator/sram_agent.cpp:87-125 | Granted requests are queued in order; refusals are counted. |
| `SramAgent.Agent.PosedgeClk` | flow/verilator/sram_agent.cpp:87-139 | Acknowledged responses, the one being driven and the queue are always the granted requests in order; an unacknowledged response stays. |
| `SramAgent.HeldRequestIsGranted` | flow/verilator/sram_agent.cpp:94-123 | A held request is granted at the clock edge after at most `max_req_stall` refusing edges, whatever the random draws. |
| `SramAgent.WaitingRequestIsServed` | flow/verilator/sram_agent.cpp:47-84 | A waiting request is answered within `max_rsp_stall` + 1 edges when the channel is free. |
| `Funnel.StagesRotate` | rtl/core/frv_bitwise.v:53-58 | The six conditional stages rotate right by the amount, for all 64 amounts. |
| `Funnel.LeftIsShiftOr` | rtl/core/frv_bitwise.v:60-72 | Reversal before and after makes a left rotation. |
| `Funnel.ResultBits` | rtl/core/frv_bitwise.v:118-131 | Bit by bit: fsl and fsr give the high word of rs1:rs3 rotated by the amount, zeros above; mror gives rs1:rs2 rotated by rs3. |
| `Funnel.AmountIs` | rtl/core/frv_bitwise.v:40-58 | The amount is the number in the six low bits. |
| `Funnel.NetworkMeetsSpec` | rtl/core/frv_bitwise.v:46-72 | fsl, fsr and mror equal the shift-or specifications of the instruction checks, for all operands. |
| `Funnel.LeftUndoesRight` | verif/rvfi/models/insn_fsl.v:14-17 | Rotating left and right by the same amount cancel. |
| `Clmul.ClmulRef` | verif/rvfi/xcfi_shared.vh:7-24 | The loop computes the product of polynomials over GF(2). |
| `Clmul.NothingCutOff` | verif/rvfi/xcfi_shared.vh:8-11 | The product has no coefficient outside the 64-bit result. |
| `Clmul.Commutes` | verif/rvfi/xcfi_shared.vh:7-24 | The product is commutative. |
| `Clmul.DistributesLeft` | verif/rvfi/xcfi_shared.vh:7-24 | The product distributes over XOR in its first argument. |
| `Clmul.DistributesRight` | verif/rvfi/xcfi_shared.vh:7-24 | The product distributes over XOR in its second argument. |

## Left out

- Interrupts inside the pipeline: an access granted while it waits in the memory stage can be flushed by an interrupt (`rtl/core/frv_pipeline_writeback.v:489-490`), so precise interrupts do not hold; only cause and vector are modelled.
- Bus errors and the error tags of the fetch buffer: the tag shift uses the insertion point instead of the number of half-words removed (`rtl/core/frv_core_fetch_buffer.v:92`), so tags do not follow their half-words.
- CSR, RNG and leakage-fence instructions, and with them the serialising bubbles, `lf_count` and the pseudo-random operand flushes.
- Accesses to the memory-mapped registers: their wires are in `Core`, but the refinement is about programs that stay out of that window.
- The mstatus stack and illegal-CSR traps; `mtval` is constant zero.
- `EndToEnd.Refines`: the arithmetic of the ALU, multiplier, bitwise and algorithm-specific units is arbitrary; results depend only on the operands the instruction uses, and a unit that is ready has its result.
- `Decode.DecoderIsGood`: XCrypto, bit-manipulation, CSR and RNG encodings are a parameter, with up to three source registers, that must be consistent in its operand sources; `XcMemory.XcRaw` is one such parameter.
- `CoreUnit.Pipeline.Clock`: the CSR, RNG, leakage-fence, bus-error and interrupt registers and wires are absent, and the bitwise unit, which is always ready, has no ready input.
- `Rvc.StepExpands`: addition and OR of the ALU are taken as they are named; `frv_alu` is not part of this model.
- `Isw.MulIsw`: the do-while loops are while loops, which is the same from two shares on (with one share the original reads past its arrays); nothing is said about probing security, only about the value.
- `SramAgent.Agent.PosedgeClk`: `set_reset` is not modelled; it frees the newest request while it pops the oldest, and leaves the values to be driven unchanged.
- `Elastic.Register.Clock`: on a flush two blocks of the source assign the buffered item; it is never read afterwards.
- `Timer.RdMtime`: mtime is not written and does not wrap 64 bits during the read; the routine is followed for a given number of iterations.
- `Timer.WrMtimecmp`: needs one edge before the call, so that the interrupt register and the compare value shown are those of the hardware.
- Bus wrappers, AXI and BRAM adapters, UART, boot loader, the parameter variants and the RVFI-only tracing.
