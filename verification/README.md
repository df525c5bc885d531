# Adreno KGSL driver: preemption, command streams, firmware, snapshots

This project models parts of the Adreno GPU kernel driver and proves what they are for. Everything is
stated for all inputs, all interleavings and runs of any length.

**Preemption.** Several ringbuffers, in priority order, share one GPU and one hardware write pointer. The
driver switches between them with a small state machine (NONE, START, TRIGGERED, FAULTED, PENDING,
COMPLETE) that the completion interrupt, a timer, a worker, the dispatcher and the submitters advance.
`gpu_model.dfy` has the driver's state, the GPU it drives (write pointer, switch register, saved records,
page table in force, per-ring streams of what the GPU executes) and one function for each handler and for
each thing the GPU does; `device.dfy` carries the handlers out field by field, in the statements of the
driver, and proves each of them against its function. Over runs of that model:

- whenever no preemption is in progress the hardware write pointer is that of the current ring, and no ring
  is ever overrun (`preempt_safety.dfy`); switches are one at a time, and without new work there are no more
  switches than rings (`bounded_switching.dfy`);
- every indirect buffer of a context with a page table of its own runs under that table
  (`address_space.dfy`), with interrupts, timer, faults and GPU at work between the two submissions of a
  command. The driver does not look at the result of the submission that switches tables, so this needs the
  allocator to have room for it, and no fault that refused one to be dropped without a restart.
  `lost_switch.dfy` states exactly when an accepted command ends up behind the wrong table, and has a run
  from power-on for either cause in which a buffer of one process runs under the page table of another;
  `stream_size.dfy` counts the dwords of the submissions in these runs;
- timestamps retire in order although some are used up by failed submissions (`timestamps.dfy`), and the
  context references taken by switching are conserved (`references.dfy`).

`lock_regions.dfy` is the same machine at the grain of lock regions, reads and writes of the state word, and
register writes. The interrupt is one thread; the holder of the device mutex (a submitter, the dispatcher, the
worker, or a recovery) is the other; between any two of their steps timer and GPU may move. The state word is
written without the ring locks, a submitter looks at it and at the current ring under no other lock than its
ring's, and a soft reset masks interrupts without waiting for a handler. So the file proves: a step keeps every
section to one thread and the register with the ring the hardware is on, if and only if it is neither a
completion interrupt or timeout between the write of TRIGGERED and the write of the switch register, nor a
submitter's register write after the hardware has left its ring, nor the fresh start of a stopped GPU while the
interrupt is in a handler. `lock_runs.dfy` has a run up to each gap, and the damage from any such state. There
the register can also lag in state NONE; `lock_repair.dfy` proves that the next trigger repairs the lag or
announces a switch upwards, unless the GPU is restarted, and that the ring locks never stop both threads.
`handlers_atomic.dfy` proves that a handler, a submission's end or a restart that is not interleaved with
anything does what its single step in the coarse model does.

**Command streams.** `pm4.dfy` has packets, their header words bit by bit, an encoder, a parser and an
executor, in which every packet but a NOP around several words leaves an event; `parity.dfy` their parity bit;
`ring_space.dfy` the allocation of ring space, round the end of the ring as well, and the writing of words. The builders of a5xx
(`a5xx_stream.dfy`, `a5xx_commands.dfy`) and a3xx (`a3xx_stream.dfy`, `a3xx_commands.dfy`) write into arrays
word by word; what they write parses into whole packets, fits the space set aside for it, and does what was
asked. `stream_meaning.dfy` and `stream_size.dfy` connect the two halves: what those streams do is, event by
event, what the GPU model puts on its rings, and they are as long as it takes them to be.

**Firmware** (`gpmu.dfy`, `firmware.dfy`, `reg_sequence.dfy`): the microcode loader's packets, the block
files and the register sequences, each with an encoder of the format as the independent reference.

**Crash dumps** (`crash_script.dfy`, `crash_dump.dfy`, `crash_readback.dfy`): the script, an interpreter
for it, the layout of the data, and what the snapshot sections read back.

**Smaller parts**: handing secure buffers over for hibernation (`hibernate.dfy`), the AHB timeout
(`ahb_timeout.dfy`), counter differences (`counter.dfy`). `wrappers.dfy` has options, folds and facts about
sequences.

Where the code does not do what its name or comment says, the model follows the code:

- A malformed microcode file is reported as success, and nothing is built, unless it is the block header
  that is refused: the return value is overwritten when the file is requested
  (`Firmware.LoadGpmuFirmware`, `Firmware.MalformedButFine`).
- The a3xx power-on fix-up writes protection off twice, so a submission that carries it ends unprotected
  unless it was sent as not protected (`A3xxCommands.SubmitCommandRoundTrip`).
- A context switch that the allocator refuses, or a fault, is forgotten: the context counts as active, and
  its buffers run under the page table that was there (`LostSwitch.LostSwitch`, `LostSwitch.DroppedFault`).
- A submitter that has found state NONE and its own ring current can write its offset to the register after
  the interrupt has fired a switch, and so onto another ring (`LockRuns.LateStore`).
- A handler of the interrupt that is under way when the GPU is reset can fire its switch on the GPU that has
  just been started (`LockRuns.RestartTooSoon`).
- A refused unlock of a process's buffer still marks the buffer as handed over (`Hibernate.FlagsTellIff`).
- A wrapped counter loses one tick and a reading of zero loses the ticks after it
  (`CounterDelta.SumAccounts`).

Modelling choices. Ring offsets in the GPU model are running totals, in commands and in dwords; the allocator
works on the dword totals taken round the ring, and `PreemptSafety.NoRingOverrun` shows that "empty" means the
same on either. What a submission is asked to hold and what it holds in the end are parameters within the
bounds that `A5xxStream.WriteSubmission` proves. What other parts of the driver answer (is the context
detached, is the device awake, does the hypervisor agree) are parameters. The GPU may save and leave a ring
at any command but between a page table update and its record; that is more freedom than the yield packet
gives it. Parity bits are computed by counting in the header functions, and `parity.dfy` proves that the driver's
folding gives the same; power-of-two tests are computed by halving. A restart step stands for power-up and for recovery. The AHB minimum is
compared with 1 << 31 as a negative number, so it is not enforced beyond 2^31 cycles; that would take a clock
of more than 2147 GHz (`AhbTimeout.MinimumHolds`).

## Model

| member | source | states |
|---|---|---|
| Pm4.HeaderRoundTrip | qcom/opensource/graphics-kernel/adreno_pm4types.h:192-268 | every header built from fields that fit passes the parity and reserved-bit checks and gives kind, opcode or register, and count back |
| Parity.ParityBitIsOdd | qcom/opensource/graphics-kernel/adreno_pm4types.h:192-198 | for every 32-bit value, folding its nibbles and looking the result up in the constant gives the bit that makes the number of set bits odd |
| Parity.KnownHeaders | qcom/opensource/graphics-kernel/adreno_pm4types.h:203-231 | the header words of the packets in use, as numbers (with MoreHeaders, PreemptHeaders and OlderHeaders) |
| Pm4.ParseEncode | qcom/opensource/graphics-kernel/adreno_pm4types.h:203-268 | the parser inverts the encoder on every list of packets |
| Pm4.ParseAppend | qcom/opensource/graphics-kernel/adreno_a5xx_ringbuffer.c:207-208 | whole streams stay whole when one is copied behind the other |
| RingSpace.AllocIsSafe | qcom/opensource/graphics-kernel/adreno_ringbuffer.c:68-105 | an allocation is one contiguous run of free dwords, unread dwords grow by exactly it (and a skipped tail), a ring with work never looks empty, and a refusal means blocked both at the offset and at the start |
| RingSpace.Ringbuffer.AllocSpace | qcom/opensource/graphics-kernel/adreno_ringbuffer.c:68-105 | the slot and the new offset; going round leaves at the old offset a NOP header that counts the whole tail and touches no other word, and otherwise the memory is untouched; or no change at all |
| RingSpace.Ringbuffer.TailIsOneNop | qcom/opensource/graphics-kernel/adreno_ringbuffer.c:84-96 | whatever the tail holds, from the old offset to the end of the ring there is then one packet, a NOP over all of it, and every other word is as before |
| RingSpace.Ringbuffer.StreamGrows | qcom/opensource/graphics-kernel/adreno_ringbuffer.c:68-105 | what the hardware has yet to read, round the end of the ring or not, splits into the packets that were there, the NOP over the tail, and those that were written, with nothing in between |
| RingSpace.EmptyOnTotals | qcom/opensource/graphics-kernel/adreno.h:1629-1632 | below a ring's worth outstanding, read and write offset agree exactly when the totals do |
| RingSpace.RestIsFree | qcom/opensource/graphics-kernel/adreno_a5xx_ringbuffer.c:280-284 | the dwords that an allocation reserved and the stream did not use can be had right behind the stream, however far the hardware has read on since |
| RingSpace.AllocOnTotals | qcom/opensource/graphics-kernel/adreno_ringbuffer.c:68-105 | on running totals: each accepted allocation keeps the write total less than a ring's worth ahead of the read total, the tail of a round trip counted, and an empty ring with room to its end is never refused |
| A5xxStream.PreIbSubmit | qcom/opensource/graphics-kernel/adreno_a5xx_preempt.c:319-392 | at most 14 dwords, exactly the preemption preamble of the context's style, or none |
| A5xxStream.EmitHead | qcom/opensource/graphics-kernel/adreno_a5xx_ringbuffer.c:165-205 | everything before the caller's commands, in order, at most 32 dwords, nothing else touched |
| A5xxStream.EmitClose | qcom/opensource/graphics-kernel/adreno_a5xx_ringbuffer.c:210-241 | what follows the caller's commands, at most 11 dwords |
| A5xxStream.EmitRetire | qcom/opensource/graphics-kernel/adreno_a5xx_ringbuffer.c:243-278 | timestamps, idle, leaving secure mode, yield, at most 18 dwords |
| A5xxStream.WriteSubmission | qcom/opensource/graphics-kernel/adreno_a5xx_ringbuffer.c:165-278 | the whole submission at its place, at most 61 dwords beyond the caller's, of the 64 that are reserved |
| A5xxStream.Place | qcom/opensource/graphics-kernel/adreno_a5xx_ringbuffer.c:145-281 | the slot is taken, filled, and the write offset corrected to just behind the last dword |
| A5xxStream.Submit | qcom/opensource/graphics-kernel/adreno_a5xx_ringbuffer.c:62-97 | hand-over behind the read-pointer update where one is asked for, with the register written exactly in NONE on the current ring; with no space for the update, nothing changes |
| A5xxStream.AddCmds | qcom/opensource/graphics-kernel/adreno_a5xx_ringbuffer.c:138-287 | for all flags, contexts and profiles, with and without preemption: the error cases, the timestamp even on no space, and after success the whole memory, the offsets, the register, and that everything accepted is handed over |
| A5xxStream.SubmissionIsWhole | qcom/opensource/graphics-kernel/adreno_a5xx_ringbuffer.c:165-278 | around any whole payload the words split into whole packets: head, the payload's packets, tail |
| A5xxStream.SubmissionRuns | qcom/opensource/graphics-kernel/adreno_a5xx_ringbuffer.c:165-278 | started protected and unsecured, the payload runs in the modes the flags ask for and the modes are restored; every packet but a longer NOP leaves an event, and these are, in order: the mark, fine-grained preemption exactly for a context that asks for it and is not secure, the record address by its halves, profiling, stamps (the end stamp that interrupts is the context's, or the ring's without one), waits, modes and the yield |
| A5xxStream.SyncReports | qcom/opensource/graphics-kernel/adreno_a5xx_ringbuffer.c:72-83 | without preemption, and only then, a packet follows that makes the GPU report its read offset to the given address |
| A5xxCommands.PagetableSwitch | qcom/opensource/graphics-kernel/adreno_a5xx_ringbuffer.c:14-50 | 18 dwords that install and record the table, or none for the default table |
| A5xxCommands.SwitchCommands | qcom/opensource/graphics-kernel/adreno_a5xx_ringbuffer.c:335-368 | a context switch within its 32 dwords, table packets only when the table changes |
| A5xxCommands.BuildCommand | qcom/opensource/graphics-kernel/adreno_a5xx_ringbuffer.c:425-499 | a user command never exceeds the 32 + 5n dwords allocated and is exactly its packets; what those do is SubmitCommandRoundTrip |
| A5xxCommands.ListedBuffersRun | qcom/opensource/graphics-kernel/adreno_a5xx_ringbuffer.c:452-470 | the buffers that run are, in list order, those not to be skipped, of a preamble only if it is asked for, and none if the command is skipped; each with its address and with its size in dwords, of which 20 bits are kept |
| A5xxCommands.SwitchRuns | qcom/opensource/graphics-kernel/adreno_a5xx_ringbuffer.c:335-371 | the table is installed, waited for and recorded exactly when it differs from the active one and is not the default; the new context is marked |
| A5xxCommands.SubmitCommandRoundTrip | qcom/opensource/graphics-kernel/adreno_a5xx_ringbuffer.c:433-499 | what reaches the ring parses, and runs exactly the buffers of ListedBuffersRun between marks, profiling reads and settings, first half before and second half after; each skip NOP swallows its one buffer; the modes end restored |
| A5xxCommands.SubmitSwitchRoundTrip | qcom/opensource/graphics-kernel/adreno_a5xx_ringbuffer.c:335-371 | the same for the submission that switches contexts |
| A3xxStream.EmitHead | qcom/opensource/graphics-kernel/adreno_a3xx_ringbuffer.c:206-248 | everything before the caller's commands with the optional fix-up, at most 22 dwords |
| A3xxStream.EmitTail | qcom/opensource/graphics-kernel/adreno_a3xx_ringbuffer.c:253-307 | everything after them, at most 22 dwords |
| A3xxStream.AddCmds | qcom/opensource/graphics-kernel/adreno_a3xx_ringbuffer.c:180-317 | error cases, timestamp, memory, offsets and the write-pointer register within A3XX_SUBMIT_MAX + dwords, for all flags |
| A3xxStream.SubmissionIsWhole | qcom/opensource/graphics-kernel/adreno_a3xx_ringbuffer.c:206-307 | around any whole payload the words split into whole packets |
| A3xxStream.SubmissionRuns | qcom/opensource/graphics-kernel/adreno_a3xx_ringbuffer.c:206-307 | the payload runs protected exactly without fix-up and without the not-protected flag, between exactly the submission's own events; protection at the end follows from that flag or the payload |
| A3xxCommands.VbifLock | qcom/opensource/graphics-kernel/adreno_a3xx_ringbuffer.c:27-52 | the bus stall, 14 dwords |
| A3xxCommands.VbifUnlock | qcom/opensource/graphics-kernel/adreno_a3xx_ringbuffer.c:54-69 | its release, 6 dwords |
| A3xxCommands.TlbInvalidateAll | qcom/opensource/graphics-kernel/adreno_a3xx_ringbuffer.c:73-100 | flush of all translations and the wait for it, 11 dwords |
| A3xxCommands.PagetableSwitch | qcom/opensource/graphics-kernel/adreno_a3xx_ringbuffer.c:105-156 | 50 dwords, or none for the default table |
| A3xxCommands.TableRuns | qcom/opensource/graphics-kernel/adreno_a3xx_ringbuffer.c:105-156 | prefetch is stalled, the bus halted and seen to be, both halves of the table written, the bus released, the translations flushed and that waited for, in this order and nothing else |
| A3xxCommands.TableUnderHalt | qcom/opensource/graphics-kernel/adreno_a3xx_ringbuffer.c:27-156 | whatever the halt bit was before, it is set when either half of the table is written, and clear behind the switch |
| A3xxCommands.SwitchCommands | qcom/opensource/graphics-kernel/adreno_a3xx_ringbuffer.c:319-351 | a context switch within its 64 dwords |
| A3xxCommands.BuildCommand | qcom/opensource/graphics-kernel/adreno_a3xx_ringbuffer.c:392-427 | a user command never exceeds the 4 + 4n dwords allocated and is exactly its packets |
| A3xxCommands.ListedBuffersRun | qcom/opensource/graphics-kernel/adreno_a3xx_ringbuffer.c:404-419 | the buffers that run, as on a5xx, by the lower half of their address and 32 bits of their size in dwords |
| A3xxCommands.SubmitCommandRoundTrip | qcom/opensource/graphics-kernel/adreno_a3xx_ringbuffer.c:210-427 | parses and runs exactly the buffers of ListedBuffersRun between two marks; ends protected if and only if it has no fix-up or was sent as not protected |
| A3xxCommands.SubmitSwitchRoundTrip | qcom/opensource/graphics-kernel/adreno_a3xx_ringbuffer.c:319-351 | the same for the context switch, which ends protected |
| StreamMeaning.UserSubmissionMeaning | qcom/opensource/graphics-kernel/adreno_a5xx_ringbuffer.c:165-278 | a user submission is to its ring: profiling buffer, start stamp, its buffers, end stamp, yield point |
| StreamMeaning.SwitchSubmissionMeaning | qcom/opensource/graphics-kernel/adreno_a5xx_ringbuffer.c:14-50 | a switching submission is to its ring: the table update and its record between the stamps when the table changes, else nothing |
| StreamMeaning.InternalSubmissionMeaning | qcom/opensource/graphics-kernel/adreno_a5xx_perfcounter.c:76-83 | a submission for no context that selects a counter leaves only its two stamps and the yield point on the ring |
| StreamSize.SwitchCount | qcom/opensource/graphics-kernel/adreno_a5xx_ringbuffer.c:335-371 | a context switch asks for 30 dwords with a table and 12 without |
| StreamSize.SubmissionCount | qcom/opensource/graphics-kernel/adreno_a5xx_ringbuffer.c:165-281 | how many dwords a submission has beyond its caller's, flag by flag, and that they are never more than 61 |
| StreamSize.SubmissionArrives | qcom/opensource/graphics-kernel/adreno_a5xx_ringbuffer.c:138-287 | after an accepted submission, what the hardware has yet to read splits into what it had to read before, the NOP over the tail if the ring is gone round, the submission around its caller's packets, and the read-offset report without preemption |
| StreamSize.CommandCount | qcom/opensource/graphics-kernel/adreno_a5xx_ringbuffer.c:425-499 | an unprofiled command of n buffers asks for 12 + 4n dwords |
| StreamSize.SizesAreReal | qcom/opensource/graphics-kernel/adreno_a5xx_ringbuffer.c:138-281 | the sizes in the runs that lose a switch are those of real submissions |
| GpuModel.NextRing | qcom/opensource/graphics-kernel/adreno_a5xx_preempt.c:147-166 | the result is the first ring that is not empty, and none only if all are empty |
| GpuModel.SubmissionOutcome | qcom/opensource/graphics-kernel/adreno_a5xx_ringbuffer.c:150-287 | a detached context or a fault leaves everything as it was, a lack of space changes the timestamp only; otherwise the ring gains exactly the commands between their two stamps, and the register is written exactly in NONE on the current ring |
| GpuModel.SwitchOutcome | qcom/opensource/graphics-kernel/adreno_a5xx_ringbuffer.c:373-398 | a switch is refused, with nothing changed, exactly when the context is not active yet and is detached or dying; one that goes ahead makes the context active, takes its reference, and gives the old one back later or, if that cannot be arranged, at once |
| GpuModel.BeginOutcome | qcom/opensource/graphics-kernel/adreno_a5xx_ringbuffer.c:501-521 | a command whose switch is refused leaves everything as it was; any other goes on to its submission with its context active on its ring |
| GpuModel.RestartedRing | qcom/opensource/graphics-kernel/adreno.c:1929-1992 | a restart empties every ring and its record, its scratch area names the default table, no context is active; its stamps stay, but after a fault those of the ring found on the hardware all equal its timestamp |
| GpuModel.RestartOutcome | qcom/opensource/graphics-kernel/adreno_dispatch.c:2018-2096 | the GPU comes back in NONE on the current ring, after a fault the one found on the hardware, with the default table and no switch or fault pending |
| DriverDevice.Device.constructor | qcom/opensource/graphics-kernel/adreno_a5xx_ringbuffer.c:99-130 | a device with its rings as they are set up |
| DriverDevice.Device.MoveState | qcom/opensource/graphics-kernel/adreno.h:1758-1762 | compare and exchange of the state word |
| DriverDevice.Device.NextRingbuffer | qcom/opensource/graphics-kernel/adreno_a5xx_preempt.c:147-166 | the loop finds the highest priority ring with work |
| DriverDevice.Device.RefreshWptr | qcom/opensource/graphics-kernel/adreno_a5xx_preempt.c:18-43 | the register holds the current ring's offset |
| DriverDevice.Device.ArmSwitch | qcom/opensource/graphics-kernel/adreno_a5xx_preempt.c:214-252 | record, page table, target, state and switch register of a new switch |
| DriverDevice.Device.PreemptionTrigger | qcom/opensource/graphics-kernel/adreno_a5xx_preempt.c:168-253 | no change outside NONE; refresh, switch, or nothing, by the first ring with work |
| DriverDevice.Device.FinishSwitch | qcom/opensource/graphics-kernel/adreno_a5xx_preempt.c:80-93 | the target becomes current, gets its offset, and the state is NONE |
| DriverDevice.Device.PreemptCallback | qcom/opensource/graphics-kernel/adreno_a5xx_preempt.c:255-300 | finish and trigger, or COMPLETE when the switch is still going on |
| DriverDevice.Device.PreemptionDone | qcom/opensource/graphics-kernel/adreno_a5xx_preempt.c:45-94 | nothing while power is off, a fault while the switch is going on, else the finish |
| DriverDevice.Device.PreemptionSchedule | qcom/opensource/graphics-kernel/adreno_a5xx_preempt.c:302-317 | completes what is complete, then triggers |
| DriverDevice.Device.PreemptionTimer | qcom/opensource/graphics-kernel/adreno_ringbuffer.c:158-171 | TRIGGERED becomes FAULTED, any other state stays |
| DriverDevice.Device.PreemptionWorker | qcom/opensource/graphics-kernel/adreno_a5xx_preempt.c:96-144 | FAULTED becomes COMPLETE if the switch is over, else a fault |
| DriverDevice.Device.RingSubmit | qcom/opensource/graphics-kernel/adreno_a5xx_ringbuffer.c:85-94 | the new offset counts, and reaches the register exactly in NONE on the current ring |
| DriverDevice.Device.RingAddCmds | qcom/opensource/graphics-kernel/adreno_a5xx_ringbuffer.c:150-287 | a detached context is refused first, then a fault, each with nothing changed; then the timestamp advances, with or without space, and the submission is made |
| DriverDevice.Device.PutOnTimestamp | qcom/opensource/graphics-kernel/adreno_drawctxt.c:600-610 | the put is deferred, or done at once if the event cannot be added |
| DriverDevice.Device.DrawctxtSwitch | qcom/opensource/graphics-kernel/adreno_a5xx_ringbuffer.c:373-398 | if the context is not active and is detached or dying, -ENOENT with the whole state unchanged; otherwise success with the context active: reference, switching submission whose result is ignored, put of the old context |
| DriverDevice.Device.SubmitCommand | qcom/opensource/graphics-kernel/adreno_a5xx_ringbuffer.c:501-530 | switch, then the commands; if the switch was refused, -ENOENT and the whole state unchanged; success only with the context active and not detached |
| DriverDevice.Device.SetActiveContextsNull | qcom/opensource/graphics-kernel/adreno.c:1679-1694 | the loop clears every active context and gives one reference back for each |
| DriverDevice.Device.PreemptionStart | qcom/opensource/graphics-kernel/adreno_a5xx_preempt.c:412-461 | state NONE, target untouched, all records and scratch areas reset |
| DriverDevice.Device.RingbufferStart | qcom/opensource/graphics-kernel/adreno_a5xx.c:1811-1828 | every ring is empty |
| DriverDevice.Device.BlameRing | qcom/opensource/graphics-kernel/adreno_dispatch.c:2028-2094 | the ring on the hardware becomes current and all its timestamps count as reached |
| DriverDevice.Device.RestartGpu | qcom/opensource/graphics-kernel/adreno.c:1929-1992 | blame, contexts, preemption start and ring start, in this order |
| DriverDevice.CommandIsTwoSteps | qcom/opensource/graphics-kernel/adreno_a5xx_ringbuffer.c:501-530 | a command that nothing interrupts is its context switch step followed by its submission step |
| PreemptSafety.HandlersAreReady | qcom/opensource/graphics-kernel/adreno_a5xx_preempt.c:255-317 | in every sound state each handler finds the target it needs, those under the device mutex once it is free |
| PreemptSafety.StepInv | qcom/opensource/graphics-kernel/adreno_a5xx_preempt.c:18-461 | every step of driver and GPU, faults and resets included, keeps the invariant |
| PreemptSafety.RunInv | qcom/opensource/graphics-kernel/adreno_a5xx_preempt.c:18-461 | so does every run |
| PreemptSafety.AdvanceFits | qcom/opensource/graphics-kernel/adreno_a5xx_ringbuffer.c:280-281 | a submission that finds a slot, once its offset is taken back to its last dword, leaves its ring ordered and not overrun |
| PreemptSafety.NoRingOverrun | qcom/opensource/graphics-kernel/adreno_ringbuffer.c:68-105 | in every reachable state each ring has less than its size unread, and comparing offsets finds it empty exactly when all of it is reported |
| PreemptSafety.NoLostWritePointer | qcom/opensource/graphics-kernel/adreno_a5xx_preempt.c:18-43 | in every reachable state with NONE the hardware write pointer is that of the current ring, which the GPU is on |
| PreemptSafety.OneSwitchAtATime | qcom/opensource/graphics-kernel/adreno_a5xx_preempt.c:168-300 | outside NONE there is a target other than the current ring, the GPU is on the one or the other by the switch register, and START and PENDING are never left behind |
| PreemptSafety.SwitchDiscipline | qcom/opensource/graphics-kernel/adreno_a5xx_preempt.c:168-252 | a switch starts only towards the first ring with work; in flight, no driver step but a restart touches write pointer, switch register or record address |
| BoundedSwitching.SwitchingIsBounded | qcom/opensource/graphics-kernel/adreno_a5xx_preempt.c:147-204 | without submissions and restarts the targets have strictly increasing index, so there are at most as many switches as rings |
| BoundedSwitching.OnlyUpwardsFromWork | qcom/opensource/graphics-kernel/adreno_a5xx_preempt.c:147-166 | a ring that still has work is left only for one of higher priority |
| AddressSpace.StepAddr | qcom/opensource/graphics-kernel/adreno_a5xx_preempt.c:214-238 | every step whose context switches land keeps scratch areas, streams, active contexts and the live table in agreement |
| AddressSpace.BuffersRunAtHome | qcom/opensource/graphics-kernel/adreno_a5xx_ringbuffer.c:14-50 | over every such run, with anything between the two submissions of a command, each buffer of a context with its own table runs under that table, and each scratch area holds the table its executed stream installed last |
| LostSwitch.SubmissionAtHomeIff | qcom/opensource/graphics-kernel/adreno_a5xx_ringbuffer.c:389-398 | whatever happens between its two submissions, an accepted command is behind its context's table if and only if the allocator had room for the switch, or none was needed, or the table happens to be the ring's last |
| LostSwitch.LostSwitch | qcom/opensource/graphics-kernel/adreno_a5xx_ringbuffer.c:389-390 | a run from power-on in which a long command leaves room for the next command but not for its switch, so that its buffer runs under the other context's table |
| LostSwitch.DroppedFault | qcom/opensource/graphics-kernel/adreno_dispatch.c:1953-1995 | a run in which a fault refuses a switch and is then dropped because the MMU is stalled, with the same end |
| Timestamps.StepTime | qcom/opensource/graphics-kernel/adreno_a5xx_ringbuffer.c:156-161 | every step, failed submissions and blame included, keeps pending stamps in order and never lowers a retired value |
| Timestamps.TimestampOrder | qcom/opensource/graphics-kernel/adreno.c:2902-2955 | in every reachable state retired <= consumed <= timestamp on each ring, and each end stamp strictly raises the retired value |
| References.StepRefs | qcom/opensource/graphics-kernel/adreno_a5xx_ringbuffer.c:373-398 | every step keeps references equal to active contexts plus deferred puts |
| References.ReferencesConserved | qcom/opensource/graphics-kernel/adreno.c:1679-1694 | in every reachable state the references on a context are the rings where it is active plus its puts to come |
| LockRegions.StepSoundIff | qcom/opensource/graphics-kernel/adreno_a5xx_preempt.c:168-300 | at the grain of lock regions, recoveries included, a step keeps every section to one thread and the register with the ring the hardware is on, if and only if it is neither an interrupt or timeout between the two writes that start a switch, nor a submitter's write after the hardware has left its ring, nor a fresh start of the GPU while the interrupt is in a handler |
| LockRegions.SoftwareWritesAreSafe | qcom/opensource/graphics-kernel/adreno_a5xx_ringbuffer.c:85-94 | from sound states only the refresh, the submitter and the fresh start write the register, with their ring's offset; the refresh always with no switch in flight and on the current ring, the submitter if and only if no switch has been fired since it looked |
| LockRepair.LagIsRepaired | qcom/opensource/graphics-kernel/adreno_a5xx_preempt.c:168-204 | if the register lags in NONE the current ring has work, and the next trigger, within a bounded number of its own moves and whatever the others do, ends with the offset in the register or a strictly higher priority ring announced, unless the GPU has been stopped for a restart |
| LockRepair.RepairRuns | qcom/opensource/graphics-kernel/adreno_a5xx_preempt.c:147-204 | the same from every state inside such a trigger |
| LockRepair.NobodyIsStuck | qcom/opensource/graphics-kernel/adreno_a5xx_preempt.c:156-159 | in sound states a thread waits only for a ring lock that the mutex holder has, and then that one can move |
| LockRuns.LagHappens | qcom/opensource/graphics-kernel/adreno_a5xx.c:2150-2162 | a run, by the interrupt of a finished submission, that leaves any submitted offset out of the register in NONE |
| LockRuns.StaleInterrupt | qcom/opensource/graphics-kernel/adreno_a5xx_preempt.c:243-299 | from every sound state with a waiting interrupt between the two writes, that interrupt leads to NONE with a switch in flight and the wrong ring's offset in the register |
| LockRuns.StaleInterruptIsReachable | qcom/opensource/graphics-kernel/adreno_a5xx_preempt.c:96-144 | a timeout that comes before its interrupt reaches such a state |
| LockRuns.LateStore | qcom/opensource/graphics-kernel/adreno_a5xx_ringbuffer.c:85-91 | from every sound state in which the interrupt is about to fire and a submitter about to write, the submitter's offset ends up in the register of the ring that the hardware switched to |
| LockRuns.LateStoreIsReachable | qcom/opensource/graphics-kernel/adreno_a5xx_preempt.c:255-300 | such a state is reached from power-on without an untimely step |
| LockRuns.RestartTooSoon | qcom/opensource/graphics-kernel/adreno.c:2549-2582 | from every sound state of a stopped GPU in which the interrupt is about to fire, the fresh start is followed by a switch in state NONE |
| LockRuns.RestartTooSoonIsReachable | qcom/opensource/graphics-kernel/adreno_dispatch.c:2018-2096 | such a state is reached from power-on without an untimely step |
| HandlersAtomic.TriggerIsAtomic | qcom/opensource/graphics-kernel/adreno_a5xx_preempt.c:168-253 | the lock regions of a trigger that is not interleaved do what the trigger step does |
| HandlersAtomic.CallbackIsAtomic | qcom/opensource/graphics-kernel/adreno_a5xx_preempt.c:255-300 | the same for the interrupt |
| HandlersAtomic.ScheduleIsAtomic | qcom/opensource/graphics-kernel/adreno_a5xx_preempt.c:302-317 | the same for the dispatcher's pass |
| HandlersAtomic.WorkerIsAtomic | qcom/opensource/graphics-kernel/adreno_a5xx_preempt.c:96-144 | the same for the worker |
| HandlersAtomic.SubmitIsHandOver | qcom/opensource/graphics-kernel/adreno_a5xx_ringbuffer.c:85-94 | the moves of a submitter that is not interleaved are the hand-over of the coarse model |
| HandlersAtomic.RestartIsAtomic | qcom/opensource/graphics-kernel/adreno.c:1929-1992 | a recovery or power-up that is not interleaved is the restart of the coarse model |
| HandlersAtomic.TimeoutMatches | qcom/opensource/graphics-kernel/adreno_ringbuffer.c:158-171 | the timer's step is the same in both models |
| HandlersAtomic.ReportMatches | qcom/opensource/graphics-kernel/adreno.c:160-190 | a read offset that the GPU reports is the same step in both models |
| HandlersAtomic.SwitchMatches | qcom/opensource/graphics-kernel/adreno_a5xx_preempt.c:214-252 | so is the hardware's switch with the record and restore address it was given |
| Gpmu.WriteLoad | qcom/opensource/graphics-kernel/adreno_a5xx.c:508-537 | the loop writes exactly the load packets within size + size / 127 + 1 + 4 dwords |
| Gpmu.Loader.CreateLoadCmds | qcom/opensource/graphics-kernel/adreno_a5xx.c:485-542 | the stream is built once, or nothing changes |
| Gpmu.LoadPreservesMeaning | qcom/opensource/graphics-kernel/adreno_a5xx.c:515-534 | for every size: no packet above 127 words; protection goes off, ucode[i] is stored at INST_RAM_BASE + i for every i, protection goes on, and nothing else is done |
| Firmware.ReadBlockHeader | qcom/opensource/graphics-kernel/adreno_a5xx.c:759-808 | all reads in bounds; true exactly for the headers of HeaderIff |
| Firmware.HeaderIff | qcom/opensource/graphics-kernel/adreno_a5xx.c:759-808 | accepted are exactly the headers of two to ten words in pairs, with room behind them, that start with a known sequence id where one is wanted, and in which no pair names a major version that is below the one asked for and not zero |
| Firmware.GoodBlockIff | qcom/opensource/graphics-kernel/adreno_a5xx.c:858-880 | a good block is a sequence block of at least five words that, if it is the LM sequence, starts with an acceptable header |
| Firmware.BadHeaderIff | qcom/opensource/graphics-kernel/adreno_a5xx.c:581-590 | the refusal that is reported: a file of the right length and type whose header is not acceptable |
| Firmware.GpmuSlice | qcom/opensource/graphics-kernel/adreno_a5xx.c:581-602 | any slice handed on is not empty, at most 0xFFF words, and inside the file |
| Firmware.GpmuSliceOfFile | qcom/opensource/graphics-kernel/adreno_a5xx.c:581-602 | the code of every file that is laid out as documented is found |
| Firmware.FileOfGpmuSlice | qcom/opensource/graphics-kernel/adreno_a5xx.c:581-602 | no other file is accepted |
| Firmware.LoadGpmuFirmware | qcom/opensource/graphics-kernel/adreno_a5xx.c:549-613 | for every file, the empty one included: the stream of exactly the file's code, or nothing; which malformation is reported and which is not |
| Firmware.PassedOverIff | qcom/opensource/graphics-kernel/adreno_a5xx.c:549-613 | nothing is loaded and success reported exactly for an empty file, a bad length or type, or code too long behind a good header |
| Firmware.MalformedButFine | qcom/opensource/graphics-kernel/adreno_a5xx.c:581-602 | a file for each of these, the empty one among them |
| Firmware.RegFile.Load | qcom/opensource/graphics-kernel/adreno_a5xx.c:832-894 | for any file the loop ends with all reads in bounds; accepted if and only if good blocks tile the file exactly and an LM sequence is known |
| Firmware.FileIff | qcom/opensource/graphics-kernel/adreno_a5xx.c:811-887 | a file is a concatenation of good blocks exactly when the blocks found give it back |
| Firmware.LmSliceIsInside | qcom/opensource/graphics-kernel/adreno_a5xx.c:869-882 | the LM slice is not empty, inside the last LM block, and all of it behind the header |
| RegSequence.ExecuteRegSequence | qcom/opensource/graphics-kernel/adreno_a5xx.c:896-926 | ends, reads in bounds, does exactly the writes and delays of the longest well-formed prefix, and succeeds if and only if the input is a concatenation of records |
| RegSequence.EffectsByWords | qcom/opensource/graphics-kernel/adreno_a5xx.c:896-926 | each effect by the words of the input: opcode 1 or 2 writes the fourth word to the register in the second, opcode 3 waits for the second, and the next record starts 4, 5 or 2 words on |
| RegSequence.RecordsArePrefix | qcom/opensource/graphics-kernel/adreno_a5xx.c:896-926 | every input is its records and a rest that starts with none |
| RegSequence.RecordsAreUnique | qcom/opensource/graphics-kernel/adreno_a5xx.c:896-926 | the interpreter's records invert the encoder, and no other list does |
| CrashScript.ScriptFillsBuffer | qcom/opensource/graphics-kernel/adreno_a5xx_snapshot.c:1185-1219 | carrying a script out fills the data buffer, whatever was in it, with exactly the captured words in order, and writes nowhere else |
| CrashScript.DumpRuns | qcom/opensource/graphics-kernel/adreno_a5xx_snapshot.c:1185-1219 | the same for the rest of a script from any offset |
| CrashScript.KnownWords | qcom/opensource/graphics-kernel/adreno_a5xx_snapshot.c:1083-1100 | the four script words of a set, as numbers |
| CrashDump.InitShader | qcom/opensource/graphics-kernel/adreno_a5xx_snapshot.c:1052-1081 | the four banks of a block, and the place of the first |
| CrashDump.WriteBlocks | qcom/opensource/graphics-kernel/adreno_a5xx_snapshot.c:1207-1211 | all blocks behind what is there, each remembering its place |
| CrashDump.WriteSets | qcom/opensource/graphics-kernel/adreno_a5xx_snapshot.c:1083-1108 | all register sets, each remembering its place |
| CrashDump.WriteRanges | qcom/opensource/graphics-kernel/adreno_a5xx_snapshot.c:1189-1195 | one read for every register pair |
| CrashDump.Sizes | qcom/opensource/graphics-kernel/adreno_a5xx_snapshot.c:1129-1163 | the script bytes, and data bytes for every captured word |
| CrashDump.CrashdumpInit | qcom/opensource/graphics-kernel/adreno_a5xx_snapshot.c:1110-1219 | the script fills exactly script_size + 16 bytes, the data takes exactly data_size, and the tables remember their places; what carrying the script out leaves there is SetWordsAreTrue and BlockWordsAreTrue |
| CrashReadback.FittingIsLongest | qcom/opensource/graphics-kernel/adreno_a5xx_snapshot.c:700-708 | the ranges that are written are the longest prefix with room |
| CrashReadback.SnapshotRegisters | qcom/opensource/graphics-kernel/adreno_a5xx_snapshot.c:679-722 | within `remain`, each number of that prefix with the next captured word, and their count |
| CrashReadback.NumbersAt | qcom/opensource/graphics-kernel/adreno_a5xx_snapshot.c:696-714 | the numbers written are those from the first to the last of every range, in order and without gaps |
| CrashReadback.GetHlsqRegisters | qcom/opensource/graphics-kernel/adreno_a5xx_snapshot.c:796-808 | each register of a set with its word |
| CrashReadback.SnapshotHlsq | qcom/opensource/graphics-kernel/adreno_a5xx_snapshot.c:810-834 | all sets, or nothing without room for all |
| CrashReadback.RegisterPairsAreTrue | qcom/opensource/graphics-kernel/adreno_a5xx_snapshot.c:679-722 | end to end: after the script is carried out, every pair of the main list is a register's number and that register's word |
| CrashReadback.SetWordsAreTrue | qcom/opensource/graphics-kernel/adreno_a5xx_snapshot.c:796-834 | end to end: word j of a set is what the aperture shows at j to hardware that reads the set's state type above bit 8 of the select register and bank 0 below it |
| CrashReadback.BlockWordsAreTrue | qcom/opensource/graphics-kernel/adreno_a5xx_snapshot.c:1052-1081 | the same for shader blocks: word i of bank j stands j banks and i words behind the remembered place, and is what the aperture shows at i with the block's state type and that bank selected |
| CrashReadback.SetPairsAreTrue | qcom/opensource/graphics-kernel/adreno_a5xx_snapshot.c:796-834 | end to end: what the section of the sets shows for register j of a set is its number and that register |
| Hibernate.SecureHeap.PtHibernate | qcom/opensource/graphics-kernel/adreno.c:3571-3627 | buffers and calls after success, and after the failure path, for every pattern of hypervisor answers |
| Hibernate.SecureHeap.PtRestore | qcom/opensource/graphics-kernel/adreno.c:3629-3675 | buffers and calls up to the first refusal, or all |
| Hibernate.RoundTrip | qcom/opensource/graphics-kernel/adreno.c:3571-3675 | hand-over and return give back what was there, lock exactly the buffers that were unlocked, once each and in order, and a second hand-over does nothing |
| Hibernate.CallsAreExact | qcom/opensource/graphics-kernel/adreno.c:3583-3675 | unlock is called once on each secure buffer not marked, lock once on each marked one, never on an imported one of a process and on no other |
| Hibernate.BuffersAfter | qcom/opensource/graphics-kernel/adreno.c:3583-3675 | what a walk over the list leaves of each buffer: those that are called on change mark and owner, all others nothing |
| Hibernate.FailureLeavesNoFlag | qcom/opensource/graphics-kernel/adreno.c:3616-3626 | the failure path leaves no secure global marked |
| Hibernate.FlagsTellIff | qcom/opensource/graphics-kernel/adreno.c:3588-3594 | the marks tell who owns the buffers if and only if every unlock worked |
| AhbTimeout.LargestSafe | qcom/opensource/graphics-kernel/adreno.c:1883-1920 | an accepted v is at least 9 and 2^(v+1) is the largest power of two below the NOC cycles, exact powers included; it covers 1000 us if and only if those are at most 2^31 cycles or the NOC's are; which timeouts are accepted is TimeoutIff |
| AhbTimeout.TimeoutIff | qcom/opensource/graphics-kernel/adreno.c:1883-1920 | for every clock and timeout: the setting is v > 0 if and only if v is at most 30, 2^(v+1) is the power of two next below the NOC cycles (as 64 bits hold them), and v is 30 or 2^(v+1) covers 1000 us |
| AhbTimeout.InRangeIsSet | qcom/opensource/graphics-kernel/adreno.c:1883-1920 | so every timeout that leaves the minimum and spans at most 31 bits is set |
| AhbTimeout.UsualTimeout | qcom/opensource/graphics-kernel/adreno-gpulist.h:2781-2785 | 200 MHz with 6800 us gives 19 |
| AhbTimeout.MinimumHolds | qcom/opensource/graphics-kernel/adreno.c:1883-1920 | up to 2147 GHz an accepted setting always leaves at least 1000 us |
| AhbTimeout.SignBitAccepts | qcom/opensource/graphics-kernel/adreno.c:1908-1912 | beyond that, for every clock of less than 2^31 MHz, there is a timeout whose accepted setting is below the minimum |
| CounterDelta.Counter.Sample | qcom/opensource/graphics-kernel/adreno.h:1683-1702 | the difference reported and the sample stored |
| CounterDelta.SumAccounts | qcom/opensource/graphics-kernel/adreno.h:1683-1702 | the sum is the ticks passed less one for each wrap and less those after readings of zero; exact if and only if neither occurred |
| CounterDelta.NothingLost | qcom/opensource/graphics-kernel/adreno.h:1691-1696 | without readings of zero only wraps are lost |

## Left out

- Memory barriers, jiffies, timer durations, tracing and logging; timers are steps that may happen at any time.
- The dispatcher timer and the expiry times that the handlers refresh.
- Preemption inside indirect buffers and the contents of indirect buffers.
- Devices whose MMU has no page table per process; the smmu information is always written.
- Contexts on the default page table in the address-space results: the switch is skipped for them on purpose.
- PreemptSafety.NoLostWritePointer: says nothing of devices without preemption, which A5xxStream.AddCmds covers.
- LockRegions.StepSoundIff: the parts of a fresh start, from the reset of the state to the clearing of the rings, are one step; and nothing is asked while the GPU is stopped but that handlers find their target.
- In the lock-region model, a submitter's context and commands; only its ring, its offset and its lock are there.
- Of the submissions for no context only those of the performance counters; the start-up submissions are not steps.
- The place of each command in dwords: the read offsets in commands and in dwords reach the end of a ring together and are otherwise independent.
- LockRepair.LagIsRepaired: bounds the trigger's own moves, not how often the scheduler lets it move.
- Timestamps.TimestampOrder: timestamps are unbounded, so the order is that below a 32-bit wrap.
- DriverDevice.Device: rings are values in one sequence; that several structures point to the same ring is not captured.
- Gpmu.LoadPreservesMeaning: microcode that would need register numbers above 18 bits, which no header can name.
- Firmware.RegFile.Load: the release of the file on errors, after which an earlier LM pointer is kept by the driver.
- Firmware.LoadGpmuFirmware: that the first word of an empty file is read outside of it; what is found there is a parameter, and makes no difference.
- CrashDump.CrashdumpInit: the allocation of the two buffers (its guards test for the opposite case); the script buffer is a parameter, and sizes are not cut to 32 bits.
- CrashReadback.SnapshotRegisters: the GPMU registers, whose readback starts at the first word again, and the path without a crash dump.
- The snapshot section of the shader blocks, whose readback above bank 0 mixes dwords and bytes.
- The MERCIU, VBIF, debug-bus and preemption-record sections.
- CrashScript.ScriptFillsBuffer: tables whose registers or counts do not fit the fields of a script word.
- Hibernate.SecureHeap.PtHibernate: process and buffer lists that change while their lock is released, and the retries inside the hypervisor call.
- CounterDelta.SumAccounts: readings more than 2^32 ticks apart.
- The message of the micro engine start-up, whose header announces two words more than are written.
- Register tables, the list of GPUs, probing, sysfs, power management, error interrupts, GMU and MMU internals.
