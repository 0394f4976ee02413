# Verified model of the CH32V307 synthesizer firmware

The firmware drives a YM3812 sound chip from a CH32V307 microcontroller under RT-Thread. This project models the parts of it that keep state, do arithmetic on machine words, or run concurrently, and proves what they keep.

**Pin interrupts** (`drivers/drv_gpio.c`). Sixteen EXTI lines share a table of handlers, and up to five pins share a line. Threads attach, detach, enable and disable under a saved interrupt level; seven interrupt handlers read the table and call what is attached.
- `PinIrq` gives each call as one step on the driver's state, and describes the state after any sequence of calls by its history.
- `PinDriver` is the driver over its registers, updated in place statement by statement, and proved to take exactly those steps.
- `Dispatch` says which handlers an interrupt handler calls and which lines it clears.
- `Interleaving` runs any number of threads one statement at a time, with handlers, nested handlers and new edges at any point, and proves that every such run is equivalent to the calls made one after the other. `HandlerRuns` follows one active handler through such a run to its end, `CallRuns` one call; `PendingEdges` says which pending edges can be lost, and `LostEdge` builds a run that loses one.
- `NvicWords` is the interrupt controller's register file as a set of IRQ numbers.

**System clock** (`User/system_ch32v30x.c`). `ClockDecode` says what the clock register means; `RccHardware` is the hardware, free to take any time for a ready flag or for the clock switch, even to switch to a source that is not running; `SystemClock` holds the masks and the frequency options; `Rcc` is the code, for both device lines and all nine options. A ghost log records every moment, and the safety results speak of all of them.

**Users of the clock, and the heap** (`Debug/debug.c`, `rtthread/board.c`). `ClockUsers` has the delay factors and the tick reload with their 8-, 16- and 32-bit cuts; `Heap` is `_sbrk` with the wrap-around of 32-bit pointers.

**Sound chip and front panel** (`User/headers/YM3812/OPL2.c`, `User/main.c`, `User/headers/inputs.c`). `Opl2` is the chip's 120 registers, their shadow copies and the fields packed into them; `Menu` is the seven pages of potentiometer handlers, driven by polls.

`Arithmetic`, `BitWords`, `Options` and `History` are shared vocabulary: powers of two, 32-bit words as their bits, optional values, and "the last time something happened".

## Where the code falls short of what it suggests

Each of these is a theorem here, with the exact condition under which the code does what is expected of it; where that theorem does not itself yield a failing input or run, one is named beside it.

- Repeating a successful attach is accepted exactly when pin number and mode fit the slot's 16-bit fields; otherwise the caller's own registration is reported as busy (`PinIrq.RepeatedAttach`; such a call: `PinIrq.RepeatedAttachRefused`).
- Detach does not ask who owns the slot (`PinIrq.SlotStep`; pin 91 detaches pin 30: `PinIrq.ForeignDetach`).
- Disabling one pin switches off its whole IRQ group (`PinIrq.GroupFollowsLastSwitch`; pin 31 disables pin 30: `PinIrq.NeighbourDisables`). No call masks a line again (`PinIrq.LineUnmaskedByEnable`).
- A shared handler calls the handlers of lines that are not pending (`Dispatch.ServeCallsGroup`; line 5 for an edge on line 6: `Dispatch.CalledWithoutEdge`).
- A pending edge can be cleared unanswered exactly when, of the active handlers of its group that will clear it, the topmost has already passed its line; every other one is answered first, in every run (`PendingEdges.LostExactly`; what one handler answers: `HandlerRuns.EdgeAnsweredUnlessPassed`; a whole run: `LostEdge.EdgeLostOnBoard`).
- The prescaler writes of the clock routines only ever add bits: without the reset in `SystemInit` the clock is right exactly when the top bit of the AHB prescaler was clear before (`SystemClock.PrescalerMustBeClear`; 144 MHz that come out as 72 MHz: `SystemClock.PrescalerWasSet`).
- A start that selects no new clock ends on HSI, whatever the hardware does, exactly if HSI drove the system and was selected before the call (`Rcc.FailsToHsiExactly`). From every other register there is hardware with which it leaves a source in charge that it has switched off (`Rcc.FailsOnDeadSource`).
- The clock decoded after such a start is 8 MHz, whatever the hardware does, exactly on a D8 part, or if the switch neither selected nor reported the PLL before the call (`Rcc.ReadsBackHsiExactly`); this is a statement about the number only, which HSI, HSE and the reset PLL of a D8 part share. On a D8C part that used the PLL it can be 72 MHz (`Rcc.FailsOnPll`, and in terms of the register after the call `SystemClock.ClearedOnly`, `SystemClock.ClearedOnPll`).
- The comment on `SystemInit` says that it updates `SystemCoreClock`; the code does not. The initial value of that variable agrees with the register afterwards exactly when a new clock was selected, or the option is one of 8 MHz and that is what is decoded, or the option is 72 MHz and a D8C part still reports the PLL (`Rcc.Rcc.SystemInit`; a start on HSI without a crystal, where it is wrong: `Rcc.StaleAfterFailure`).
- A delay reprograms the timer that the system tick runs on, and leaves it stopped (`ClockUsers.SysTick.DelayUs`).
- The test in `_sbrk` is right for all arguments exactly when the heap is smaller than half the address space (`Heap.ExactForSmallHeaps`).
- A comment in `User/main.c` says that the pages reach every parameter; they do not reach the operators' output level (`Menu.PanelReaches`).
- The wave form has 16 potentiometer levels and a three-bit field: a level is held exactly when it is below 8 (`Menu.LevelFits`; half way up it reads back as 0: `Menu.WaveFormWraps`).

## Assumptions

- The three calls of the pin driver take effect on one core; `rt_hw_interrupt_disable` masks the interrupt handlers and preemption and returns the level it found. Called handlers do not call the pin driver themselves.
- Pending and interrupt-enable ports are write-1-to-set and write-1-to-clear.
- A clock source that is switched on and has become ready stays ready while it is on.
- The waits for the PLL, for the clock switch and for the timer are not bounded by the code. They end because of an explicit assumption that the hardware goes on working (`Rcc.Progress`, `ClockUsers.SysTick.Reaches`). The wait for the crystal needs no such assumption.
- Register accesses of the clock code are separated by ticks of the hardware; the routines return, in place of nothing, whether the crystal was found ready.
- Results about pins hold for any pin table of at most 255 rows, and so for all four packages; `Pins.PINS_100` is the table of this board.

## Model

| member | source | states |
|---|---|---|
| Pins.Bit2BitNo | drivers/drv_gpio.c:484-495 | returns i exactly for the word with only bit i set, and -1 for every other 32-bit word |
| Pins.BitNoOfRow | drivers/drv_gpio.c:344-398 | the bit stored in a table row always names a line in range of the IRQ map, the row's own line |
| Pins.GroupIsPreimage | drivers/drv_gpio.c:344-362 | the lines a handler serves are exactly those the IRQ map sends to its IRQ, each once |
| Pins.IrqNumbers | drivers/drv_gpio.c:344-362 | the IRQ number of every line, row by row: 22 to 26, then 39 five times and 56 six times |
| Pins.BoardRows | drivers/drv_gpio.c:233-335 | four rows of the 100-pin table, by pin number |
| Pins.PinNumbers | drivers/drv_gpio.c:233-335 | the 100-pin table has each port bit at one pin number, the one given by its ranges, and at no other |
| NvicWords.WriteSetAdds | Core/core_riscv.h:152-154 | the store by word and bit number adds one IRQ to the set the eight words stand for and leaves the other 255 alone |
| NvicWords.WriteClearRemoves | Core/core_riscv.h:165-168 | the clearing store removes one IRQ and leaves the other 255 alone |
| NvicWords.WordsRefineSet | Core/core_riscv.h:152-168 | after any sequence of calls an IRQ is on exactly when its last call was an enable |
| NvicWords.Nvic.EnableIRQ | Core/core_riscv.h:152-154 | in place: the enabled set gains the IRQ |
| NvicWords.Nvic.DisableIRQ | Core/core_riscv.h:165-168 | in place: the enabled set loses the IRQ |
| NvicWords.Nvic.SetPriority | Core/core_riscv.h:254-257 | in place: one priority changes |
| NvicWords.Nvic.GetStatusIRQ | Core/core_riscv.h:180-183 | decides membership in the enabled set |
| NvicWords.Nvic.SetPendingIRQ | Core/core_riscv.h:209-212 | in place: the pending set gains the IRQ |
| NvicWords.Nvic.ClearPendingIRQ | Core/core_riscv.h:223-226 | in place: the pending set loses the IRQ |
| NvicWords.Nvic.GetPendingIRQ | Core/core_riscv.h:195-198 | decides membership in the pending set |
| PinIrq.NarrowedPin | drivers/drv_gpio.c:384-398 | cut to 16 bits, a valid pin number stays on its line and never turns into the free marker |
| PinIrq.Narrowing | drivers/drv_gpio.c:384-398 | both conversions keep the low 16 bits, and their result is in range |
| PinIrq.StepKeepsWellFormed | drivers/drv_gpio.c:506-571 | no call leaves a slot half filled or holding a pin of another line |
| PinIrq.ReachableIsWellFormed | drivers/drv_gpio.c:363-381 | in every reachable table a slot is free with nothing left over, or holds a valid pin of its own line |
| PinIrq.OneOwnerPerLine | drivers/drv_gpio.c:531-539 | a pin occupies at most one slot, and of the pins that share a line at most one is registered |
| PinIrq.SlotStep | drivers/drv_gpio.c:522-570 | one call changes a slot only by a first attach or by a detach on its line, whoever owns it |
| PinIrq.SlotFreeWhenNoneSinceDetach | drivers/drv_gpio.c:506-571 | a slot is free exactly when no attach on its line follows the last detach on it |
| PinIrq.SlotIsFirstAttachSinceDetach | drivers/drv_gpio.c:506-571 | otherwise it holds the arguments of the first attach on its line since that detach |
| PinIrq.ForeignDetach | drivers/drv_gpio.c:544-571 | a detach that frees a slot which another pin owns |
| PinIrq.AttachOnTakenLine | drivers/drv_gpio.c:523-535 | on a taken line attach changes nothing and succeeds only for the registration already there |
| PinIrq.RepeatedAttach | drivers/drv_gpio.c:523-541 | a repeated registration is accepted exactly when its pin and mode fit 16 bits |
| PinIrq.RepeatedAttachRefused | drivers/drv_gpio.c:523-535 | a call that succeeds once and is then refused |
| PinIrq.GroupFollowsLastSwitch | drivers/drv_gpio.c:641-652 | an IRQ is enabled exactly when the last successful enable or disable on any pin of its group was an enable |
| PinIrq.NeighbourDisables | drivers/drv_gpio.c:645-652 | a disable that switches off the interrupt another pin was enabled for |
| PinIrq.LineFollowsLastEnable | drivers/drv_gpio.c:614-639 | port and trigger of a line are those of the last successful enable on it; the trigger is rising, falling or both for mode 0, 1 or 2 of its slot at that call |
| PinIrq.LineUnmaskedByEnable | drivers/drv_gpio.c:611-652 | a line is unmasked exactly when some enable on it succeeded; disable never masks it |
| Dispatch.ServeCallsGroup | drivers/drv_gpio.c:701-810 | one activation calls each attached handler of the group once if any line of it is pending, and never touches another group |
| Dispatch.CalledWithoutEdge | drivers/drv_gpio.c:768-783 | a handler that is called although its line is not pending |
| Dispatch.CallsAreStored | drivers/drv_gpio.c:679-690 | every call uses the handler and argument stored for its line |
| Dispatch.EachLineServedOnce | drivers/drv_gpio.c:679-810 | over any run of activations, repeated or spurious, a line's handler is called once if its group was pending and served, and never otherwise |
| Dispatch.ServingAllDrains | drivers/drv_gpio.c:701-810 | serving every IRQ with a pending line, in any order, leaves no unmasked line pending |
| Dispatch.ServeShrinks | drivers/drv_gpio.c:701-810 | an activation that finds something pending leaves strictly less |
| Interleaving.StatementAdds | drivers/drv_gpio.c:522-541 | the statements of a critical section, each keeping what the others wrote, add up to one whole step |
| Interleaving.Possible | drivers/drv_gpio.c:506-810 | when each action of a thread, a handler or the hardware can happen |
| Interleaving.NextKeeps | drivers/drv_gpio.c:506-659 | every action of a thread, a handler or the hardware keeps the invariant of the concurrent system |
| Interleaving.Linearizable | drivers/drv_gpio.c:506-659 | every interleaving equals the calls of its whole log made one after the other: each call that has returned at any moment of the run took effect once, between its start and its return, with the code the sequential run gives there; each thread's calls are in its order; outside critical sections the state is that of the sequential run |
| Interleaving.LogGrows | drivers/drv_gpio.c:506-659 | the order of the calls, once fixed, is never revised |
| Interleaving.LaterCallsComeLater | drivers/drv_gpio.c:506-659 | a call made after another has returned takes effect after it |
| Interleaving.UnmaskedTableIsWellFormed | drivers/drv_gpio.c:522-570 | whenever interrupts are unmasked every slot is fully written |
| Interleaving.CalledHandlersAreAttached | drivers/drv_gpio.c:679-690 | a handler called from an interrupt is the first attach on its line since the last detach, with its argument; a detached one is never called |
| Interleaving.ReturnRestoresLevel | drivers/drv_gpio.c:522-643 | every return path restores the interrupt level found at the call, masked or not |
| Interleaving.TableWritesAreMasked | drivers/drv_gpio.c:536-568 | the table changes only while interrupts are masked |
| HandlerRuns.HandlerCompletes | drivers/drv_gpio.c:768-787 | whatever other actions intervene, nested handlers and edges included, a handler past its status test ends with exactly the calls of its group made, in order |
| HandlerRuns.HandlerIsBounded | drivers/drv_gpio.c:768-787 | a handler runs at most 15 statements, in any run of the system |
| HandlerRuns.HandlerCanGoOn | drivers/drv_gpio.c:768-787 | the topmost handler is never stuck before it is done |
| HandlerRuns.EdgeAnsweredUnlessPassed | drivers/drv_gpio.c:768-810 | an edge that arrives anywhere after a handler's status test gets a later call from this handler, one, exactly when its line is not yet passed and has a handler; at the end of the handler it is cleared in either case |
| PendingEdges.LostExactly | drivers/drv_gpio.c:768-810 | a pending edge can be cleared without any handler's call, nested ones included, exactly when the topmost active handler that will clear it has passed its line; a line without an attached handler counts as answered when it is looked at |
| LostEdge.EdgeLost | drivers/drv_gpio.c:768-787 | a run from the reset state in which an edge on an enabled line with a handler gets no answer |
| LostEdge.EdgeLostOnBoard | drivers/drv_gpio.c:768-787 | the same on this board, for pin 30 |
| CallRuns.CallIsBounded | drivers/drv_gpio.c:506-659 | in any run, with switches, other calls, handlers and edges, a thread runs at most eight statements of a call, its return included |
| CallRuns.CallCompletes | drivers/drv_gpio.c:506-659 | from any reachable moment in a call the running thread, left alone, returns within eight statements |
| PinDriver.Driver.constructor | drivers/drv_gpio.c:363-381 | the reset state: empty table, nothing enabled or pending |
| PinDriver.Driver.InterruptDisable | rtthread/libcpu/risc-v/common/cpuport.c:152-157 | returns the status word found and stores one with interrupts masked |
| PinDriver.Driver.InterruptEnable | rtthread/libcpu/risc-v/common/cpuport.c:162-165 | puts a status word back, all of it |
| PinDriver.Driver.SlotIndex | drivers/drv_gpio.c:512-521 | the slot of a pin, or none for a pin the table does not know |
| PinDriver.Driver.AttachIrq | drivers/drv_gpio.c:506-542 | in place: exactly the attach step, with the interrupt level restored |
| PinDriver.Driver.DetachIrq | drivers/drv_gpio.c:544-571 | in place: exactly the detach step, with the interrupt level restored |
| PinDriver.Driver.IrqEnable | drivers/drv_gpio.c:573-659 | in place: exactly the enable or disable step; after an enable the port is selected, the rising edge bit is set for modes 0 and 2 and clear for mode 1, the falling one for 1 and 2 and clear for 0, and the priority is 80 |
| PinDriver.EnableWithMode | drivers/drv_gpio.c:573-659 | attach and enable of pin 30 from reset, for each of the three modes |
| PinDriver.Driver.ExtiInit | Peripheral/src/ch32v30x_exti.c:42-72 | one line gets unmasked with the chosen trigger; every other line keeps its own |
| PinDriver.Driver.IrqMap | drivers/drv_gpio.c:497-505 | the IRQ of a pin bit |
| PinDriver.Driver.GetItStatus | Peripheral/src/ch32v30x_exti.c:151-166 | a line is reported exactly when pending and unmasked |
| PinDriver.Driver.ClearItPendingBit | Peripheral/src/ch32v30x_exti.c:177-180 | exactly the written lines stop being pending |
| PinDriver.Driver.Callback | drivers/drv_gpio.c:679-690 | calls the handler stored for the line, if there is one |
| PinDriver.Driver.SingleLineHandler | drivers/drv_gpio.c:701-766 | the handlers of lines 0 to 4 serve their line as Dispatch describes |
| PinDriver.Driver.Exti9To5Handler | drivers/drv_gpio.c:768-787 | the handler of lines 5 to 9 serves its group as Dispatch describes |
| PinDriver.Driver.Exti15To10Handler | drivers/drv_gpio.c:789-810 | the handler of lines 10 to 15 serves its group as Dispatch describes |
| ClockDecode.AhbShift | User/system_ch32v30x.c:50 | the shift by the prescaler table is division by the divisor of the header |
| ClockDecode.KnownDivisors | Peripheral/inc/ch32v30x.h:4392-4424 | the divisors of the two prescaler fields, code by code |
| ClockDecode.DecodePll | User/system_ch32v30x.c:131-163 | the multiplier remappings, which must not feed each other, give the multiplier of the header; nothing leaves 32 bits |
| ClockDecode.ApplyPrescaler | User/system_ch32v30x.c:171-172 | the shift divides, and the result lies between 15625 Hz and 144 MHz |
| ClockDecode.KnownPllClocks | User/system_ch32v30x.c:131-163 | the PLL clock of nine register settings, in numbers |
| ClockDecode.FieldsOf | Peripheral/inc/ch32v30x.h:4368-4481 | the fields of one register value, each different |
| RccHardware.AllAnswer | Peripheral/inc/ch32v30x.h:4355-4365 | which flag bit shows which source bit, and which status bits follow the switch |
| RccHardware.AdvanceIsSafe | User/system_ch32v30x.c:224-255 | whatever the hardware does in a tick, a safe moment stays safe |
| RccHardware.StoreCtlrIsSafe | User/system_ch32v30x.c:87-100 | a store that leaves the sources in use on keeps a moment safe |
| RccHardware.StoreCfgr0IsSafe | User/system_ch32v30x.c:736-763 | a store that reconfigures only a stopped PLL and selects only a running source keeps a moment safe |
| RccHardware.LateStoreIsSafe | User/system_ch32v30x.c:736-763 | neither ticks between load and store nor stale copies of hardware bits make a store unsafe |
| SystemClock.PllFields | User/system_ch32v30x.c:743-750 | clearing and setting the PLL fields selects HSE, undivided, times the option's multiplier, and touches nothing else |
| SystemClock.MullSelects | Peripheral/inc/ch32v30x.h:4449-4481 | the multiplier constant of either device line decodes to the option's multiplier |
| SystemClock.ResetMasked | User/system_ch32v30x.c:87-97 | the reset masks, bit by bit: what is switched off, cleared and kept |
| SystemClock.ConfiguredClock | User/system_ch32v30x.c:709-773 | a configured clock is the promised one divided by what the AHB prescaler held before |
| SystemClock.ConfiguredBuses | User/system_ch32v30x.c:736-740 | the slow bus stays within 72 MHz whatever its prescaler held before; over a clear one the divisor is 2 above 24 MHz and 1 otherwise; the fast bus keeps its prescaler |
| SystemClock.PrescalerMustBeClear | User/system_ch32v30x.c:735-740 | the clock is the promised one exactly when the top prescaler bit was clear before |
| SystemClock.PrescalerWasSet | User/system_ch32v30x.c:735-740 | a register before and one after: with the prescaler at 2, 144 MHz come out as 72 MHz |
| SystemClock.ClearedThenConfigured | User/system_ch32v30x.c:85-107 | after the reset, every option gives its clock and bus settings |
| SystemClock.SettingsOver | User/system_ch32v30x.c:709-773 | the low 23 bits of the register after each option, as a word in hexadecimal |
| SystemClock.ClearedOnly | User/system_ch32v30x.c:85-107 | without a new clock the decoded clock is HSI, except on a D8C part still reporting the PLL, where it is 72 MHz |
| SystemClock.ClearedOnPll | User/system_ch32v30x.c:85-107 | such a register |
| SystemClock.StillReset | User/system_ch32v30x.c:85-173 | one tick after a reset the decoded clock goes by the status field that this tick leaves |
| SystemClock.SettledClock | User/system_ch32v30x.c:762-764 | once the switch has arrived the hardware changes the clock no more |
| Rcc.Rcc.Tick | User/system_ch32v30x.c:224-229 | one tick of the hardware, logged; it keeps a safe run safe |
| Rcc.Rcc.OrCtlr | User/system_ch32v30x.c:222 | the whole new register after a read-modify-write that the hardware interrupts, and when the run stays safe |
| Rcc.Rcc.AndCtlr | User/system_ch32v30x.c:95-96 | the whole new register after clearing bits, and when the run stays safe |
| Rcc.Rcc.OrCfgr0 | User/system_ch32v30x.c:243-251 | the whole new register after adding bits, and when the run stays safe |
| Rcc.Rcc.AndCfgr0 | User/system_ch32v30x.c:97 | the whole new register after clearing bits, and when the run stays safe |
| Rcc.Rcc.AwaitHse | User/system_ch32v30x.c:717-731 | at most 4097 reads whatever the hardware does, exactly 4097 on failure; success exactly when the flag was up or the crystal answered at one of them |
| Rcc.Rcc.StartHse | User/system_ch32v30x.c:709-731 | the start of every clock routine: ready exactly when the flag is still up at switch-on or the crystal answers while the routine looks |
| Rcc.CrystalStartsIs | User/system_ch32v30x.c:717-731 | when a crystal is found, in numbers: 4097 ticks from the 14th of the start-up, or the 12th on the shorter line |
| Rcc.FoundWhenLooking | User/system_ch32v30x.c:717-731 | the code run with a crystal that answers at one tick: found exactly if that is one of the 4097, and then the clock is right |
| Rcc.LastRead | User/system_ch32v30x.c:717-731 | on this board a crystal that first answers at the last read is found, and one tick later is not |
| Rcc.Rcc.AwaitPll | User/system_ch32v30x.c:754-757 | ends with the PLL ready, nothing else changed |
| Rcc.Rcc.AwaitSwitch | User/system_ch32v30x.c:761-764 | ends with the status field showing the selected source, nothing else changed |
| Rcc.Rcc.SetPrescalers | User/system_ch32v30x.c:735-740 | adds the slow bus divisor and keeps every other bit |
| Rcc.Rcc.ConfigurePll | User/system_ch32v30x.c:742-750 | sets up the PLL, safely if it was off |
| Rcc.Rcc.Select | User/system_ch32v30x.c:758-764 | moves the switch, safely if the source was running |
| Rcc.Rcc.SetSysClockToHse | User/system_ch32v30x.c:218-264 | configured, or untouched, by whether the crystal answered in time; safe from HSI |
| Rcc.Rcc.SetSysClockToPll | User/system_ch32v30x.c:275-773 | the same for the seven PLL routines |
| Rcc.Rcc.SetSysClock | User/system_ch32v30x.c:182-206 | one routine or none, by the option |
| Rcc.Rcc.ResetConfiguration | User/system_ch32v30x.c:87-105 | the reset, bit by bit, for both device lines; safe from HSI |
| Rcc.Rcc.SystemInit | User/system_ch32v30x.c:85-107 | from every initial register value: the crystal is found ready exactly when its flag is still up as it is switched on, or it answers in the window; then the promised clock, the option's register word, and crystal and PLL on and ready; otherwise the reset configuration with no source but HSI alive; exactly when `SystemCoreClock` is right; every moment safe when started on HSI |
| Rcc.Rcc.SystemCoreClockUpdate | User/system_ch32v30x.c:116-173 | the clock the register described at its first read, though it is read two, four or five times |
| Rcc.Rcc.StartUp | User/system_ch32v30x.c:85-173 | from every initial register value, start-up and reading back give the configured frequency if the crystal is found, and otherwise the clock decoded from the reset register with the status field as the hardware left it |
| Rcc.FailedClockIs | User/system_ch32v30x.c:85-173 | that clock in numbers: 72 MHz on a D8C part that still reports the PLL, 8 MHz otherwise |
| Rcc.FailsToHsiExactly | User/system_ch32v30x.c:85-173 | without a new clock HSI drives the system in the end, under all hardware, exactly if it drove it and was selected before |
| Rcc.ReadsBackHsiExactly | User/system_ch32v30x.c:85-173 | and the value read back is 8 MHz, under all hardware, exactly on a D8 part, or if neither switch field showed the PLL before |
| Rcc.LateFails | User/system_ch32v30x.c:85-173 | hardware that goes on working, without a crystal in time, whose switch moves at once or not until the start has failed |
| Rcc.FailsOnDeadSource | User/system_ch32v30x.c:85-107 | the code run on that hardware, from any register not wholly on HSI: it fails, and the source still in charge is not running |
| Rcc.FailsOnPll | User/system_ch32v30x.c:85-173 | the code run on it from a D8C register that uses the PLL: it fails and reads back 72 MHz |
| Rcc.StaleAfterFailure | User/system_ch32v30x.c:28-107 | the code run on it from HSI with a PLL option: `SystemCoreClock` and the decoded clock disagree |
| ClockUsers.FactorsFit | Debug/debug.c:23-27 | the delay factors are uncut exactly below 528 MHz, so for every clock of the decoder |
| ClockUsers.MillisAreMicros | Debug/debug.c:38-69 | a millisecond delay programs the same value as a thousand microseconds, also when products wrap |
| ClockUsers.ShortfallIs | Debug/debug.c:62-69 | the exact shortfall of a delay: the clock's remainder modulo 8 MHz for each millisecond |
| ClockUsers.Shortfall | Debug/debug.c:62-69 | it is less than 1000 counts a millisecond, and none exactly for multiples of 8 MHz |
| ClockUsers.TickPeriod | rtthread/board.c:23-57 | the tick reload does not underflow exactly from 1 kHz up, and a period falls short by less than 1000 cycles in a thousand ticks |
| ClockUsers.SysTick.DelayInit | Debug/debug.c:23-27 | stores the clock in units of 8 MHz cut to 8 bits, and a thousand times that cut to 16 |
| ClockUsers.SysTick.DelayUs | Debug/debug.c:38-51 | programs the product modulo 2^32, waits to the first tick at which the count is there, whatever the flag said before, and leaves the timer stopped, two mode bits set, the rest kept |
| ClockUsers.SysTick.DelayMs | Debug/debug.c:62-75 | the same in milliseconds |
| ClockUsers.SysTick.SysTickConfig | rtthread/board.c:23-35 | control bits 0 to 3, compare value one less than the ticks; interrupts 12 and 14 enabled at priority 0xF0 |
| Heap.ExactForSmallHeaps | Debug/debug.c:185-186 | the wrapped test is right for all breaks and increments exactly when the heap is below half the address space |
| Heap.BrkStaysWithin | Debug/debug.c:179-190 | the break never leaves the heap, even where the test is wrong |
| Heap.BrkIsGranted | Debug/debug.c:188 | the heap in use is the sum of the accepted increments |
| Heap.SharedOnlyIfReleased | Debug/debug.c:179-190 | two granted blocks share an address only if a call between them released it |
| Heap.Covered | Debug/debug.c:179-190 | every address below the break lies in a granted block |
| Heap.GrantsTile | Debug/debug.c:179-190 | without negative increments the blocks tile the heap in use |
| Heap.Heap.Sbrk | Debug/debug.c:179-190 | in place: accepted exactly when the wrapped sum stays in the heap, returning the old break; refused without effect otherwise, returning 0xFFFFFFFF, which a caller can tell from every address of a heap that ends below it |
| Opl2.FieldOfInsert | User/headers/YM3812/OPL2.c:660-1092 | get after set returns what the field can hold of the value |
| Opl2.InsertIsMaskAndAdd | User/headers/YM3812/OPL2.c:814-817 | masking and adding, as the setters do, replaces the field and never carries |
| Opl2.AddressesDiffer | User/headers/YM3812/OPL2.c:76-79 | the 120 registers have 120 addresses |
| Opl2.ShadowsDiffer | User/headers/YM3812/OPL2.c:239-355 | and separate shadow bytes |
| Opl2.ShadowCorners | User/headers/YM3812/OPL2.c:239-355 | eleven places in the shadow arrays, by number |
| Opl2.FieldsAreDisjoint | User/headers/YM3812/OPL2.c:660-1092 | no two parameters share a bit |
| Opl2.AddressesAre | User/headers/YM3812/OPL2.c:76-79 | the address of every copy of every parameter, from the base address and the place of channel and operator |
| Opl2.BytesAre | User/headers/YM3812/OPL2.c:640-1092 | the byte a setter sends, for each parameter by the bits its mask keeps and its shift fills |
| Opl2.CellsAre | User/headers/YM3812/OPL2.c:640-1092 | which copies there are: nine channels, two operators, or one |
| Opl2.Ym3812.GetRegister | User/headers/YM3812/OPL2.c:216-311 | reads the shadow of a register |
| Opl2.Ym3812.SetRegister | User/headers/YM3812/OPL2.c:227-326 | changes one register with one byte sent, and keeps chip and shadows coherent |
| Opl2.Ym3812.Get | User/headers/YM3812/OPL2.c:640-1083 | reads one copy of a parameter (note select apart) |
| Opl2.Ym3812.Set | User/headers/YM3812/OPL2.c:640-1092 | changes one copy of one parameter and nothing else; sends one byte, with the parameter's bits replaced, to the parameter's address (drums and note select apart) |
| Opl2.Ym3812.SetDrums | User/headers/YM3812/OPL2.c:1071-1075 | the two bytes sent: first all drums off and the other fields kept, then the new drums; no other parameter changes |
| Opl2.Ym3812.SetNoteSelect | User/headers/YM3812/OPL2.c:952-954 | sets the bit, clears the rest of its register, and changes no parameter |
| Opl2.Ym3812.GetNoteSelect | User/headers/YM3812/OPL2.c:941-943 | reads the bit |
| Menu.BindingsDiffer | User/main.c:400-502 | no two handlers write the same parameter, and only the fourth ones of pages 5 and 6 write none |
| Menu.PanelReaches | User/main.c:28-31 | the parameters the pages reach: all of an operator but its output level, feedback, mode and the two depths |
| Menu.LevelBands | User/headers/adc_helpers.c:71-73 | a handler divides the 4096 readings into equal bands |
| Menu.LevelFits | User/main.c:182-193 | a field holds every level of its handler, except the upper eight of a wave form |
| Menu.WaveFormWraps | User/main.c:188-193 | a reading whose level does not fit: half way up, the wave form reads back as 0 |
| Menu.PressMoves | User/main.c:514-558 | after any run the page is presses to the right minus presses to the left, modulo 7, and after the first press the four handlers are those of the page |
| Menu.TurnReaches | User/headers/inputs.c:159-177 | a turn writes what the installed handler writes, and moves no page |
| Menu.Panel.constructor | User/headers/inputs.c:85-97 | page 0, no page's handlers, buttons up, the first readings taken as reported, every parameter at its initial value |
| Menu.Panel.HandleButtonLeft | User/main.c:514-524 | the invariant of the panel over one more press |
| Menu.Panel.HandleButtonRight | User/main.c:537-547 | the invariant of the panel over one more press |
| Menu.Panel.Change | User/main.c:40-46 | every channel takes the level, every other parameter keeps its value |
| Menu.Panel.InvokePot | User/headers/inputs.c:159-162 | the invariant over one more turn: every copy of every parameter holds the level of the last write to it |
| Menu.Panel.PollInputs | User/headers/inputs.c:150-195 | a poll reports a turn exactly where the reading is 26 or more above or below the last one reported, and a press exactly when it begins; afterwards every reading is within 25 of the last one reported |
| Menu.Panel.ChannelZeroSpeaks | User/main.c:35-46 | after a write, or if they agreed before, all channels hold what channel 0 shows |
| Menu.Panel.NotesUndisturbed | User/main.c:40-395 | after any run of panel events, output levels and sounding notes are in the chip as they were at first |

## Left out

- The pin tables of the three smaller packages: results about pins hold for them as for any table, but their rows are not listed.
- `ch32_pin_mode`, `ch32_pin_read` and `ch32_pin_write`: they have no state beyond one port register.
- PinDriver.Driver.IrqEnable: does not model the pull resistor and pin mode written by `GPIO_Init`, and the clock gates; port selection is one value per line, not a nibble of `AFIO->EXTICR`.
- PinIrq.LineFollowsLastEnable: a mode outside the three that the switch handles leaves the trigger to the uninitialised stack structure, which is taken to hold one of the three trigger values; the address arithmetic that other values would cause is not modelled.
- PinDriver.Driver.ExtiInit: only interrupt mode with the line enabled; event mode and the disable branch have no caller in the driver.
- Interleaving.Linearizable: a handler called from an interrupt does not itself call attach, detach or enable, and there is one core.
- `NVIC_GetActive`, `SetVTFIRQ` and the inline assembly of `Core/core_riscv.c`: single register accesses without an invariant.
- Rcc.Rcc.SystemInit: the flash wait states and the `RCC_INTR` and `RCC_CFGR2` registers beyond the values stored in them; the calibration bits of `RCC_CTLR` are treated as ordinary bits.
- The seven PLL routines are one method with the multiplier as parameter, because they differ in two constants.
- ClockUsers.SysTick.Wait: when the count reaches the compare value is up to the hardware; the count itself is not modelled.
- `_write`, the UART set-up, and everything drawn on the display: input and output.
- Opl2.Ym3812.Set: twelve setters per operator and the others are one method over a table of registers and fields.
- Menu.Panel.NotesUndisturbed: speaks of panel events; notes that arrive by MIDI between them are outside the model.
- Instruments, note frequencies, drums and the serial write of a byte to the chip: floating point, tables, and pin toggling.
- The MIDI parser and the voice allocation of `MIDI_Note_On` and `MIDI_Note_Off`.
- Menu.Level: the division is done in `float` by the source; for 12-bit readings and levels that are powers of two it is exact, and is modelled as integer division.
- RT-Thread itself: scheduler, timers, memory and console.
