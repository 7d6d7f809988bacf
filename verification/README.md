# A verified model of the AXE simulator's core

AXE simulates XMOS XS1 and XS2 systems: cores with hardware threads, ports clocked from clock blocks, channel ends
connected through switches, and peripherals on the pins. It is written to be fast, and most of its speed comes from
not doing what the hardware does: ports skip clock edges in which nothing can be seen, decoded instructions and
compiled fragments are cached, checks that earlier checks imply are not emitted, lists are threaded through the
objects in them. This project models those parts in Dafny and proves that the fast form does what the slow form
would, and that the protocols keep what they promise over every run.

| files | what they model |
|---|---|
| `Signals`, `PortState`, `PortOutput`, `PortSchedule`, `Slices`, `PortWaiters`, `PortInput`, `PortInputSchedule`, `PortTimedInput`, `PortTimedUpdate`, `PortNotReady`, `PortPins`, `PortWakes`, `PortStream`, `PortStrobeOut`, `PortStrobeIn`, `PortCalls`, `PortExamples`, `Port` | clock signals and ports: edge stepping, fast forwarding, scheduling, serialised data |
| `DecodeTable`, `Core` | the decode cache and its invalidation |
| `HopWalk`, `Routing` | routing through switches with cycle detection |
| `ChannelState`, `ChannelSafety`, `ChannelHistory`, `ChannelRuns`, `ChannelPrograms`, `ChannelAnswers`, `ChannelResults`, `ChannelTokens`, `Chanend`, `RingBuffer` | channel ends and the packet protocol |
| `SwitchRequest`, `SSwitch` | configuration packets addressed to a switch |
| `SortedQueue`, `RunnableQueue` | the run queue |
| `EventState`, `EventLinks`, `EventOwners`, `EventLists` | event and interrupt lists of threads |
| `Synchroniser` | the barrier |
| `WordBits`, `Crc`, `EthernetFrame`, `EthernetPhy` | the checksum and the Ethernet PHY |
| `MemoryChecks` | placing alignment checks in compiled fragments |
| `PortArg` | port arguments on the command line |
| `Arith`, `Bits`, `Options`, `Sequences` | shared definitions |

Code that changes state step by step is a class whose methods are proved against functions on values; the properties
are then lemmas about those functions, or the invariant every method keeps. `dafny verify dfyconfig.toml` checks
everything.

## What turned out not to hold

Some statements one would expect are false of the code. Where the failure is the code's own, it is proved to happen for
a described family of states and nowhere else.

* An output port can sleep past a change: a thread waiting in `sync` on a port that has a time set and no data is due
  to be woken when the shift register runs dry, before the time the port is scheduled for
  (`PortSchedule.NeverSleepsPastAChange`, `PortSchedule.SyncWakesUnasked`).
* An update that comes in time can differ from stepping the edges, in the same situation with a register that is
  already dry (`PortSchedule.UpdateIsLossless`, `PortSchedule.StarvedUpdateDiffers`). The calls `out`, `setpt` and
  `sync` on a port just turned on lead to both (`PortSchedule.SyncExceptionsHappen`).
* The steady register that the input fast path computes is not always steady. A port that has its own width as
  transfer width accepts any other, and unless the entries are a power of two in number and fill the transfer width, or
  the pins are low, the computed value changes with the next sample (`Slices.SteadyIsFixedPoint`), is not what every
  register settles on (`Slices.SteadyIsReached`), and the fast path skips samples it must not skip
  (`PortInput.FastInputMatches`, `PortInput.SkippedSample`, `PortInput.TwelveBitsOnOnePin`). For every width that is not
  a power of two, high, low and again high pins lead a one-bit port there
  (`PortExamples.UnsteadyRegisterIsReached`).
* The fast path of an input port with a time set forgets the samples it skips before that time: register, fill count and
  captures stay where they were. An update in time loses nothing if and only if there was nothing to forget, or its last
  sample makes up for it: by realigning the register at the port time, or by a capture
  (`PortTimedUpdate.TimedUpdateIsLossless`). So the update the port asked for is right where a waited-on buffered port
  sees its condition met (`PortTimedUpdate.ScheduledUpdateIsLossless`), and `setpt` on a port that transfers bytes leads
  to an earlier one that is not (`PortTimedUpdate.OneSampleIsForgotten`).
* A port whose ready input is low can lose its port time before the time is met, because a number of edges is compared
  with a number of falling edges (`PortNotReady.ClearsTooEarly`, `PortNotReady.FourEdgesAreEnough`). And where the time
  is met, clearing it is all that is done: an output port without data is not turned around, and an input port that
  expects entries does not raise its ready output (`PortNotReady.NotReadyMatches`,
  `PortNotReady.NotReadyFailuresHappen`).
* An unbuffered input port is scheduled by its pins but woken by its register. It sleeps past a wake-up if and only if
  it asks for no update and some sample to come fills the register with a value that meets the condition
  (`PortInputSchedule.InputNeverSleepsPastAWake`). A transfer width above the port's own makes that possible:
  `PortExamples.EightBitsUnbuffered` gives the calls and samples that lead there.
* An output port announces changes of its pins against what its register held, and `out` on an input port does not
  announce what was left there from sampling: a value with the same low bits is driven without anybody being told. That
  happens if and only if those bits are not zero (`PortPins.OutIsAnnounced`, `PortPins.HighAfterHighIsMissed`).
* Flipping a clock does not always invert it at once. Until the new phase begins the elapsed time wraps around 2^64, and
  what is read depends on how the half period divides that (`Signals.FlipInverts`, `Signals.ThreeTicksStayLow`).
* Clearing all breakpoints leaves cached breakpoints behind (`CoreMemory.Core.ClearBreakpoints`,
  `CoreMemory.CachedBreakpointOutlives`).
* The network link may fill the whole frame buffer of the Ethernet PHY, and payloads of 1515 to 1518 bytes then leave no
  room for the check sequence, which is written past its end (`EthernetPhy.LongPayloadsDoNotFit`).
* A thread waiting for a word on a channel end is not woken by a control token among the first three tokens, although
  its instruction could then complete (`ChannelResults.PausedReceiverIsBlocked`,
  `ChannelResults.EarlyControlTokenIsMissed`).
* A channel end is queued twice at a destination if and only if a second thread outputs on it while the first is queued
  (`ChannelResults.SecondSenderQueuesTwice`, in a state that `ChannelResults.QueuedSenderIsReached` runs into); the
  protocol's guarantees are for one thread on each side.
* A port argument with the single offset 127 cannot be printed and parsed again, because its end offset overflows a
  signed byte (`PortArg.RoundTrip`, `PortArg.OverflowIff`).

One oddity is harmless: the Ethernet PHY masks what it drives with eight bits instead of four, so that on even turns it
drives a whole byte. Only the low four bits reach the other side, and frames cross (`EthernetPhy.FrameCrosses`).

## Model

| member | source | states |
|---|---|---|
| `Signals.LevelAlternates` | lib/Signal.h:99-123 | a clock is low for a half period from its phase on, high for the next, and so forth |
| `Signals.NextEdgeIsFirstTransition` | lib/Signal.h:118-132 | the iterator for a time stands on the first later transition: the level holds up to it and changes at it, and rising means to 1 |
| `Signals.IteratorDistance` | lib/Signal.h:50-84 | the difference of two iterators is the number of edges in the half-open interval between their times, and moving by it leads from one to the other |
| `Signals.FlipInverts` | lib/Signal.h:161-166 | flipping a constant flips its low bit and no other; flipping a clock inverts its level from the new phase on, and before that if and only if the half period divides 2^64 suitably |
| `Signals.EvenPeriodsInvert` | lib/Signal.h:161-166 | a clock with an even number of half periods in 2^64 ticks is inverted at every time |
| `Signals.ThreeTicksStayLow` | lib/Signal.h:118-123 | a half period of three ticks is one where the clock and its inverse both read low |
| `PortState.IterateBookkeeping` | lib/Port.cpp:635-656 | n single edges, in any mode: iterator moved by n, 16-bit counter by the falling edges among them, time that of the last edge |
| `PortState.EdgesBetween` | lib/Port.cpp:433-458 | the number of edges `update` computes is the number of edges after the old time and up to the new one |
| `PortOutput.FastOutputMatches` | lib/Port.cpp:306-347 | fast-forwarding an output port n edges equals n single edges in registers, counter, time and log of pin changes and wake-ups, for every n and counter wrap |
| `PortOutput.SkipIsIterate` | lib/Port.cpp:313-326 | skipping any number of edges of an idle output port equals stepping them |
| `PortOutput.FallingBeforeTime` | lib/Port.cpp:1100-1113 | the edges up to just before the port time contain all but one of the falling edges until it |
| `PortOutput.FastOutputAdvances` | lib/Port.cpp:306-347 | whichever branch is taken and whatever the mode, exactly n edges are consumed and counted |
| `PortSchedule.NeverSleepsPastAChange` | lib/Port.cpp:1115-1145 | no pin moves, no thread wakes and the port does not turn around before the edge it asked to be woken at, if and only if no thread is in `sync` on a timed port that runs dry first |
| `PortSchedule.SyncWakesUnasked` | lib/Port.cpp:508-566 | in that exception the thread is due to be woken while the port is asleep |
| `PortSchedule.UpdateIsLossless` | lib/Port.cpp:433-458 | an update no later than asked for equals stepping every edge, if and only if no thread is starved in `sync` |
| `PortSchedule.StarvedUpdateDiffers` | lib/Port.cpp:313-326 | in that exception there is an update in time that loses the wake-up |
| `PortSchedule.SyncExceptionsHappen` | lib/Port.cpp:790-951 | `out`, `setpt` and `sync` lead a port just turned on into both exceptions |
| `PortSchedule.WakesAtTheTime` | lib/Port.cpp:1132-1137 | a port that rests until its time asks for the very falling edge that brings its counter there |
| `Slices.EveryWidthIsAccepted` | lib/Port.cpp:970-1098 | a port that has its own width as transfer width accepts every other, with as many entries as fit |
| `Slices.SampleSlices` | lib/Port.cpp:581-600 | sampling drops the oldest slice of the shift register and appends the pins as the newest |
| `Slices.ShiftSlices` | lib/Port.cpp:499-506 | an output shift moves every slice down one place and repeats the top one |
| `Slices.SteadyIsReached` | lib/Port.cpp:461-475 | constant pins, sampled once more than there are entries, turn every register into the value computed by repeated doubling, if and only if the entries fill the transfer width and are a power of two in number, or the pins are low |
| `Slices.SteadyIsFixedPoint` | lib/Port.cpp:461-475 | that value does not change when the same pins are sampled again, under the same condition and no other |
| `Slices.TopBitIsNotShown` | lib/Port.cpp:499-506 | if the entries do not fill the transfer width, none of the slices that are shifted out shows the top bit |
| `PortInput.FastInputMatches` | lib/Port.cpp:418-431 | the steady-state fast path of an untimed input port, on which nobody waits for anything that is coming, reaches the state of edge stepping in every register, the fill count, the counter and the time, from every state and for every n, if and only if the computed register is steady |
| `PortInput.SkippedSample` | lib/Port.cpp:418-431 | otherwise one edge from the computed register already differs |
| `PortInput.TwelveBitsOnOnePin` | lib/Port.cpp:970-975 | a one-bit port told to use a transfer width of 12 is such a port |
| `PortExamples.UnsteadyRegisterIsReached` | lib/Port.cpp:418-458 | every transfer width that is not a power of two, on a one-bit port just turned on: a run of samples after which an update in time differs from stepping |
| `PortInput.FastThenLast` | lib/Port.cpp:453-458 | skipping all edges of an update but the last, and then seeing the last, is stepping them all |
| `PortInput.FastInputAdvances` | lib/Port.cpp:418-431 | in any state that path consumes and counts exactly n edges |
| `PortWaiters.NeverMetIff` | lib/Port.cpp:605-632 | whether any sample to come captures a value that meets the condition shows within a bounded number of samples |
| `PortInputSchedule.InputNeverSleepsPastAWake` | lib/Port.cpp:1147-1181 | an input port without ready signals wakes nobody and raises no event before the edge it asked to be woken at, or ever if it did not ask, if and only if it is not an unbuffered port that asks for nothing while a sample to come captures a value that meets the condition |
| `PortInputSchedule.WideCaptureIsMissed` | lib/Port.cpp:1165-1180 | in that exception, whichever sample it is, somebody is woken while the port is asleep |
| `PortInputSchedule.OwnWidthIsNotMissed` | lib/Port.cpp:1165-1180 | a port whose transfer is as wide as itself is never in it |
| `PortExamples.EightBitsUnbuffered` | lib/Port.cpp:1165-1180 | a one-bit port just turned on, told to transfer bytes and given seven samples, is: `in` then waits, the port asks for nothing and the next sample wakes the thread |
| `PortTimedInput.TimedIterate` | lib/Port.cpp:581-633 | any number of edges before the sample at the port time takes the samples among them in and does nothing else, in closed form: register, fill count and last capture |
| `PortTimedUpdate.TimedSkipForgets` | lib/Port.cpp:363-371 | skipping to before the port time agrees with stepping if and only if the first sample does not clear the time, the register and the fill count come round and nothing new would be captured |
| `PortTimedUpdate.FastTimedInputMatches` | lib/Port.cpp:353-382 | the whole branch up to the sample at the port time, for every state with room in the register: agreement if and only if where the register first settles there is nothing to forget |
| `PortTimedUpdate.TimedUpdateIsLossless` | lib/Port.cpp:353-458 | every update of a timed input port no later than it asked for equals stepping every edge, if and only if it has at most two edges, or where the register first settles there is nothing to forget or the last sample makes up for it by realigning or capturing |
| `PortTimedUpdate.ScheduledUpdateIsLossless` | lib/Port.cpp:588-603 | the update asked for loses nothing on a buffered port with a steady register that is waited on and sees its condition met |
| `PortTimedUpdate.OneSampleIsForgotten` | lib/Port.cpp:363-371 | a one-bit port just turned on and told to transfer bytes: after `setpt` an update in time of three edges differs from stepping them |
| `PortTimedInput.FastTimedInputAdvances` | lib/Port.cpp:353-431 | in any state that branch consumes and counts exactly n edges |
| `PortNotReady.SteppedTime` | lib/Port.cpp:508-579 | stepped, a port that is not ready keeps its port time exactly until the falling edge that meets it |
| `PortNotReady.ClearsTooEarly` | lib/Port.cpp:290-303 | the fast path clears a port time that stepping keeps, exactly if there are enough edges but not enough falling ones |
| `PortNotReady.NotReadyMatches` | lib/Port.cpp:290-303 | the fast path reaches the state of edge stepping if and only if, where the port time is met, there is neither a port to turn around nor a ready output to raise, and, where it is not, the number of edges does not mislead |
| `PortNotReady.FourEdgesAreEnough` | lib/Port.cpp:290-303 | four edges are enough when the port time is three falling edges away |
| `PortNotReady.NotReadyFailuresHappen` | lib/Port.cpp:290-303 | a strobed slave port that is turned on, outputs, and then sees its ready input fall before `setpt`: a time one falling edge away and a time three away, with the update that fails for each |
| `PortPins.PinsAreAnnounced` | lib/Port.cpp:184-211 | after any number of edges, in every mode, the level last announced is the low bits of the shift register while the port drives and zero once it has turned around, inverted if the port inverts |
| `PortPins.ReadyIsAnnounced` | lib/Port.cpp:1272-1280 | after any number of edges the ready output last announced is the one the port has |
| `PortPins.OutIsAnnounced` | lib/Port.cpp:790-814 | the level after `out` on an input port is announced if and only if the register's low bits were zero or differ from the value's |
| `PortPins.HighAfterHighIsMissed` | lib/Port.cpp:556-565 | a one-bit port just turned on that samples a one and then outputs a one tells nobody |
| `PortWakes.NobodyIsForgotten` | lib/Port.cpp:508-633 | after any number of edges, in every mode, every thread that waited on the port has been woken once or still waits, and nobody else has been woken |
| `PortWakes.OutputTakesTurn` | lib/Port.cpp:508-548 | a pending transfer is loaded, its writer woken and the timestamp taken exactly when the register is used up and no port time is in the way |
| `PortWakes.OutputRunsDry` | lib/Port.cpp:513-558 | without one the register goes on to its next entry or keeps the last, `sync` is woken exactly when it is used up, and the port turns around exactly at its time or for a waiting reader |
| `PortWakes.InputAnswers` | lib/Port.cpp:485-497 | a sample wakes the reader and raises the event exactly if it comes at the port time, if there is one, and the pins or the full register equal the data, or differ from it, as the condition asks |
| `PortWakes.InputCaptures` | lib/Port.cpp:588-615 | waited on or not, a full register is captured with the counter as its timestamp, and dropped while the transfer register is held |
| `PortWakes.NothingBeforeTime` | lib/Port.cpp:568-586 | an input port with a ready output and a time samples nothing before that time, for any number of edges, and is not ready from its next falling edge on |
| `PortWakes.ReadyAtTime` | lib/Port.cpp:574-578 | the falling edge that meets the time empties the register and makes the port ready |
| `PortStream.StreamArrives` | lib/Port.cpp:499-616 | every stream of words written to a buffered output port is received unchanged by a matching input port that sees only the levels the output port announces, word k after k registers' worth of periods |
| `PortStream.WordArrives` | lib/Port.cpp:499-616 | one word, slice by slice, from transfer register to transfer register |
| `PortStrobeOut.StrobedStreamArrives` | lib/Port.cpp:1203-1219 | an output port that strobes an input port loses, changes, doubles and reorders no word, however long the writer takes over each: received, one on its way and not yet loaded are the words there were |
| `PortStrobeIn.PulledStreamArrives` | lib/Port.cpp:717-749 | the same for an input port that strobes an output port, however long the reader takes over each word, until the output port runs dry |
| `PortDevice.Port.constructor` | lib/Port.cpp:75-112 | a port just turned on is up to date: its iterator stands on the first edge after the time |
| `PortDevice.Port.SeeFallingEdgeOutputPort` | lib/Port.cpp:508-566 | the falling edge of an output port: shift, load, turn around, wake and announce the pins, as the value-level function whose effect `PortPins` and `PortWakes` fix |
| `PortDevice.Port.UpdateReadyOut` | lib/Port.cpp:1203-1280 | the ready-out signal after an edge, with a change logged |
| `PortDevice.Port.SeeFallingEdge` | lib/Port.cpp:568-579 | a falling edge in either direction |
| `PortDevice.Port.CaptureShiftReg` | lib/Port.cpp:605-632 | a full input register goes to the transfer register and wakes or signals whoever waits |
| `PortDevice.Port.ShiftPinsIn` | lib/Port.cpp:588-603 | the first half of a sampling edge: sample, and realign to a met condition |
| `PortDevice.Port.SeeSamplingEdge` | lib/Port.cpp:581-633 | a sampling edge: sample, realign, capture |
| `PortDevice.Port.SeeNextEdge` | lib/Port.cpp:635-650 | one edge, as the value-level step |
| `PortDevice.Port.UpdateSlow` | lib/Port.cpp:477-483 | stepping to a time steps exactly the edges up to it |
| `PortDevice.Port.SkipEdges` | lib/Port.cpp:313-318 | a skip of n edges, leaving everything but time, counter and iterator |
| `PortDevice.Port.StepUntilDrained` | lib/Port.cpp:307-312 | the loop that empties the shift register |
| `PortDevice.Port.StepUntilUntimed` | lib/Port.cpp:331-336 | the loop that steps until the port time has been met |
| `PortDevice.Port.PassPortTime` | lib/Port.cpp:327-346 | jump to just before the port time and step past it |
| `PortDevice.Port.FastForwardOutput` | lib/Port.cpp:306-347 | the whole output branch equals its value-level form |
| `PortDevice.Port.ComputeSteadyState` | lib/Port.cpp:461-475 | the doubling loop computes the steady register |
| `PortDevice.Port.SkipInputEdges` | lib/Port.cpp:427-430 | a skip of n edges of an input port, with the fill count moved on by the samples |
| `PortDevice.Port.FastForwardInput` | lib/Port.cpp:418-431 | the whole input fast path equals its value-level form |
| `PortDevice.Port.StepUntilSteady` | lib/Port.cpp:355-362 | the loop that steps until the register is steady equals its value-level form |
| `PortDevice.Port.StepUntilReadyIn` | lib/Port.cpp:279-289 | so does the loop that waits for the ready-in signal to be seen |
| `PortDevice.Port.FastForwardInputTime` | lib/Port.cpp:353-382 | the branch of a settled, timed input port equals its value-level form: every register, and the edges left over |
| `PortDevice.Port.FastForwardTimed` | lib/Port.cpp:353-431 | the whole branch of a timed input port without ready-out equals its value-level form |
| `PortDevice.Port.FastForwardInputs` | lib/Port.cpp:349-431 | every input branch consumes exactly n edges, and without ready-out equals its value-level form, timed or not |
| `PortDevice.Port.FastForwardReadyOut` | lib/Port.cpp:384-416 | the branches with ready-out signals consume exactly n edges |
| `PortDevice.Port.FastForwardNotReady` | lib/Port.cpp:290-303 | the branch without ready-in equals its value-level form |
| `PortDevice.Port.UpdateNoExternalChange` | lib/Port.cpp:256-431 | in every mode exactly n edges are consumed and counted, and a port without ready signals takes the fast form of its direction |
| `PortDevice.Port.Update` | lib/Port.cpp:433-458 | in every mode the edges after the old time and up to the new one are consumed and the iterator is on the first edge after; updated in time, an output port without starved `sync` and an untimed input port with a steady register are in the state of edge stepping, and a timed input port is if and only if it keeps what matters |
| `PortDevice.Port.UpdateFew` | lib/Port.cpp:446-449 | the slow half of an update steps exactly the edges in between |
| `PortDevice.Port.UpdateMany` | lib/Port.cpp:450-458 | the fast half consumes all of them, and loses nothing where nothing may be lost |
| `PortDevice.UpdateAnnounces` | lib/Port.cpp:433-458 | an output port updated in time has announced what it drives |
| `DecodeTable.WalkDrops` | lib/Core.cpp:458-470 | the backward walk drops exactly the entries linked to the halfword by marks |
| `DecodeTable.WalkClears` | lib/Core.cpp:458-470 | after the walk no entry covers the halfword, the marks still find every entry left, and the walk stopped at index 0 or above |
| `DecodeTable.UnmarkedIsFree` | lib/Core.h:236-240 | an unmarked halfword is covered by no entry, so nothing need be dropped |
| `DecodeTable.ChangeIsSafe` | lib/Core.h:213-260 | after any change of memory and breakpoints, a table in which no entry covers a changed halfword is what decoding afresh gives |
| `DecodeTable.InstallTracks` | lib/DecodeCache.cpp:47-59 | the marks set for a new entry of any length let the walk find it, and every older entry is still found |
| `DecodeTable.PatchIsSafe` | lib/Core.cpp:216-226 | writing any bytes and dropping what covers them leaves a coherent table |
| `DecodeTable.BreakpointIsSafe` | lib/Core.cpp:273-286 | so does setting or clearing a breakpoint |
| `CoreMemory.Core.constructor` | lib/DecodeCache.cpp:68-82 | the empty cache is coherent |
| `CoreMemory.Core.InvalidateSlowPath` | lib/Core.cpp:458-470 | the do-while walk: never leaves the table, drops the linked entries and no others |
| `CoreMemory.Core.InvalidateWordSlowPath` | lib/Core.cpp:448-456 | the same for the two halfwords of a word |
| `CoreMemory.Core.InvalidateShort` | lib/Core.h:236-247 | drops what covers a halfword, and reports whether it was marked |
| `CoreMemory.Core.InvalidateWord` | lib/Core.h:213-234 | drops what covers a word |
| `CoreMemory.Core.InvalidateRange` | lib/Core.cpp:472-486 | drops what covers any halfword of a byte range, whatever its alignment, and reports whether any of them was marked |
| `CoreMemory.Core.StoreByte` | lib/Core.h:249-290 | a byte store changes that byte, which a load then gives back, and keeps the cache coherent |
| `CoreMemory.Core.StoreShort` | lib/Core.h:236-285 | a halfword store likewise: loading the halfword gives the value back, loading the byte its low byte |
| `CoreMemory.Core.StoreWord` | lib/Core.h:213-280 | a word store likewise, for the word, its low halfword and its low byte |
| `CoreMemory.Core.WriteMemory` | lib/Core.cpp:216-226 | a range write changes the range or is refused, exactly when stated, and keeps the cache coherent |
| `CoreMemory.Core.SetBreakpoint` | lib/Core.cpp:273-280 | a breakpoint is set exactly on even addresses in RAM, and keeps the cache coherent |
| `CoreMemory.Core.UnsetBreakpoint` | lib/Core.cpp:282-286 | a breakpoint is cleared, and the cache stays coherent |
| `CoreMemory.Core.ClearBreakpoints` | lib/Core.h:111-111 | clearing all breakpoints keeps the cache coherent if and only if nothing is cached where one was |
| `CoreMemory.CachedBreakpointOutlives` | lib/Core.h:111-111 | on any memory a breakpoint set, decoded and cleared with all others stays in the cache, which is then wrong |
| `DecodeTable.ClearingIff` | lib/Core.h:111-111 | the same of any coherent table |
| `CoreMemory.Core.SetOpcode` | lib/DecodeCache.cpp:47-66 | installing what memory decodes to keeps the cache coherent and every entry findable |
| `CoreMemory.Core.DecodeAt` | lib/Thread.cpp:555-564 | decoding on demand installs the current decoding |
| `CoreMemory.Core.GetFragment` | lib/JIT.cpp:541-580 | the fragment is what decoding afresh gives, ends at a branch, the end of memory or an instruction that cannot be compiled, and is given up exactly on one that switches to dual issue |
| `CoreMemory.Core.CompileFragment` | lib/JIT.cpp:588-710 | a fragment of any length is installed unless its first instruction cannot be compiled, and keeps the cache coherent |
| `CoreMemory.Core.ResetCaches` | lib/Core.cpp:328-334 | afterwards nothing is cached |
| `HopWalk.ClosedRepeats` | lib/Node.cpp:107-130 | a walk that returns to a node repeats for ever |
| `HopWalk.WalkCloses` | lib/Node.cpp:107-130 | a walk of N hops in a network of N nodes has closed, with tail and period at most N together |
| `HopWalk.ClosedNeverArrives` | lib/Node.cpp:123-125 | a walk that closes never arrives |
| `HopWalk.CaughtUp` | lib/Node.cpp:123-129 | once the tortoise waits on the cycle, it is met within one period |
| `HopWalk.BrentHop` | lib/Node.cpp:121-129 | a hop and a leap keep the invariant of the cycle detection, and at most 3N + 7 hops have been made |
| `HopWalk.Turn` | lib/Node.cpp:107-130 | what each outcome of one turn of the loop says about the unbounded walk |
| `Routing.HighestDifferenceIs` | lib/Node.cpp:108-115 | the bit that selects the direction is the highest in which destination and node differ |
| `Routing.DirectionBitInTable` | lib/Node.cpp:110-116 | that bit is within sixteen |
| `Routing.GetXLinkForDirection` | lib/Node.cpp:64-71 | the first enabled link with the direction, or none |
| `Routing.NextHopIs` | lib/Node.cpp:108-121 | a packet goes from a node to another if and only if the first enabled link in the direction of the highest node bit that differs leads there and both its ends are enabled and of one kind |
| `Routing.FindHop` | lib/Node.cpp:102-121 | one turn of the loop finds that link, arrives exactly where the node bits match, and gives up exactly where no link leads on |
| `Routing.Route` | lib/Node.cpp:100-130 | the node found matches the destination and is at the end of a way of such links with as many hops; if none is found, no way of any length from the start leads to a node that matches; and there are at most 3N + 8 hops in a network of N nodes |
| `ChannelState.CtrlPosition` | lib/Chanend.cpp:185-202 | the position of the first control token, zero exactly if there is none |
| `ChannelState.SplitJoins` | lib/Chanend.cpp:136-143 | the four tokens of a word give the word back |
| `ChannelSafety.OpenFreeKeeps` | lib/Chanend.cpp:73-86 | claiming a free or granted route keeps: each route's source is exactly its owner, each queue exactly the senders paused for it |
| `ChannelSafety.OpenJunkKeeps` | lib/ChanEndpoint.cpp:16-21 | so does starting a junked packet |
| `ChannelSafety.EnqueueKeeps` | lib/ChanEndpoint.cpp:22-33 | so does queueing behind another packet |
| `ChannelSafety.WaitKeeps` | lib/Chanend.cpp:115-118 | so does pausing for room |
| `ChannelSafety.VanishKeeps` | lib/Chanend.cpp:155-161 | so does an output of a junked packet |
| `ChannelSafety.AcceptKeeps` | lib/Chanend.cpp:22-52 | so does accepting tokens, and a thread left waiting for input still lacks them |
| `ChannelSafety.CloseKeeps` | lib/ChanEndpoint.cpp:36-45 | so does releasing the route to the first in the queue |
| `ChannelSafety.TakeKeeps` | lib/Chanend.cpp:204-213 | so does taking tokens, and a sender left paused still lacks room |
| `ChannelSafety.OutputKeeps` | lib/Chanend.cpp:106-171 | so does any output instruction |
| `ChannelSafety.InputKeeps` | lib/Chanend.cpp:173-274 | so does any input instruction |
| `ChannelSafety.SetDestKeeps` | lib/Chanend.cpp:88-98 | so does setting the destination |
| `ChannelSafety.AllocKeeps` | lib/Chanend.h:82-93 | so does allocating |
| `ChannelSafety.FreeKeeps` | lib/Chanend.h:95-103 | so does freeing |
| `ChannelHistory.OutputRecords` | lib/Chanend.cpp:106-171 | an output keeps the history's invariants: packets from one source, the same order at sender and destination, tokens conserved, grants in order |
| `ChannelHistory.InputRecords` | lib/Chanend.cpp:173-274 | so does an input |
| `ChannelRuns.StepIsSafe` | lib/Chanend.cpp:22-274 | every legal step of any channel end keeps all invariants |
| `ChannelRuns.RunIsSafe` | lib/Chanend.cpp:22-274 | hence they hold after every run of any number of channel ends |
| `ChannelPrograms.RunTracks` | lib/Chanend.cpp:106-171 | in every run, the outputs a thread has issued, read off the steps of the run alone, are those delivered or junked, in order, and then the one in progress |
| `ChannelResults.NothingIsLost` | lib/Chanend.cpp:54-171 | hence pausing and repeating loses, doubles and reorders no output |
| `ChannelAnswers.WordBytes` | lib/Chanend.cpp:123-150 | a word is sent as four data tokens, the most significant byte first |
| `ChannelAnswers.AnswerIsFront` | lib/Chanend.cpp:203-288 | an input is answered with exactly the tokens it takes from the front of the buffer |
| `ChannelAnswers.RunIsHeard` | lib/Chanend.cpp:171-288 | in every run the answers a thread has had spell out exactly the tokens that left its buffer |
| `ChannelResults.PacketsArrive` | lib/ChanEndpoint.cpp:16-45 | in every run, what a destination accepts between two releases comes from one sender, what it accepts from each sender is what that sender's program issued to it, in order, what its thread has been told and what is buffered are the tokens of that, and routes are granted first come, first served |
| `ChannelResults.WordArrivesIntact` | lib/Chanend.cpp:260-274 | in every run, once everything sent before a word is consumed, `in` returns that word |
| `ChannelTokens.NextIsAnswered` | lib/Chanend.cpp:171-288 | in every run, what each input instruction answers to a thread that has heard everything before an output: a data token by value and no control token, a control token by value and checked for it, a word as a whole or by its first byte |
| `ChannelTokens.EarlyControlIsFound` | lib/Chanend.cpp:185-201 | a control token behind fewer than four data tokens is found at its place, and no word is made of them |
| `ChannelResults.PausedSenderIsBlocked` | lib/Chanend.cpp:54-86 | in every run a paused sender is queued exactly once, at its destination behind another packet, or is the source there with too little room |
| `ChannelResults.PausedReceiverIsBlocked` | lib/Chanend.cpp:215-290 | in every run a paused receiver has an empty buffer or under four tokens for a word, and its instruction would pause again exactly unless a control token has arrived |
| `ChannelResults.EarlyControlTokenIsMissed` | lib/Chanend.cpp:283-289 | a run in which that exception leaves a thread asleep |
| `ChannelResults.SecondSenderQueuesTwice` | lib/ChanEndpoint.cpp:26-30 | an output queues a channel end twice if and only if the end is queued already |
| `ChannelResults.QueuedSenderIsReached` | lib/ChanEndpoint.cpp:26-30 | a run into a state with a queued channel end |
| `ChannelEnds.Chanends.constructor` | lib/ChanEndpoint.cpp:10-14 | no channel end is in use, and all invariants hold |
| `ChannelEnds.Chanends.Claim` | lib/ChanEndpoint.cpp:16-34 | claim, with its three outcomes |
| `ChannelEnds.Chanends.Release` | lib/ChanEndpoint.cpp:36-45 | release, with the first in the queue woken |
| `ChannelEnds.Chanends.OpenRoute` | lib/Chanend.cpp:73-86 | the route is open exactly when it can be, otherwise the sender is queued |
| `ChannelEnds.Chanends.Update` | lib/Chanend.cpp:276-290 | who is woken when tokens arrive |
| `ChannelEnds.Chanends.ReceiveData` | lib/Chanend.cpp:22-34 | data tokens are appended in order |
| `ChannelEnds.Chanends.ReceiveCtrl` | lib/Chanend.cpp:36-52 | a control token is appended, except CT_PAUSE |
| `ChannelEnds.Chanends.Out` | lib/Chanend.cpp:106-171 | all output instructions, as the value-level protocol says, with whether the thread pauses; all invariants are kept |
| `ChannelEnds.Chanends.In` | lib/Chanend.cpp:173-274 | all input instructions, with result and new state; all invariants are kept |
| `ChannelEnds.Chanends.EndPacket` | lib/ChanEndpoint.cpp:36-45 | the end of a packet at both ends, with the route released |
| `ChannelEnds.Chanends.TestWord` | lib/Chanend.cpp:185-202 | the scanning loop finds the first control token |
| `ChannelEnds.Chanends.Pop` | lib/Chanend.cpp:204-213 | tokens leave and the current source is told |
| `ChannelEnds.Chanends.InShort` | lib/Chanend.cpp:173-258 | the token input instructions, with result and new state |
| `ChannelEnds.Chanends.InWide` | lib/Chanend.cpp:260-274 | the word input instruction, with result and new state |
| `ChannelEnds.Chanends.SetData` | lib/Chanend.cpp:88-98 | refused exactly in the middle of a packet or for an identifier of neither a channel end nor a switch; all invariants are kept |
| `ChannelEnds.Chanends.Alloc` | lib/Chanend.h:82-93 | allocation, as the value-level step; all invariants are kept |
| `ChannelEnds.Chanends.Free` | lib/Chanend.h:95-103 | refused exactly while tokens are buffered or a packet is open; all invariants are kept |
| `RingBuffer.RingBuffer.constructor` | lib/ring_buffer.h:19-22 | an empty buffer |
| `RingBuffer.RingBuffer.PushBack` | lib/ring_buffer.h:34-39 | appends to the contents, across the wrap-around |
| `RingBuffer.RingBuffer.PopFront` | lib/ring_buffer.h:41-51 | removes the oldest entries |
| `RingBuffer.RingBuffer.At` | lib/ring_buffer.h:95-98 | reads the entry at an index, counted from the oldest |
| `RingBuffer.RingBuffer.Remaining` | lib/ring_buffer.h:63-66 | the room left |
| `RingBuffer.RingBuffer.Clear` | lib/ring_buffer.h:100-104 | the contents are empty |
| `SwitchRequest.ParseIff` | lib/SSwitch.cpp:55-87 | tokens parse to a request if and only if they are its encoding |
| `SwitchRequest.ReceivedIs` | lib/SSwitch.cpp:174-224 | however the tokens of a packet are delivered, they are kept up to ten and junked beyond |
| `SwitchRequest.ActsIff` | lib/SSwitch.cpp:174-224 | for every packet in any mix of single and batched tokens and pauses, the switch acts on a request if and only if the packet is its encoding |
| `SwitchRequest.EncodeIs` | lib/SSwitch.cpp:55-88 | a request token by token: the kind, where to answer to, the register and the data, each with its most significant byte first |
| `SwitchRequest.ResponseIs` | lib/SSwitch.cpp:124-138 | what a requester reads: CT_ACK first if and only if acknowledged and CT_NACK otherwise, CT_END last, and the value of a register read with its most significant byte first |
| `SwitchRequest.ResponsesDiffer` | lib/SSwitch.cpp:129-138 | a requester can tell any two responses apart |
| `SSwitchDevice.SSwitch.constructor` | lib/SSwitch.cpp:15-25 | an empty buffer |
| `SSwitchDevice.SSwitch.ReceiveToken` | lib/SSwitch.cpp:174-184 | one token, never beyond the buffer |
| `SSwitchDevice.SSwitch.ReceiveDataTokens` | lib/SSwitch.cpp:186-198 | a batch of tokens, all or none |
| `SSwitchDevice.SSwitch.ContainsControlToken` | lib/SSwitch.cpp:46-53 | whether a range has a control token |
| `SSwitchDevice.SSwitch.ParseRequest` | lib/SSwitch.cpp:55-87 | the buffer's request, if it holds one |
| `SSwitchDevice.SSwitch.ReceiveEnd` | lib/SSwitch.cpp:200-211 | the request to act on, and a parser that starts afresh |
| `SSwitchDevice.SSwitch.BuildResponse` | lib/SSwitch.cpp:128-138 | the buffer holds exactly such a response |
| `SortedQueue.PushKeeps` | lib/RunnableQueue.cpp:10-33 | a push keeps the queue sorted and every item at most once in it |
| `SortedQueue.PushElements` | lib/RunnableQueue.cpp:10-33 | a push moves its item and leaves every other entry |
| `SortedQueue.PushIsStable` | lib/RunnableQueue.cpp:19-31 | an entry stays ahead of an item pushed later exactly if its time is not later |
| `SortedQueue.PopsAscend` | lib/RunnableQueue.h:35-58 | over every run of pushes, removals and pops in which no push is earlier than the last pop, pop times never decrease |
| `RunnableQueue.RunnableQueue.constructor` | lib/RunnableQueue.h:18-18 | the empty queue |
| `RunnableQueue.RunnableQueue.Contains` | lib/RunnableQueue.h:20-23 | exact membership, read off the links |
| `RunnableQueue.RunnableQueue.Remove` | lib/RunnableQueue.h:35-46 | the queue without the item, all links consistent |
| `RunnableQueue.RunnableQueue.Unlink` | lib/RunnableQueue.h:35-46 | the pointer surgery of a removal keeps the links consistent |
| `RunnableQueue.RunnableQueue.LinkAfter` | lib/RunnableQueue.cpp:27-31 | the pointer surgery of an insertion keeps the links consistent |
| `RunnableQueue.RunnableQueue.FindPlace` | lib/RunnableQueue.cpp:24-26 | the scan ends behind all items that are due no later |
| `RunnableQueue.RunnableQueue.Push` | lib/RunnableQueue.cpp:10-33 | the linked queue does what the sorted sequence does |
| `RunnableQueue.RunnableQueue.Pop` | lib/RunnableQueue.h:51-58 | the front is dropped |
| `EventLinks.RemoveLinks` | lib/Thread.h:55-65 | removing a resource from its list keeps every list well linked and the lists apart |
| `EventLinks.AddLinks` | lib/Thread.h:46-53 | so does adding one |
| `EventOwners.MovedAlone` | lib/Resource.cpp:29-41 | after a transition the resource is in its new list alone and every other resource stays where it was, in order |
| `EventOwners.BecameTwice` | lib/Resource.cpp:67-85 | a change of owner followed by a change of mode is one move |
| `EventLists.Events.constructor` | lib/Thread.h:45-45 | all lists are empty and no resource is in use |
| `EventLists.Events.AddTo` | lib/Thread.h:46-53 | linked at the front of the list, and nowhere else |
| `EventLists.Events.RemoveFrom` | lib/Thread.h:55-65 | unlinked, with the links of the removed node left as they were |
| `EventLists.Events.UpdateOwner` | lib/Resource.cpp:29-41 | a change of owner moves the resource to the new owner's list for its mode iff its events are enabled |
| `EventLists.Events.SetInterruptMode` | lib/Resource.cpp:67-85 | a change of mode moves it to the other list |
| `EventLists.Events.EventDisable` | lib/Resource.cpp:151-162 | disabling unlinks it and gives it the new owner |
| `EventLists.Events.EventEnable` | lib/Resource.cpp:164-178 | enabling links it in the new owner's list |
| `EventLists.Events.SetInUseOn` | lib/Resource.cpp:112-122 | in use, owned, disabled and unlinked |
| `EventLists.Events.SetInUseOff` | lib/Resource.cpp:124-130 | not in use and unlinked |
| `EventLists.Events.Clre` | lib/Thread.h:338-346 | unlinking while iterating empties exactly the thread's event list, disables exactly the resources on it and leaves every other list as it was |
| `Barrier.LastToArrive` | lib/Synchroniser.cpp:24-24 | the comparison of counts tells exactly whether every other member waits |
| `Barrier.Synchroniser.constructor` | lib/Synchroniser.h:36-45 | a barrier with its master running |
| `Barrier.Synchroniser.AddChild` | lib/Synchroniser.h:47-52 | a new slave counts as waiting |
| `Barrier.Synchroniser.MaxThreadTime` | lib/Synchroniser.cpp:11-19 | the latest of the members' times |
| `Barrier.Synchroniser.Sync` | lib/Synchroniser.cpp:21-65 | a member waits exactly while another is still running; a release advances all members to the latest of their times and past the same barrier; a join frees each slave exactly once, whoever arrives last |
| `Barrier.Synchroniser.ReleaseAll` | lib/Synchroniser.cpp:34-45 | every member goes on, at the latest time |
| `Barrier.Synchroniser.Join` | lib/Synchroniser.cpp:46-64 | each slave is freed by the loop or ends itself, never both |
| `Barrier.Synchroniser.MJoin` | lib/Synchroniser.cpp:67-72 | the master passes a join only when all slaves have arrived |
| `Barrier.Synchroniser.Cancel` | lib/Synchroniser.cpp:74-77 | a waiting member is taken away and no longer counted |
| `Crc.FeedLinear` | lib/CRC.h:13-25 | the checksum is linear in register and data |
| `Crc.FeedInjective` | lib/CRC.h:13-25 | feeding the same data never merges two registers |
| `Crc.FeedWord` | lib/CRC.h:27-30 | a word fed to a register is added to what zeros would give |
| `Crc.TurnIsStep` | lib/CRC.h:15-23 | a turn of the loop on machine words is the step on bits |
| `Crc.Crc` | lib/CRC.h:13-35 | the loop, for 8 or 32 bits of data, feeds them in order |
| `Crc.InitialRuns` | lib/EthernetPhy.cpp:227-229 | 32 zero bits take the initial value 0x9226F562 to all ones |
| `EthernetFrame.FourBytesAreAWord` | lib/CRC.h:27-35 | four 8-bit steps on little-endian bytes are one 32-bit step |
| `EthernetFrame.InitialInverts` | lib/EthernetPhy.cpp:227-229 | starting at the initial value is starting at zero with the first four bytes inverted |
| `EthernetFrame.TransmitFrame` | lib/EthernetPhy.cpp:89-106 | a frame is passed on, without its check sequence, exactly if it is long enough and its checksum is right |
| `EthernetFrame.CheckSequenceIsUnique` | lib/EthernetPhy.cpp:225-240 | for each body exactly one check sequence is accepted: the one the receiving side appends |
| `EthernetFrame.BurstIsRejected` | lib/EthernetPhy.cpp:93-103 | a frame damaged within four consecutive bytes is never accepted |
| `EthernetPhy.EthernetPhyRx.FrameChecksum` | lib/EthernetPhy.cpp:229-232 | the loop over the frame computes its checksum |
| `EthernetPhy.EthernetPhyRx.AppendCRC32` | lib/EthernetPhy.cpp:225-240 | the frame is kept and its check sequence appended |
| `EthernetPhy.PaddingIs` | lib/EthernetPhy.cpp:242-253 | payloads below sixty bytes are filled up to sixty with zeros, others are left alone |
| `EthernetPhy.LongPayloadsDoNotFit` | lib/NetworkLinkTapLinux.cpp:78-94 | of the payloads the link may return exactly those of 1515 to 1518 bytes leave no room for the check sequence |
| `EthernetPhy.EthernetPhyRx.ReceiveFrame` | lib/EthernetPhy.cpp:242-253 | every payload the link may return that fits becomes its padding followed by its check sequence, and the others are told apart |
| `EthernetPhy.FrameIsAccepted` | lib/EthernetPhy.cpp:89-106 | such a frame is accepted by the transmitting side |
| `EthernetPhy.EthernetPhyRx.Run` | lib/EthernetPhy.cpp:263-300 | what the receiving side drives on each falling edge, in every state, unless it takes up a payload that does not fit |
| `EthernetPhy.EthernetPhyTx.Run` | lib/EthernetPhy.cpp:134-170 | sampling the lines, and passing on a frame exactly when one ends without error and is right |
| `EthernetPhy.PassedIff` | lib/EthernetPhy.cpp:89-170 | whatever is on the lines from a start delimiter to the end of a frame: its bytes, low nibble first and without the last four, are passed on exactly if there was no error, there are 64 or more and the checksum is right |
| `EthernetPhy.FrameCrosses` | lib/EthernetPhy.cpp:134-291 | with four lines between the two sides, every byte of any frame arrives, in order |
| `EthernetPhy.ArrivalCrosses` | lib/EthernetPhy.cpp:134-300 | from two idle sides, the start delimiter is found in its second nibble, the frame arrives whole and the lines go quiet |
| `EthernetPhy.PayloadCrosses` | lib/EthernetPhy.cpp:134-300 | so every frame built from a payload makes the transmitting side pass on the padded payload, when the lines go quiet |
| `MemoryChecks.PlaceMemoryChecks` | lib/JITOptimize.cpp:228-281 | the loop keeps exactly the checks the known alignments do not imply |
| `MemoryChecks.PlaceCheck` | lib/JITOptimize.cpp:237-273 | one instruction: its check and the alignments known after it |
| `MemoryChecks.Update` | lib/JITOptimize.cpp:215-226 | everything known about written registers is forgotten |
| `MemoryChecks.DroppingIsSound` | lib/JITOptimize.cpp:194-281 | in every run of every fragment, if the kept checks so far pass, the access is aligned even where its own check was dropped |
| `MemoryChecks.KeptIsNeeded` | lib/JITOptimize.cpp:251-269 | no check is kept in vain: some run passes all earlier ones and then misses alignment |
| `PortArg.OffsetIff` | lib/PortArg.cpp:18-29 | a string is an offset exactly if, up to its first zero, it is empty or spaces, a sign or none, and digits of a value up to 127, which is zero after a minus sign |
| `PortArg.ParsePortOffset` | lib/PortArg.cpp:18-29 | an offset is between 0 and 127 |
| `PortArg.DecimalParses` | lib/PortArg.cpp:18-29 | a printed number is read back, if it is in range |
| `PortArg.ParsedIs` | lib/PortArg.cpp:31-88 | what the parts of any parsed argument are like |
| `PortArg.RangeOfPort` | lib/PortArg.cpp:31-88 | core, port, lower and upper bound are read from their places |
| `PortArg.WholePort` | lib/PortArg.cpp:31-88 | without brackets it is the whole port |
| `PortArg.RoundTrip` | lib/PortArg.cpp:168-180 | printing a parsed argument and parsing it again gives it back, if and only if its end offset did not overflow |
| `PortArg.OverflowIff` | lib/PortArg.cpp:64-68 | the end offset overflows for a single offset of 127 and only then |
| `PortArg.OverflowExample` | lib/PortArg.cpp:64-68 | such an argument exists |

## Left out

- Port widths of 32 bits: shifting a 32-bit register by its whole width is undefined in C++.
- Signals.FlipInverts: the phase of a flipped clock is not cut off at 32 bits.
- Transfer widths that make a shift by 32 or more, or by less than nothing: such shifts are undefined in C++.
- Port setters, and callbacks into other ports and peripherals: visible effects of a port go to a log instead.
- PortDevice.Port.UpdateNoExternalChange: for handshake and strobed ports only the bookkeeping of edges is stated, because their fast paths also depend on how ready signals are wired.
- PortDevice.Port.FastForwardReadyOut: for the same reason only the bookkeeping of edges.
- PortDevice.Port.FastForwardInputs: with a ready output only the bookkeeping of edges.
- PortDevice.Port.Update: registers of ready-signalled ports are left to the lemmas on their branches, those of untimed input ports without a steady register to `PortInput.FastInputMatches`, and those of input ports with a clock on their pins or no room in their register are not stated.
- PortDevice.Port.UpdateMany: likewise.
- PortInputSchedule.InputNeverSleepsPastAWake: ports without ready signals, as the wake-ups of the others depend on how ready signals are wired.
- PortTimedUpdate.TimedUpdateIsLossless: does not cover the input time stamp, a clock on the pins, a register that has reached its shift count already, or updates later than the port asked for.
- PortStrobeOut.StrobedStreamArrives: the ready signal is wired directly, without a ready port between; streams through two ports that both have ready signals are not stated.
- PortStrobeIn.PulledStreamArrives: likewise, and the first word has been loaded before the first strobe.
- PortInput.FastInputMatches: does not cover the input time stamp, which the fast path leaves at the value of the last stepped edge.
- PortOutput.FastOutputMatches: does not cover a port with a thread paused in `sync` or input; `PortSchedule.UpdateIsLossless` says exactly when such an update loses nothing.
- Events of a port whose owner is not executing are held in the model rather than delivered.
- ROM breakpoints, dual-issue decoding of the same address, 8-byte stores and chained fragment pointers in the decode cache.
- CoreMemory.Core.GetFragment: assumes that instructions that can be compiled have a size, as undecodable ones do not.
- CoreMemory.Core.SetBreakpoint: RAM addresses only; the code also accepts ROM addresses, whose cache is the system's.
- CoreMemory.Core.ClearBreakpoints: memory holds no breakpoint pseudo instruction of its own.
- CoreMemory.Core.CompileFragment: whether the start is compiled already is a parameter, as compiled functions are not modelled.
- The size of a node's direction table: sixteen entries, where the code sizes the table by the node bits but indexes it by the shifted difference.
- Channel ends other than those of a core as destinations of the packet protocol; switches are modelled apart, peripherals not at all.
- ChannelEnds.Chanends.Update: raising an event instead of waking a thread is not modelled.
- ChannelEnds.Chanends.ReceiveCtrl: the release on CT_END and CT_PAUSE is a separate method, EndPacket, which the output instruction calls next.
- The ring buffer is proved on its own: channel ends keep its contents as a sequence, and its contracts are the sequence operations they use.
- ChannelRuns.RunIsSafe: one thread on each side of a channel end and no events, as events take a thread away from the instruction it is paused on.
- Pointers between channel ends, and between resources and threads, are indices into tables; a channel end's fields are in two records, one for each direction.
- Thread times in the channel protocol: a wake-up is modelled, the time it happens at is not.
- SSwitchDevice.SSwitch.BuildResponse: the registers read or written are parameters, and delivery to the requester is not modelled.
- EventLists.Events.EventEnable: raising an event that is already due is not modelled.
- EventLists.Events.SetInterruptMode: neither is it here.
- EventLists.Events.Clre: the status bits it clears are not modelled.
- EthernetPhy.EthernetPhyRx.ReceiveFrame: does not say what a payload without room for the check sequence overwrites, as that is undefined in C++.
- EthernetPhy.EthernetPhyTx.Run: scheduling on the clock is not modelled.
- MemoryChecks.DroppingIsSound: alignment only; address range and invalidation checks are placed but not modelled.
- Barrier.Synchroniser.Join: when a slave arrives last the code does not advance the master's program counter, so the master executes its join once more, alone; the model counts that as another barrier.
- Barrier.Synchroniser.Cancel: as in the code, a slave's wait flag outlives the cancellation, so a running slave may carry it.
- Looking up the port an argument names.
- Instruction decoding and semantics, code generation, ELF, XE and XML loading, system calls, tracers, network links, displays, UART and SDRAM models, and command-line handling.
