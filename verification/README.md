# PCIe DMA: crossbar, stream FIFO, arbiters and descriptor ring

A Dafny model of the clocked cores of the PCIe DMA design and of the descriptor
ring of its Linux driver, with proofs about every run of them. `dafny verify
dfyconfig.toml` checks the whole project.

Each component has two layers. A class carries the registers (or the driver's
struct fields) and a `Clock` method that updates them as the source does in one
clock edge; its contract equates the new registers with a step of a mathematical
machine: queues instead of memories and pointers, a list of requests in flight
instead of a thread table, a current holder instead of grant and mask vectors. What
the component is for is then proved about that machine, for all parameter values and
all sequences of inputs.

| component | files |
|---|---|
| AXI-Stream FIFO (`axis_fifo.v`) | `StreamFifo`, `OutputFifo`, `FrameMode`, `GapFree`, `MarkMode`, `MarkRecovery`, `FifoProgress`; registers in `FrameMemory`, `AxisFifo`; `Ring` for circular memories |
| Round-robin arbiter (`arbiter.v`, `priority_encoder.v`) | `PriorityEncoder`, `RoundRobin` |
| AXI crossbar (`axi_crossbar_addr.v`, `axi_crossbar_wr.v`, `axi_crossbar_rd.v`) | `AddressMap`, `ThreadTable`, `CrossbarAddr`, `AddressIntake`, `AddressHandoff`, `SameIdOrder`, `WriteRouting`, `CrossbarWr`, `CrossbarProgress`, `IssueLimit`, `ResponseRouting`, `ResponseProgress`; registers in `CrossbarAddr`, `AddressIntake`, `CrossbarPorts` and, wired together, `WriteCrossbar` |
| Channel registers (`axi_register_wr.v`, `axi_register_rd.v`) | `AxiRegister` |
| Tree arbiter (`scalable_arbiter.v`) | `TreeArbiter`, `ScalableArbiter` |
| Read request path (`mrd_req_mux.vhd`, `arbiter_wrapper.vhd`, `FIFO_wc.vhd`) | `MuxPipeline`, `MrdReqMux`, `RequestService`, `FifoCore`; registers in `RequestMux` |
| Driver (`SW/ccons_pci.c`) | `DescriptorRing`, `ScatterGather`; the driver's fields in `ChannelDriver` |

The write crossbar is one system of any number of slave and master interfaces that
are clocked together. `WriteRouting` relates one slave and one master interface and
shows that a clock keeps the relation whatever the other interfaces do;
`CrossbarWr` lifts that to the whole and to a log of everything that passed;
`WriteCrossbar` wires the register classes of all ports together and takes a step of
that system in each clock.

Safety alone would also hold of a design that never takes a beat. `FifoProgress`,
`CrossbarProgress`, `ResponseProgress` and `RequestService` therefore show that what
is accepted also leaves, with a bound on the clocks it takes.

## Where the code falls short of its purpose

Each of these is a lemma with the exact condition or a concrete run.

- With the output FIFO, frame mode can deassert tvalid inside a frame: after a stall
  of the output the half-full flag lets the RAM pipeline refill one clock too late.
  `GapFree.StalledRefillGaps` is a run with the default RAM_PIPELINE = 1. Without
  DROP_OVERSIZE_FRAME a frame that is sent in parts has a gap when its sender pauses
  (`GapFree.OversizeGaps`). In frame mode no run has a gap exactly if oversize frames
  are dropped and there is no output FIFO, or RAM_PIPELINE is not 1, or the memory
  has a single word (`GapFree.NeverGapsExactly`).
- With MARK_WHEN_FULL, a cut frame is closed only in a pause of the input or at the end
  of a later frame of several beats (`MarkRecovery.ClosesExactly`). Single-beat frames
  without a pause are lost for ever, with the memory long empty
  (`MarkRecovery.ShortFramesStarve`).
- The select output that the read request path is built with has five bits
  (`arbiter_wrapper.vhd`), while the multiplexer takes up to 512 channels. In all
  runs every FIFO entry carries the granted channel's own request exactly if there
  are at most 32 channels (`MrdReqMux.PushesOwnExactly`,
  `MrdReqMux.ThirtyTwoChannels`); `MrdReqMux.ForeignPayloadPushed` gives the run.
- The crossbar selects the slave of a response by the ID at the external port, not
  by the ID behind the register at the master side. In a given crossbar responses are
  routed correctly in all runs exactly if that register is a bypass, which is the
  default, or there is only one slave interface
  (`ResponseRouting.RoutesCorrectlyExactly`).
- The limit M_ISSUE of a master interface holds with one slave interface, as the
  design instantiates it (`IssueLimit.OneSlaveKeepsLimit`). With two or more it is
  passed; transactions in flight and an outstanding grant stay within M_ISSUE+1, and
  the in-flight register counts correctly, exactly if M_ISSUE+1 is not a power of two
  (`IssueLimit.ManySlavesExactly`).
- The reply to an address that does not decode is counted as the completion of a
  request. Thread table and total are true to the requests in flight in all runs
  exactly if every address decodes (`AddressIntake.TrackedExactlyIfAllDecode`). One
  such address on an idle interface takes the total below zero, and no request starts
  again as long as every later address decodes
  (`AddressIntake.UndecodableAddressLocksOut`). And if the reply has the ID of a request
  in flight, the next address with this ID may be sent elsewhere while that request is
  under way: the same-ID rule holds in all runs exactly if every address decodes or all
  that decode go to one place (`SameIdOrder.OrderKeptExactly`).
- The default address map aligns downwards. It is free of overlaps exactly if no
  unused slot lies between used ones and the slots before each used one add up to a
  multiple of its size (`AddressMap.DisjointExactlyWhenPacked`).
- Stopping a channel leaves the status words of its descriptors as they are. Every
  later session completes exactly once what was submitted if and only if no slot
  was left done or active (`DescriptorRing.ExactIfNoStaleSlot`), that is, if
  nothing was in the ring when the channel was stopped
  (`DescriptorRing.RestartIsClean`).
- The status word carries the length of a request exactly if that is under 1 GiB
  (`DescriptorRing.LengthArrives`).
- A request longer than its record list gets no last mark
  (`ScatterGather.MarksOfTransfer`).

## Model

| member | source | states |
|---|---|---|
| StreamFifo.ShiftConserves | us_pcie_dma/src/axis_fifo.v:374-398 | One clock of the bubble-collapsing read pipeline, of any length: what leaves plus what stays is what was inside plus what enters, in order |
| StreamFifo.ShiftAt | us_pcie_dma/src/axis_fifo.v:380-397 | The chain of one-place buffers is the source's test on the valid bits: stage j moves exactly if the output takes or some stage from j up is empty |
| OutputFifo.SizingSuffices | us_pcie_dma/src/axis_fifo.v:139 | For every RAM_PIPELINE the derived address width leaves more room than half + RAM_PIPELINE + 2, and is the least one that fits 2*RAM_PIPELINE + 7 words, or three bits |
| OutputFifo.ReadConserves | us_pcie_dma/src/axis_fifo.v:374-398 | Pipeline, output FIFO and output register together neither lose, duplicate nor reorder beats |
| OutputFifo.BoundKept | us_pcie_dma/src/axis_fifo.v:453-478 | A clock keeps output FIFO plus pipeline within half + RAM_PIPELINE + 2, although the half-full flag is one clock late |
| OutputFifo.NeverOverflows | us_pcie_dma/src/axis_fifo.v:453-478 | In every run the output FIFO keeps the bound and is never full, so its write guard never drops a beat |
| OutputFifo.StreamConserved | us_pcie_dma/src/axis_fifo.v:374-398 | Every beat ever committed is emitted, in flight or still in memory, in order |
| FrameMode.VerdictOfFrame | us_pcie_dma/src/axis_fifo.v:270-301 | A frame that ends pulses exactly one of good, bad and overflow; the pulse fits the frame, and its beats are committed exactly if it is good |
| FrameMode.RegistersKept | us_pcie_dma/src/axis_fifo.v:270-307 | Unless it is dropped, the uncommitted words are exactly the frame in progress; while it is dropped there is a reason to |
| FrameMode.WholeFramesInOrderOrNotAtAll | us_pcie_dma/src/axis_fifo.v:270-301 | For every interleaving of writes, stalls and reads the output is a prefix of the frames that pulsed good_frame, whole and in order; every complete frame has exactly one verdict |
| FrameMode.OverflowExactly | us_pcie_dma/src/axis_fifo.v:274-301 | In every run a frame overflows if and only if one of its beats was accepted while the memory held its size in words; otherwise it is bad exactly if bad frames are dropped and its last beat is marked bad, and good in all other cases |
| FrameMode.VerdictsIndependentOfTiming | us_pcie_dma/src/axis_fifo.v:216 | Without DROP_WHEN_FULL stalls and reads have no say in which frames survive |
| GapFree.NoGapInsideFrame | us_pcie_dma/src/axis_fifo.v:374-400 | The half without output FIFO: in frame mode with whole-frame commits, in every run tvalid is not deasserted inside a frame, and a stalled beat stays |
| GapFree.NeverGapsExactly | us_pcie_dma/src/axis_fifo.v:66-67 | In frame mode tvalid is never deasserted within a frame in any run if and only if oversize frames are dropped and there is no output FIFO, or RAM_PIPELINE is not 1, or the memory holds one word |
| GapFree.OversizeGaps | us_pcie_dma/src/axis_fifo.v:290-307 | Without DROP_OVERSIZE_FRAME some run has a gap, for every memory size, RAM_PIPELINE and with or without output FIFO: a frame that fills the memory is sent, and then its sender pauses |
| GapFree.StalledRefillGaps | us_pcie_dma/src/axis_fifo.v:453-478 | With output FIFO, RAM_PIPELINE = 1 and at least two words of memory, after this stall the first beat of a frame of two leaves and the second is not there |
| GapFree.RunSupplied | us_pcie_dma/src/axis_fifo.v:453-490 | In every run with half the output FIFO at least RAM_PIPELINE + 4, a bubble inside a frame is backed by enough beats in the output FIFO |
| GapFree.OutputKeepsUp | us_pcie_dma/src/axis_fifo.v:453-490 | So the output register never runs ahead of the output FIFO inside a frame |
| GapFree.RoomUnlessOne | us_pcie_dma/src/axis_fifo.v:139 | The derived size leaves that room for every RAM_PIPELINE but 1 |
| GapFree.FollowedKept | us_pcie_dma/src/axis_fifo.v:374-398 | The shift keeps the next beat of a frame directly behind a stage that holds a beat that is not its last |
| MarkMode.FramingSurvivesOverflow | us_pcie_dma/src/axis_fifo.v:308-347 | In every run the stored stream parses into whole input frames and cut ones closed by one bad last beat, in input order, with an unclosed prefix at the end; tready is never low |
| MarkMode.WholeExactlyWithRoom | us_pcie_dma/src/axis_fifo.v:308-347 | In every run a frame is stored whole if and only if all its beats came while the memory had room and no mark was pending |
| MarkMode.PulsesExactly | us_pcie_dma/src/axis_fifo.v:312-334 | The last beat of a frame pulses overflow exactly if the frame met a shortage of this kind |
| MarkRecovery.ClosesExactly | us_pcie_dma/src/axis_fifo.v:316-347 | A pending mark is taken back, with one bad last beat, exactly in clocks with room in which the input pauses outside a frame or a dropped frame of several beats ends |
| MarkRecovery.ShortFramesStarve | us_pcie_dma/src/axis_fifo.v:327-334 | A run after which any number of back-to-back single-beat frames is lost, each with an overflow pulse, also after a ready reader has emptied the FIFO |
| MarkMode.ParseKept | us_pcie_dma/src/axis_fifo.v:308-347 | One clock extends the parse by at most one segment; mark_frame holds only while a nonempty proper prefix of a frame is unclosed |
| MarkMode.SegmentCloses | us_pcie_dma/src/axis_fifo.v:223-226 | The word that ends a marked frame is a bad last beat and closes exactly the stored prefix |
| MarkMode.Lossless | us_pcie_dma/src/axis_fifo.v:335-340 | With neither dropping nor marking, what was accepted is what was stored and leaves, in order |
| FifoProgress.ReadyExactly | us_pcie_dma/src/axis_fifo.v:216 | In every run and every mode s_axis_tready is low exactly if the memory holds its size in words, neither DROP_WHEN_FULL nor MARK_WHEN_FULL is set, and it is not all taken by one frame that will be dropped as oversize |
| FifoProgress.Lessens | us_pcie_dma/src/axis_fifo.v:374-490 | With a ready reader every clock brings the beats inside closer to the output |
| FifoProgress.Drains | us_pcie_dma/src/axis_fifo.v:374-490 | In every mode, with a ready reader and nothing more committed, everything committed is out within a given number of clocks |
| FifoProgress.ReadyReturns | us_pcie_dma/src/axis_fifo.v:216 | No deadlock: from every reachable state, with a ready reader and a writer that keeps offering, s_axis_tready is high within a number of clocks fixed by the parameters |
| FrameMemory.Memory.Full | us_pcie_dma/src/axis_fifo.v:198-199 | The pointer comparison with the top bit inverted means that the memory holds its size in words |
| FrameMemory.Memory.FullFrame | us_pcie_dma/src/axis_fifo.v:202-203 | The same for the uncommitted words alone |
| FrameMemory.Memory.Store | us_pcie_dma/src/axis_fifo.v:286-287 | A write appends to the uncommitted words and leaves the committed ones |
| FrameMemory.Memory.Commit | us_pcie_dma/src/axis_fifo.v:296-298 | Moving the commit pointer appends the uncommitted words to the committed ones |
| FrameMemory.Memory.Rollback | us_pcie_dma/src/axis_fifo.v:279-280 | Resetting the write pointer forgets exactly the uncommitted words |
| FrameMemory.Memory.Advance | us_pcie_dma/src/axis_fifo.v:393-397 | Incrementing the read pointer removes the oldest committed word |
| AxisFifo.ShiftStages | us_pcie_dma/src/axis_fifo.v:374-398 | The shift loop over valid bits and data registers is the chain of one-place buffers |
| AxisFifo.Fifo.WriteFrameProcess | us_pcie_dma/src/axis_fifo.v:270-307 | The frame mode write process on pointers and memory moves the queues as the model says |
| AxisFifo.Fifo.WriteStreamProcess | us_pcie_dma/src/axis_fifo.v:308-347 | The same outside frame mode |
| AxisFifo.Fifo.OutputProcess | us_pcie_dma/src/axis_fifo.v:465-490 | The output FIFO process: half-full flag, guarded push, load of the output register |
| AxisFifo.Fifo.Clock | us_pcie_dma/src/axis_fifo.v:260-404 | One clock edge of all registers and memories is one step of the queues, with the same status pulses |
| PriorityEncoder.StageCorrect | us_pcie_dma/src/priority_encoder.v:57-77 | Every pair of every stage encodes the lowest or highest set bit of the inputs below it |
| PriorityEncoder.EncoderFindsLeader | us_pcie_dma/src/priority_encoder.v:45-82 | For every width the encoder reports whether a bit is set and which one leads; padding never wins |
| RoundRobin.NextIsUnique | us_pcie_dma/src/arbiter.v:94-136 | The round-robin relation leaves no choice |
| RoundRobin.NextInTurn | us_pcie_dma/src/arbiter.v:94-136 | A grant stays exactly as the blocking mode says; otherwise it goes to the next requesting port in turn after the last one, upwards or downwards, or to none if none requests |
| RoundRobin.DecisionBringsCloser | us_pcie_dma/src/arbiter.v:114-134 | A decision for another port brings a requesting port strictly closer in scan order |
| RoundRobin.BoundedBypass | us_pcie_dma/src/arbiter.v:94-151 | A port that keeps requesting is passed over in at most PORTS-1 decisions, in both priority settings and all blocking modes |
| RoundRobin.LeaderIsNearest | us_pcie_dma/src/arbiter.v:114-134 | Leader beyond the mask, or else leader of all, is the request nearest after the last grant |
| RoundRobin.Arbiter.Clock | us_pcie_dma/src/arbiter.v:94-151 | Grant, mask and encoder registers move as holder and last grant of the round-robin relation |
| AddressMap.CalcBaseAddrs | us_pcie_dma/src/axi_crossbar_addr.v:119-133 | The loop yields the running base of every used slot and zero for unused ones |
| AddressMap.Range | us_pcie_dma/src/axi_crossbar_addr.v:305 | The shift comparison holds exactly in the range of the slot's size that starts at its base |
| AddressMap.DisjointExactlyWhenPacked | us_pcie_dma/src/axi_crossbar_addr.v:119-133 | A default map that fits the address space has pairwise disjoint slots if and only if the used slots pack |
| AddressMap.NonIncreasingIsDisjoint | us_pcie_dma/src/axi_crossbar_addr.v:119-133 | Nonzero, non-increasing widths that fit the address space give disjoint slots |
| AddressMap.LargerRegionOverlaps | us_pcie_dma/src/axi_crossbar_addr.v:127-128 | Widths 12 and 24 in this order overlap |
| AddressMap.UnusedSlotOverlaps | us_pcie_dma/src/axi_crossbar_addr.v:126-128 | An unused slot between two of width 24 makes them overlap |
| AddressMap.Decode | us_pcie_dma/src/axi_crossbar_addr.v:302-311 | The loops find a slot that is used, whose range contains the address, that is connected and that the access may use, the last one of these; they find none only if there is none; in a disjoint map they find the only one |
| AddressMap.BarDecodes | us_pcie_dma/src/cosn_dma_us_top.v:1232-1246 | In the crossbar behind BAR 0, with any number of interfaces, address a goes to interface a/256 and addresses beyond the last one decode to nothing |
| AddressMap.HitIsUnique | us_pcie_dma/src/axi_crossbar_addr.v:303-311 | In a disjoint map an address hits at most one slot |
| ThreadTable.OneRowStarts | us_pcie_dma/src/axi_crossbar_addr.v:252-256 | An admitted request starts exactly one row: the one with its ID, which leads to the same place, or else a free one |
| ThreadTable.TrackingIsKept | us_pcie_dma/src/axi_crossbar_addr.v:259-274 | A clock with any start and any completion of a request in flight, also of the same ID, keeps the table true to the requests in flight |
| ThreadTable.SameIdSamePlace | us_pcie_dma/src/axi_crossbar_addr.v:254 | Requests in flight with one ID went to one destination and region |
| ThreadTable.CountsSumToFlight | us_pcie_dma/src/axi_crossbar_addr.v:235 | The row counts add up to the number of requests in flight |
| ThreadTable.AdmissionMeaning | us_pcie_dma/src/axi_crossbar_addr.v:315 | The admission test says: all requests in flight with this ID went to the same place, or the ID is new and fewer IDs are in flight than there are rows |
| CrossbarAddr.KeepsTracking | us_pcie_dma/src/axi_crossbar_addr.v:313-322 | A request starts exactly if the requests in flight allow it to go where the address decodes to, it goes where the hand-off registers say, and the total stays the number in flight, at most S_ACCEPT |
| CrossbarAddr.LoadThreads | us_pcie_dma/src/axi_crossbar_addr.v:245-276 | The loop over the rows with its chain of start bits is the table's step |
| CrossbarAddr.Decoder.Clock | us_pcie_dma/src/axi_crossbar_addr.v:279-380 | One clock of the address stage: decode, admission, hand-off registers, thread table and total; the request that starts is the one in the hand-off registers |
| AddressIntake.DecodingRunIsTracked | us_pcie_dma/src/axi_crossbar_addr.v:245-276 | In every run in which all addresses decode the table and the total are true to the requests in flight in every state, no decode error is under way, and the row counts add up to the total |
| AddressIntake.FlightIsUnanswered | us_pcie_dma/src/axi_crossbar_addr.v:245-276 | In every run the requests in flight are the addresses handed off and not yet answered, each with the master interface and region that the hand-off registers showed |
| AddressIntake.DecodingRunKeepsOrder | us_pcie_dma/src/axi_crossbar_addr.v:252-256 | In every run in which all addresses decode, addresses with one ID that are handed off and not yet answered were sent to one master interface and region |
| AddressIntake.SentWhereServed | us_pcie_dma/src/axi_crossbar_addr.v:302-320 | Every address handed off in a run goes to a slot that serves it |
| AddressIntake.StartsExactly | us_pcie_dma/src/axi_crossbar_addr.v:313-322 | An address starts exactly if the stage looks at it, there is room or a completion, and its ID goes to the same place already or is new with fewer IDs in flight than S_THREADS and than S_ACCEPT |
| AddressIntake.ReplyMiscounts | us_pcie_dma/src/axi_crossbar_addr.v:349-374 | From a state with correct counters, the total stays the number in flight exactly if no decode-error reply ends in the clock |
| AddressIntake.UndecodableAddressLocksOut | us_pcie_dma/src/axi_crossbar_addr.v:327-333 | A run from reset with one address that does not decode ends with nothing in flight and the total wrapped; in no continuation whose addresses decode does a request start |
| AddressIntake.NeverStartsAgain | us_pcie_dma/src/axi_crossbar_addr.v:228-229 | From such a locked-out state no request starts however long the run goes on with addresses that decode |
| AddressIntake.TrackedExactlyIfAllDecode | us_pcie_dma/src/axi_crossbar_addr.v:349-374 | The counters are true to the requests in flight in all runs if and only if every address of the space decodes |
| AddressHandoff.StageMoves | us_pcie_dma/src/axi_crossbar_addr.v:297-347 | On either side the stage is busy exactly while address, write command or report is still to be handed off; each offer stays with its place until it is taken; the address is accepted in the clock after its last hand-off |
| AddressHandoff.EachAddressOnce | us_pcie_dma/src/axi_crossbar_addr.v:297-374 | In every run each address is handed off once if it decodes and reported once if not, gives one write command on the write side and none on the read side, and is accepted once; each report is answered by as many beats as were asked for, one for a write; completions are the responses and the last beats of answers |
| AddressHandoff.AnswersInOrder | us_pcie_dma/src/axi_crossbar_rd.v:285-325 | In every run with addresses held until accepted, the replies carry the IDs of the addresses that did not decode, in order |
| SameIdOrder.ReplyBreaksOrder | us_pcie_dma/src/axi_crossbar_rd.v:372-373 | For any two addresses that decode to different places and one that does not decode, a run in which the second is sent off with the ID of the first while that is under way |
| SameIdOrder.OrderKeptExactly | us_pcie_dma/src/axi_crossbar_addr.v:254 | The same-ID rule holds in all runs if and only if every address decodes or all that decode go to one place |
| AddressIntake.Intake.LoadReply | us_pcie_dma/src/axi_crossbar_rd.v:285-325 | The decode-error register takes ID and length, counts its beats down and empties after the last; on the write side it has one beat |
| AddressIntake.Intake.Clock | us_pcie_dma/src/axi_crossbar_wr.v:352-421 | One clock of address stage and decode-error reply, whose last beat completes like a response |
| WriteRouting.GrantOutcome | us_pcie_dma/src/axi_crossbar_wr.v:558-559 | A new address grant goes to a slave that asks, only while no route is in use and the last grant is acknowledged |
| WriteRouting.BeatTakenIffDelivered | us_pcie_dma/src/axi_crossbar_wr.v:344-346 | For interfaces that agree a beat leaves the slave exactly if it reaches the master, also in the gap clock in which w_select_valid is low |
| WriteRouting.PairKept | us_pcie_dma/src/axi_crossbar_wr.v:314-346 | A clock keeps a slave and a master interface in agreement, whatever all others do |
| CrossbarWr.TakenIffDelivered | us_pcie_dma/src/axi_crossbar_wr.v:555-572 | In the whole system a beat leaves a slave towards a master in exactly the clocks in which one of its beats leaves there, and it belongs to the address granted last |
| CrossbarWr.InvKept | us_pcie_dma/src/axi_crossbar_wr.v:314-346 | One clock of all interfaces keeps all of the above together with the log |
| CrossbarWr.BurstsLeaveInGrantOrder | us_pcie_dma/src/axi_crossbar_wr.v:574-597 | In every run the k-th write burst out of a master interface is, contiguously through wlast, the burst of the k-th address granted there; addresses leave in the same order, and none is granted twice |
| CrossbarWr.NothingLostOrInvented | us_pcie_dma/src/axi_crossbar_wr.v:344-346 | In every run the beats a slave sent for a master are exactly its beats that left there, in order; each slave's bursts go where its addresses went |
| CrossbarProgress.NoWorse | us_pcie_dma/src/axi_crossbar_wr.v:314-346 | No clock without a new address adds to the work a slave interface has left |
| CrossbarProgress.SomethingAdvances | us_pcie_dma/src/axi_crossbar_wr.v:314-346 | No deadlock: in every state with work left and a willing environment some slave interface gets a step further or a beat leaves, whoever waits for whom |
| CrossbarProgress.EverythingLeaves | us_pcie_dma/src/axi_crossbar_wr.v:494-597 | From any state of any run, six willing clocks per slave interface, not counting those with a beat from the middle of a burst, bring the crossbar to rest |
| CrossbarProgress.RestIsDone | us_pcie_dma/src/axi_crossbar_wr.v:494-597 | At rest all addresses admitted were granted where they went and have left, and all their bursts were sent to the last beat |
| CrossbarPorts.SlavePort.Clock | us_pcie_dma/src/axi_crossbar_wr.v:314-346 | One clock of the slave-side registers with address stage and reply, also for addresses that do not decode, whose data is taken and dropped; while all decode it is a step of WriteRouting |
| CrossbarPorts.StageIsSlave | us_pcie_dma/src/axi_crossbar_addr.v:297-347 | Without decode errors the address stage moves as the write routing assumes |
| CrossbarPorts.IntakeIsSlave | us_pcie_dma/src/axi_crossbar_addr.v:297-347 | So do the address stage with its reply register and the select registers together, and no decode error comes up |
| CrossbarPorts.MasterPort.Clock | us_pcie_dma/src/axi_crossbar_wr.v:494-597 | The master-side registers take one step of WriteRouting, and the in-flight register counts starts and completions |
| CrossbarPorts.ReadMasterPort.Clock | us_pcie_dma/src/axi_crossbar_rd.v:434-498 | The read side: arbitration under the limit that the register shows, and the in-flight register |
| CrossbarPorts.ReadResponsePort.Clock | us_pcie_dma/src/axi_crossbar_rd.v:328-369 | The response arbiter moves on exactly the requests and acknowledges of the response wires |
| WriteCrossbar.PortsTakeStep | us_pcie_dma/src/axi_crossbar_wr.v:314-346 | Ports that are clocked on the wires of one state make one step of the system together |
| WriteCrossbar.Crossbar.Wires | us_pcie_dma/src/axi_crossbar_wr.v:344-346 | The ready, request and last-beat wires between all ports, from the state before the clock |
| WriteCrossbar.Crossbar.constructor | us_pcie_dma/src/axi_crossbar_wr.v:494-515 | Any number of ports in reset is the start of a run of CrossbarWr |
| WriteCrossbar.Crossbar.Clock | us_pcie_dma/src/axi_crossbar_wr.v:494-597 | While every address decodes, one clock of all registers of all ports is a step of the system whose runs CrossbarWr is about |
| IssueLimit.RunWithin | us_pcie_dma/src/axi_crossbar_rd.v:434-451 | In every run of arbiter, register and slaves whose limit is read from the register, if the register can hold the most that can be outstanding, it equals the number in flight, and that with an outstanding grant stays within M_ISSUE, or M_ISSUE+1 with several slaves |
| IssueLimit.LimitIsPassed | us_pcie_dma/src/axi_crossbar_rd.v:491-498 | With two or more slaves a run of arbiter steps, on either side, has M_ISSUE+1 transactions in flight |
| IssueLimit.WrappedRegisterGrants | us_pcie_dma/src/axi_crossbar_rd.v:437-439 | If M_ISSUE+1 is a power of two that run goes on with the register at zero and yet another grant |
| IssueLimit.OneSlaveKeepsLimit | us_pcie_dma/src/axi_crossbar_rd.v:491-498 | With one slave, transactions in flight plus an outstanding grant never exceed M_ISSUE in any run, and the register is always exact |
| IssueLimit.ManySlavesExactly | us_pcie_dma/src/axi_crossbar_wr.v:494-562 | With two or more slaves the bound M_ISSUE fails; the bound M_ISSUE+1 holds in all runs, and likewise the register is exact in all runs, if and only if M_ISSUE+1 is not a power of two |
| IssueLimit.GrantedUnlessFull | us_pcie_dma/src/axi_crossbar_rd.v:437-498 | A free interface that is asked for is granted unless the register shows M_ISSUE transactions and none completes |
| IssueLimit.GrantMoves | us_pcie_dma/src/axi_crossbar_wr.v:555-562 | On both sides a grant stays until its address is taken, and a new one is given only below the limit and never to the slave that held the last |
| IssueLimit.AddressStageAsks | us_pcie_dma/src/axi_crossbar_addr.v:337-344 | The address stage holds an address until it is taken and then offers none for two clocks, as the runs assume of the slaves |
| ResponseRouting.PrefixRoundTrip | us_pcie_dma/src/axi_crossbar_rd.v:477 | Putting the slave index on top of the ID and taking it off again gives back both |
| ResponseRouting.GetsWhatIsConsumed | us_pcie_dma/src/axi_crossbar_rd.v:352-362 | With a bypass or a single slave, a slave receives exactly the beats that are taken for it, though its multiplexer does not look at the selection |
| ResponseRouting.GrantEngagesKept | us_pcie_dma/src/axi_crossbar_rd.v:363-366 | A granted master interface stays engaged with the slave that holds the grant until the last beat |
| ResponseRouting.DirectRoutes | us_pcie_dma/src/axi_crossbar_rd.v:477-506 | With a bypass or a single slave, and targets that do not interleave, in every run each slave has received exactly its own beats of each target, in order, with its own IDs, and its bursts unmixed |
| ResponseRouting.RegisterMisroutes | us_pcie_dma/src/axi_crossbar_rd.v:501-504 | With a register and any two or more slaves a concrete run hands a beat of slave 0 to slave 1 |
| ResponseRouting.RoutesCorrectlyExactly | us_pcie_dma/src/axi_crossbar_rd.v:500-504 | For every configuration, routing is correct in all its runs if and only if the register is a bypass or there is one slave interface |
| ResponseRouting.VectorsAgree | us_pcie_dma/src/axi_crossbar_rd.v:363-366 | The vectors of the response port class are those of the system |
| ResponseProgress.SomethingMoves | us_pcie_dma/src/axi_crossbar_rd.v:352-369 | While a target has a beat left and all are willing, every clock takes a beat or grants a response |
| ResponseProgress.EverythingArrives | us_pcie_dma/src/axi_crossbar_rd.v:477-506 | With a bypass or a single slave, after three willing clocks per beat every slave has all of its beats of every target, in order and with its own IDs |
| AxiRegister.RegisterIsQueue | us_pcie_dma/src/axi_register_wr.v:396-457 | Skid buffer and simple register are queues of two and one words; an offered word is stable; after every clock the register is ready exactly if it has room |
| AxiRegister.RunConserves | us_pcie_dma/src/axi_register_wr.v:396-515 | No loss, duplication or reordering over any run, and from the first clock on ready is low exactly while all places are taken |
| AxiRegister.FillsAhead | us_pcie_dma/src/axi_register_wr.v:396-457 | Ahead of a sink that takes nothing the register fills all its places and hands over nothing |
| AxiRegister.Register.Clock | us_pcie_dma/src/axi_register_rd.v:384-448 | The control signals and registers take one step of the model |
| TreeArbiter.GrantIsExclusive | us_pcie_dma/src/scalable_arbiter.v:309-346 | A leaf is granted if and only if the arbiter is enabled, the leaf requests and the node states point at it |
| TreeArbiter.GrantIsKept | us_pcie_dma/src/scalable_arbiter.v:398-462 | A granted leaf keeps the grant as long as its request stays up, whatever the others do |
| TreeArbiter.OneClockSettlesWires | us_pcie_dma/src/scalable_arbiter.v:426-453 | One clock after the requests settle every request wire, at every level, says whether a leaf below requests |
| TreeArbiter.TwoClocksSettlePath | us_pcie_dma/src/scalable_arbiter.v:426-453 | After two clocks the node states lead from every node to a requesting leaf, if there is one below |
| TreeArbiter.GrantedFromSecondClock | us_pcie_dma/src/scalable_arbiter.v:172-176 | For every size and all initial node states, from the second clock on one and the same requesting leaf is granted and no other |
| TreeArbiter.SelectIsIndex | us_pcie_dma/src/scalable_arbiter.v:326-346 | The select network delivers the binary index of that leaf |
| ScalableArbiter.Rise | us_pcie_dma/src/scalable_arbiter.v:309-346 | The stages from the leaves up settle all request wires and the select multiplexers |
| ScalableArbiter.Fall | us_pcie_dma/src/scalable_arbiter.v:309-323 | From the root down the grant wires settle |
| ScalableArbiter.Arbiter.Clock | us_pcie_dma/src/scalable_arbiter.v:286-300 | One clock of node states and output registers |
| ScalableArbiter.ThreeClocks | us_pcie_dma/src/scalable_arbiter.v:172-176 | With requests held, the third clock shows exactly one requesting leaf on the registered grant, and its index on select |
| FifoCore.ClockMovesQueue | us_pcie_dma/src/FIFO_wc.vhd:80-165 | Memory, read pointer and word count move as a queue of 2^L-1 words, also for a write while full and a write with a read |
| FifoCore.RunConserves | us_pcie_dma/src/FIFO_wc.vhd:122-160 | No loss, duplication or reordering over any run |
| FifoCore.Fifo.Clock | us_pcie_dma/src/FIFO_wc.vhd:80-160 | One clock, with read data and its flag one clock after the read enable |
| MuxPipeline.Shift | us_pcie_dma/src/mrd_req_mux.vhd:255-342 | The clocked levels, each a loop over pairs of words, as one step of all stages |
| MuxPipeline.WordMoves | us_pcie_dma/src/mrd_req_mux.vhd:264-342 | A word on the path of the index moves one stage along it |
| MuxPipeline.OutputIsInput | us_pcie_dma/src/mrd_req_mux.vhd:248-347 | If the index stays at c in the nine clocks after clock t, ten clocks after t the output is input word c of clock t |
| MrdReqMux.NextGrant | us_pcie_dma/src/arbiter_wrapper.vhd:105-149 | The registered grant is empty or names one requesting channel, at which the tree keeps pointing |
| MrdReqMux.PhaseMoves | us_pcie_dma/src/mrd_req_mux.vhd:167-347 | At most one request is in the path, and each clock takes it to its next phase; its index is stable meanwhile |
| MrdReqMux.Events | us_pcie_dma/src/mrd_req_mux.vhd:226-245 | Grant rise, FIFO write, hand-over and acknowledge happen in one phase each, with that request's data |
| MrdReqMux.OneEntryPerGrant | us_pcie_dma/src/mrd_req_mux.vhd:226-347 | In every run of channels that hold their requests each grant rise gives exactly one FIFO entry, in order; what is transmitted and acknowledged follows; the FIFO holds at most one word |
| MrdReqMux.EveryRiseIsPushed | us_pcie_dma/src/mrd_req_mux.vhd:226-347 | The entry of a grant that rises in clock k is written to the FIFO in clock k+10, when write enable and multiplexer output meet, and nothing else is written from k on |
| RequestService.HeldRequestIsGranted | us_pcie_dma/src/arbiter_wrapper.vhd:105-149 | Requests that are held for three clocks while the path is free bring a grant by then |
| RequestService.RiseIsSent | us_pcie_dma/src/mrd_req_mux.vhd:226-347 | The entry of a grant that rises in clock k is offered to the transmitter in clock k+14, and nothing is offered before |
| RequestService.RiseIsAcked | us_pcie_dma/src/mrd_req_mux.vhd:226-245 | It is offered until the transmitter is done, and then exactly the channel of that grant is acknowledged |
| MrdReqMux.SelectableChannelsPushOwn | us_pcie_dma/src/mrd_req_mux.vhd:226-347 | If the select output can name every channel, in every run each word written carries grant bit and payload of the channel that rose |
| MrdReqMux.ForeignPayloadPushed | us_pcie_dma/src/arbiter_wrapper.vhd:35 | For every channel that it cannot name, a run in which its grant rises and another channel's payload is written |
| MrdReqMux.PushesOwnExactly | us_pcie_dma/src/arbiter_wrapper.vhd:35 | Every word written in every run is the granted channel's own if and only if the select output can name all channels |
| MrdReqMux.ThirtyTwoChannels | us_pcie_dma/src/mrd_req_mux.vhd:127-138 | As built, that holds of all runs if and only if there are at most 32 channels |
| RequestMux.RoundedToPow2 | us_pcie_dma/src/arbiter_wrapper.vhd:53-63 | The doubling loop gives a power of two that covers all channels |
| RequestMux.Mux.Clock | us_pcie_dma/src/mrd_req_mux.vhd:167-347 | One clock of arbiter, pipeline, FIFO and transmitter registers is one step of the model |
| DescriptorRing.SubmitAppends | SW/ccons_pci.c:994-1100 | A submission appends to the queue of requests, or changes nothing when all descriptors are taken |
| DescriptorRing.LengthArrives | SW/ccons_pci.c:1004-1014 | The status word carries the length of a request if and only if that is at least 0 and under 2^30 |
| DescriptorRing.ReapDrops | SW/ccons_pci.c:2217-2251 | Reaping that stays between head and tail removes from the front of the queue |
| DescriptorRing.DoneRunIsMaximal | SW/ccons_pci.c:2217 | The reaping loop takes exactly the maximal run of done descriptors |
| DescriptorRing.SessionKeepsInv | SW/ccons_pci.c:2189-2259 | Any sequence of submissions, hardware steps, reaping and start keeps the ring: done requests first, then waiting ones, all else idle; the hardware is at the first waiting slot; an inactive channel has its head at slot 0 |
| DescriptorRing.StopCompletesAll | SW/ccons_pci.c:1483-1514 | After the stop each request was completed exactly once, in order, done ones first and then stopped ones |
| DescriptorRing.RestartIsClean | SW/ccons_pci.c:1426-1441 | Stopping leaves no stale slot if and only if nothing was in the ring |
| DescriptorRing.StaleSlotBreaks | SW/ccons_pci.c:1426-1441 | A concrete session over a stale slot completes more requests than were submitted |
| DescriptorRing.ExactIfNoStaleSlot | SW/ccons_pci.c:2189-2259 | All sessions of a channel are exact if and only if no slot is done or active at its start |
| ChannelDriver.Channel.StartIo | SW/ccons_pci.c:987-1135 | Queues exactly if the ring is not full; the status word in the tail slot is the length modulo 2^30 over the two flag bits, active and not done; new ring, counter and records |
| ChannelDriver.Channel.HandleCompletion | SW/ccons_pci.c:2189-2259 | The loop terminates on any status words, completes the maximal done run from the head and gives its slots back |
| ChannelDriver.Channel.FlushDescList | SW/ccons_pci.c:1426-1441 | Completes all requests in the ring as stopped, in order, and returns to slot 0 |
| ChannelDriver.Channel.StopChannel | SW/ccons_pci.c:1483-1514 | Leaves the channel inactive and empty with everything completed |
| ScatterGather.CutAllCovers | SW/ccons_pci.c:1892-1918 | The records cover exactly the bytes of the segments, in order, one record per page |
| ScatterGather.PagesFit | SW/ccons_pci.c:1976-1987 | The allocated number of records suffices for any segments within the buffer |
| ScatterGather.EveryRecordNeeded | SW/ccons_pci.c:1976-1987 | Segments that make up the whole buffer take every record allocated, so none is spare |
| ScatterGather.LockedBuffer.Map | SW/ccons_pci.c:1892-1918 | The nested loops write these records and touch no others |
| ScatterGather.TransferCovers | SW/ccons_pci.c:1018-1037 | A request that fits is laid over exactly its first req_len bytes, in ceil(req_len/PAGE_SIZE) records |
| ScatterGather.NothingToTransfer | SW/ccons_pci.c:1018-1037 | A request of length 0 gets one empty record marked first and last, a negative one a full page |
| ScatterGather.MarksOfTransfer | SW/ccons_pci.c:1018-1068 | The first record is marked first; exactly the final one is marked last, if and only if the records can hold the request |
| ScatterGather.MarkRecords | SW/ccons_pci.c:1018-1068 | The record loop of start_io, for every request length |
| ScatterGather.LockedBuffer.Mark | SW/ccons_pci.c:1018-1082 | After any earlier requests, the records of a request cover the first req_len bytes of the mapped segments |

## Left out

- Resets: every model starts in the reset state and is not reset later.
- Payload: tdata, tkeep, tid, tdest and the other sideband signals are one opaque value; the bad-frame test on tuser is one flag of a beat. Widths of data paths are not modelled.
- Stream FIFO: the pause logic behind `m_axis_tready_out` and the status_depth outputs. The depth of the model is the number of memory words, 2^ADDR_WIDTH.
- Frame mode without DROP_OVERSIZE_FRAME (send_frame): modelled in the FIFO's clock and proved lossless; of its framing only OversizeGaps is stated, because such frames may leave in parts.
- Arbiter TYPE "PRIORITY": the crossbar uses only the round-robin type.
- CrossbarWr.NothingLostOrInvented: and the other log theorems of the write crossbar are about runs in which every address decodes. The registers themselves, with dropped data and the reply, are clocked in all cases by `AddressIntake` and `CrossbarPorts.SlavePort`.
- WriteCrossbar.Crossbar.Clock: says nothing of a clock in which a decode error is under way at some interface; `CrossbarPorts.SlavePort.Clock` covers such an interface alone.
- ResponseProgress.EverythingArrives: assumes that a target ends every burst it begins and, like ResponseRouting.DirectRoutes, that it does not interleave bursts.
- CrossbarProgress.EverythingLeaves: is about runs in which every address decodes and no master interface has reached its transaction limit.
- Write responses: the response arbiter of the write side acknowledges every beat; it is the read side with every beat a last one, and has no class of its own.
- Response routing: the decode-error port of the response arbiters never requests; the handover of the reply to the slave is an input of AddressIntake.
- AddressIntake.DecodingRunIsTracked: responses are inputs that name a request in flight, as AXI demands of the targets; they are not composed with the runs of ResponseRouting.
- AddressIntake.UndecodableAddressLocksOut: continuations in which a further address does not decode are not covered, because each such reply takes the total down once more.
- IssueLimit.RunWithin: M_ISSUE is at least 1, and only a transaction in flight completes.
- AddressMap.DisjointExactlyWhenPacked: for maps whose total fits the address space; base addresses given explicitly instead of computed ones are not constrained.
- AddressMap.CalcBaseAddrs: exponents are exact; a width equal to ADDR_WIDTH in a slot other than the first, where the source divides by an overflowed power, is not covered.
- Registers on the slave side of the crossbar: they are the queues of AxiRegister and are not inserted into the crossbar systems, which are stated at the internal signals.
- Read request path: a channel that withdraws its request before the acknowledge (a flush in `mrd_requestor.vhd`) breaks the assumption of OneEntryPerGrant. The transmitter reports done only while a request is offered.
- Read request path: the capture of the payload is opaque; length, address and tag are one value.
- ScatterGather: the flags in the low bits of address_low are modelled by remainders, DMA addresses are page aligned 64-bit numbers as the kernel maps them, and a page has 4096 bytes.
- Driver: the mutex is the atomicity of the methods; `start_channel`, which takes no lock in the source, is atomic here. Descriptor fields other than the status word, completion callbacks, timestamps and the message header copied for debugging are not modelled. For a full ring `start_io` returns an uninitialised value in the source; the model only says that nothing was queued.
- Hardware: it visits descriptors in ring order from slot 0 and leaves a status word with the done bit; what else it writes there is free.
- The remaining design (`c2s_sg_bm.vhd`, `mrd_comp_dispatcher.vhd`, `mwr_req_mux.vhd`, the packet formatters, register files and the user-space API): easier members or behaviour that depends on parts not present.
