# A switch of delta-cycle FIFOs and the kernel queues under it

The system is a SystemC model of a network on chip: n traffic generators hand packets
to n routers over a four-phase handshake; router i writes a packet with address j into
FIFO (i, j); arbiter j drains its n FIFOs onto output j, in one of five modes that may
change at every decision. It runs on the SystemC library that ships with it: channels
whose readers and writers see a snapshot until the update phase, and a scheduler that
keeps its runnable processes on intrusive linked lists.

The project models that system and proves what it promises over whole runs.

* `DeltaFifo.dfy`: `sc_fifo`, as a value split into readable and not yet visible parts
  and as the ring buffer that refines it.
* `Lfsr.dfy`, `Arbitration.dfy`: the arbiter's registers and decisions as values, with
  the 32-bit wrap-around, the truncating `%` and the `char` conversions written out.
* `Arbiter.dfy`: the arbiter object, whose threads update its registers in place; every
  turn refines a step of the column below.
* `Column.dfy`, `Service.dfy`: one arbiter with its FIFOs as a step system over the
  scheduler's phases (section 4.2.1 of IEEE 1666-2011), its invariant, and what it
  guarantees over runs, for every interleaving and every sequence of modes.
* `ArrivalOrder.dfy`, `Delay.dfy`: what FIFO mode adds, and how long packets stay in a FIFO.
* `Handshake.dfy`, `Endpoints.dfy`: a generator and its router with the signals between
  them, as a step system and as objects. An edge that finds nobody waiting is counted as
  lost, so that "no edge is lost" is a theorem rather than an assumption.
* `Noc.dfy`, `Latency.dfy`, `Progress.dfy`: the whole network; every output projects to a
  column run, packets are delivered in bounded time, and time always goes on.
* `Wiring.dfy`: the constructor's binding loops and the index of the flat FIFO array.
* `Generators.dfy`, `Bursts.dfy`: burst counters and address selection; the counters coupled
  with the handshake.
* `RunQueue.dfy`, `TimedList.dfy`: the kernel's run queues and the payload event queue
  as linked structures in the heap, each refining sequences.
* `Sequences.dfy`, `Lists.dfy`, `Division.dfy`: supporting facts.

A step system's label is one activation of one process, so a run is any order the
scheduler may choose. `Runs` follows a label only from a well-shaped state; the
preservation lemmas show that no allowed label ever leaves one, and `Progress.NeverStuck`
that some label is always allowed. History fields (`queue`, `logged`, `emitted`,
`accepted`, `sent`, `taken`, `takenAt`, `lost`, `starts`, `seen`, `resets`, `wrapped`) are read
by no process.

What the code needs of its surroundings, and where each need appears: at most 128 FIFOs
per arbiter (`MAX_FIFOS`; exact, see `LruSafeExactlyUpTo128`); as many inputs as outputs
(exact, see `Construct`); FIFO depth at least 1; addresses below the number of outputs
(what `AddressesInRange` gives when the range is configured so); at most one write to a
FIFO per evaluation phase, which a router gives (`ColumnStep`) and without which the
arrival log falls behind (`TwoWritesLogOnce`). FIFO mode keeps arrival order from the moment
it is set if and only if the service then under way is of the oldest packet or never completes
(`FifoModeKeepsArrivalOrder`); a change from another mode can leave it otherwise
(`OvertakingIsReachable`).

Where the project report and the code differ, the model follows the code. The report
(rapport/architecture.tex) says a default value is written to the output when every FIFO
is empty; `process` writes nothing then. It calls the third burst parameter the number of
packets of a burst; `generate` compares it with a clock count and each handshake takes three
posedges, so a burst in whose way nothing stands holds the smaller of
ceil(burst_length / short_period) and ceil((burst_length - c) / 3) packets, c being the clock
count that its first turn sees (`UnobstructedBurst`). It places a new log entry after as many entries
as the FIFOs hold packets; the code appends it one delta cycle after the write, behind the
entries already logged.

## Model

| member | source | states |
|---|---|---|
| DeltaFifo.ScFifo.constructor | 3rd_party/systemc-2.3.0/include/sysc/communication/sc_fifo.h:359-388 | a new channel is empty, nothing readable, with every index and counter invariant |
| DeltaFifo.ScFifo.NbRead | 3rd_party/systemc-2.3.0/include/sysc/communication/sc_fifo.h:218-255 | succeeds exactly when the snapshot has something available, then returns the oldest element and drops it; the write index and free count stay tied to the read index and the counters |
| DeltaFifo.ScFifo.NbWrite | 3rd_party/systemc-2.3.0/include/sysc/communication/sc_fifo.h:260-287 | succeeds exactly when the snapshot has space, then appends; the ignored result of buf_write is always true |
| DeltaFifo.ScFifo.BufRead | 3rd_party/systemc-2.3.0/include/sysc/communication/sc_fifo.h:404-417 | the ring loses its oldest element and the index equation survives |
| DeltaFifo.ScFifo.BufWrite | 3rd_party/systemc-2.3.0/include/sysc/communication/sc_fifo.h:390-402 | the ring gains one newest element and the index equation survives |
| DeltaFifo.ScFifo.Update | 3rd_party/systemc-2.3.0/include/sysc/communication/sc_fifo.h:338-354 | everything buffered becomes readable; each delta event is notified exactly if its side acted |
| DeltaFifo.PhaseOutcome | 3rd_party/systemc-2.3.0/include/sysc/communication/sc_fifo.h:96-116 | the answers both sides get in an evaluation phase, and the final state, depend only on how many reads there were and which values were written |
| DeltaFifo.PhaseOrderIrrelevant | 3rd_party/systemc-2.3.0/include/sysc/communication/sc_fifo.h:216-287 | any two interleavings of the same reads and writes in one evaluation phase give the same answers and the same channel |
| Lfsr.StepKeepsAlive | src/arbiter.cpp:54-58 | update_rand never empties the 17 bits its taps span, though its feedback may be -1 and the shift wraps |
| Lfsr.NeverZero | src/arbiter.cpp:11-58 | after any number of services the register's low 17 bits, hence the register, are not zero |
| Lfsr.NextWraps | src/arbiter.cpp:54-58 | wrapping every intermediate sum and shift of update_rand at 32 bits changes nothing, as the sum fed back always fits |
| Lfsr.ByteIsBits | src/arbiter.cpp:15-27 | the random byte is the number spelled by every fourth bit, negated modulo 256 when the register is negative |
| Lfsr.ByteInFull | src/arbiter.cpp:15-27 | the byte spelled out: bits 0, 4, ... 28 of the register with weights 1 to 128, negated modulo 256 for a negative register |
| Arbitration.ChoiceIsWorkConserving | src/arbiter.cpp:15-167 | each mode declines exactly when every FIFO is empty and never picks an empty one, and an unknown mode picks nothing; FIFO mode needs the log to name exactly the non-empty FIFOs |
| Arbitration.ScanChoice | src/arbiter.cpp:67-76 | a scan over all FIFOs returns the non-empty one that comes first in scan order |
| Arbitration.FixedPicksLowest | src/arbiter.cpp:137-149 | FIXED mode picks the lowest-numbered non-empty FIFO |
| Arbitration.RotationIsPermutation | src/arbiter.cpp:158-171 | the round-robin scan visits every FIFO once, each after as many others as it is turns away |
| Arbitration.RoundRobinPicksNext | src/arbiter.cpp:158-171 | ROUNDROBIN picks a non-empty FIFO, and every FIFO between the last served one and it, going round, is empty |
| Arbitration.RandChoice | src/arbiter.cpp:15-51 | RAND picks, from the increasing list of non-empty FIFOs, the entry at b modulo its length, b being the eight sampled bits of the register, negated modulo 256 if it is negative |
| Arbitration.NearUniform | src/arbiter.cpp:15-51 | with k non-empty FIFOs each is picked by floor(256/k) byte values, plus one for the first 256 mod k |
| Arbitration.MoveToBack | src/arbiter.cpp:79-94 | up to 128 FIFOs, update_lru moves the served FIFO to the back and keeps a permutation |
| Arbitration.LruSafeExactlyUpTo128 | src/arbiter.cpp:79-94 | update_lru keeps every permutation of n FIFO numbers, for every served FIFO, if and only if n is at most 128; and so for the lists that services produce from the initial one |
| Arbitration.ServeKeepsRecency | src/arbiter.cpp:79-94 | a service keeps the list sorted by time of last service, never-served first in index order |
| Arbitration.LruPicksStalest | src/arbiter.cpp:67-76 | choose_lru returns the non-empty FIFO that has gone longest without service |
| Arbitration.FairChoice | src/arbiter.cpp:67-167 | LRU and ROUNDROBIN pick a FIFO closer to its turn than any other non-empty one |
| Arbitration.WaitShrinks | src/arbiter.cpp:79-171 | serving another FIFO that was ahead brings a FIFO strictly closer to its turn |
| ArbiterModule.ShiftOut | src/arbiter.cpp:110-121 | the in-place shift removes exactly the first occurrence among the live entries, or changes nothing |
| ArbiterModule.Arbiter.constructor | src/arbiter.cpp:249-273 | a new arbiter, its ports bound to new channels, represents the start state, with a log of 2·n·depth entries |
| ArbiterModule.Arbiter.UpdateRand | src/arbiter.cpp:54-58 | the register after one service, computed with its intermediate wrap-arounds |
| ArbiterModule.Arbiter.UpdateLru | src/arbiter.cpp:79-94 | the in-place loop computes the recency update |
| ArbiterModule.Arbiter.UpdateFifo | src/arbiter.cpp:110-123 | the in-place loop and the decrement compute the log update, the unconditional decrement included |
| ArbiterModule.Arbiter.Update | src/arbiter.cpp:226-232 | all four registers after a service, whatever the mode |
| ArbiterModule.Arbiter.PickReady | src/arbiter.cpp:37-50 | the second pass returns the chosen non-empty FIFO and its closing assertion is unreachable |
| ArbiterModule.Arbiter.ChooseRand | src/arbiter.cpp:15-51 | the loops compute the random decision |
| ArbiterModule.Arbiter.ChooseLru | src/arbiter.cpp:67-76 | the loop computes the first non-empty FIFO in recency order |
| ArbiterModule.Arbiter.ChooseFifo | src/arbiter.cpp:103-107 | the oldest log entry, or 255 as the uint8_t of -1 |
| ArbiterModule.Arbiter.ChooseFixed | src/arbiter.cpp:137-149 | the loop computes the first non-empty FIFO in index order |
| ArbiterModule.Arbiter.ChooseRoundRobin | src/arbiter.cpp:158-167 | the loop computes the first non-empty FIFO in rotation order |
| ArbiterModule.Arbiter.PushedInFifo | src/arbiter.cpp:126-132 | logs the FIFO number, or throws, or fails its assertion, each exactly when the register is that full |
| ArbiterModule.Arbiter.RunPushedInFifo | src/arbiter.cpp:235-246 | in every state satisfying the invariant it logs, and refines the column's step |
| ArbiterModule.Arbiter.ProcessChoice | src/arbiter.cpp:176-211 | the deciding turn of process refines the column's step |
| ArbiterModule.Arbiter.ProcessRead | src/arbiter.cpp:213-223 | the serving turn finds its FIFO non-empty, writes its head to the output and refines the column's step |
| Columns.StartInv | src/arbiter.cpp:249-293 | the start state, which `ArbiterModule.Arbiter.constructor` builds, satisfies the invariant |
| Columns.StepKeepsInv | src/arbiter.cpp:110-246 | every activation of every process keeps the invariant: one queue, registers determined by the services, exact flow, no fault |
| Columns.RunKeepsInv | src/arbiter.cpp:176-246 | so does every run |
| Columns.ChoiceIsReadable | src/arbiter.cpp:176-208 | at every posedge of a run each mode declines exactly if all FIFOs have nothing available, and what it picks stays readable |
| Columns.LogFits | src/arbiter.cpp:126-132 | the log never exceeds the FIFOs' total occupancy, hence n times the depth, with room for every arrival still to be logged |
| Columns.ReadFinds | 3rd_party/systemc-2.3.0/include/sysc/communication/sc_fifo.h:218-229 | when a chosen FIFO is read it is not empty and the log has an entry for it |
| Columns.TwoWritesLogOnce | src/arbiter.cpp:235-246 | two writes to a FIFO in one evaluation phase would leave an arrival unlogged, so the one-write guard is needed |
| Columns.FailuresAreSeen | src/arbiter.cpp:110-132 | in any state whatever, what the step system records as failures: a read of an empty FIFO, a service with nothing logged, a log left without room to spare |
| Service.AlwaysOneQueue | src/arbiter.cpp:110-246 | in every reachable state the log is the sources of one queue, each FIFO's logged contents are its packets of that source, the registers are a function of the service history, and no packet is lost, duplicated or reordered |
| Service.NeverFails | src/arbiter.cpp:126-221 | in no run does a read block, the log overflow, its assertion fail or its count underflow |
| Service.LruPicksLongestUnserved | src/arbiter.cpp:63-94 | in every reachable state, whatever modes did the serving, LRU picks a non-empty FIFO that has waited longer than any other non-empty one, never-served ones first in index order |
| ArrivalOrder.FifoModeKeepsArrivalOrder | src/arbiter.cpp:103-132 | while the mode is FIFO, first the packet under way leaves, then the rest of the queue in the order the arrivals were logged over all inputs, then what is logged meanwhile; the whole output is in arrival order if and only if the service under way at the start is of the oldest packet or does not complete |
| ArrivalOrder.OvertakingIsReachable | src/arbiter.cpp:180-222 | a run from the start ends, by a change from FIXED, in a state from which every stretch of FIFO mode that reaches a posedge emits out of arrival order |
| ArrivalOrder.WorkConserving | src/arbiter.cpp:176-223 | under any modes, changing as they may, k logged packets leave within 2k posedges |
| ArrivalOrder.PlaceBoundsWait | src/arbiter.cpp:103-132 | in FIFO mode the packet at place r of the queue is the r-th to leave, within 2(r+1) posedges |
| Service.FairService | src/arbiter.cpp:176-223 | while the mode stays LRU (or ROUNDROBIN) the packet at place q is emitted once as many services or posedges have passed as its rank allows |
| Service.BoundedWaiting | src/arbiter.cpp:176-223 | in closed form: within n(q+1) services, hence 2n(q+1) posedges, of the next decision |
| Delay.ServedWithin | src/arbiter.cpp:176-223 | between periods, the packet at place q of a FIFO is out after 2n(q+1)+1 posedges in LRU or ROUNDROBIN mode, 2·n·depth+1 in FIFO mode |
| Delay.OutWithin | src/arbiter.cpp:176-223 | everything a FIFO has accepted is out after 2·n·depth+1 posedges of LRU, ROUNDROBIN or FIFO mode |
| Handshake.SendKeepsLink | src/traffic_generator.cpp:26-54 | the generator's turn at a posedge keeps the handshake invariant |
| Handshake.ReceiveKeepsLink | src/router.cpp:67-97 | the router's turn at a posedge, with or without space, keeps the handshake invariant, three posedges between takes included |
| Handshake.SettleKeepsLink | src/router.cpp:12-22 | every edge of a posedge's update finds its thread waiting and wakes it |
| Handshake.LostExactly | src/router.cpp:12-22 | an edge is counted as lost exactly if it finds its thread not waiting |
| Handshake.FallKeepsLink | src/router.cpp:91-95 | and so does every edge of a negedge's update |
| Handshake.NegedgeOrderIrrelevant | src/router.cpp:91-95 | the generator's and the router's turns at a negedge commute, so either order leaves the same link |
| Handshake.OfferIsLastSent | src/router.cpp:67-73 | what a router reads, or has held while waiting for space, is the last packet sent, stable on the wire and not yet taken, at least three posedges after its last take |
| Handshake.ReadyAgain | src/router.cpp:91-95 | one period after a packet is taken both ends are ready for the next one |
| Handshake.SentIsTaken | src/traffic_generator.cpp:26-54 | every emission is taken once, in order, with at most one in transit |
| Endpoints.Router.Posedge | src/router.cpp:67-97 | the router's turn writes the FIFO of the packet's address exactly if it has space, and refines the handshake step |
| Endpoints.Router.Negedge | src/router.cpp:91-95 | the router's turn at a negedge refines the handshake step |
| Endpoints.Generator.Posedge | src/traffic_generator.cpp:26-54 | an idle generator puts exactly the packet handed to it on the wire; the turn refines the handshake step |
| Endpoints.Generator.Negedge | src/traffic_generator.cpp:42-44 | the generator raises its activation only with a packet prepared, refining the handshake step |
| Endpoints.SignalChannel.Update | 3rd_party/systemc-2.3.0/include/sysc/communication/sc_signal.h:225-234 | a written value shows, and is notified, only at the update and only if it differs |
| Network.ColumnStep | src/noc.cpp:80-88 | every network event is to each output one step of its column, or nothing |
| Network.StepKeepsNet | src/noc.cpp:58-101 | every event keeps all columns, all links and the flow between them |
| Network.OutputsRefine | src/noc.cpp:58-101 | each output's part of a network run is a run of its column, so all arbiter guarantees hold in the network |
| Network.ExactlyOnceInOrder | src/noc.cpp:58-101 | per flow, the packets that the events of the run handed to an idle generator are what the output emitted, then what the FIFO holds, then the packet in transit: nothing lost, duplicated, reordered, altered or misrouted |
| Network.SentIsEmitted | src/traffic_generator.cpp:26-41 | over every run, what an input has sent is what the events handed to its generator while it was idle |
| Network.HandshakesAreSafe | src/router.cpp:12-97 | in no run is a handshake edge lost, and a router's takes are at least three posedges apart |
| Progress.NeverStuck | src/noc.cpp:58-101 | in every reachable state some process or phase can go on |
| Progress.TimeAdvances | src/noc.cpp:58-101 | whatever order the scheduler picks, every 2n+m+nm+3 activations complete another clock period |
| Progress.RunsForever | src/noc.cpp:58-101 | from every reachable state some run goes on for any number of activations |
| Latency.DeliveredInBoundedTime | src/noc.cpp:58-101 | a packet on an input's wire has left the network after 2n(depth+1)+3 clock periods if its output stays in LRU (or ROUNDROBIN) mode, and after 4·n·depth+3 if it stays in FIFO mode, whatever the other inputs and outputs do |
| Latency.EmittedIsDelivered | src/noc.cpp:58-101 | a packet handed to an idle generator has left the output of its address within 2n(depth+1)+4 periods (4·n·depth+4 in FIFO mode), right behind the packets that input had sent there before |
| Latency.FifosNeverOverflow | src/noc.cpp:50-64 | in no run does a FIFO hold more packets than its depth |
| Wiring.IndexInjective | include/noc/noc.h:69-70 | two flows never share a FIFO |
| Wiring.IndexSurjective | include/noc/noc.h:69-70 | every FIFO of the flat array carries a flow |
| Wiring.OneFifoPerFlow | include/noc/noc.h:69-70 | a change to the FIFO of flow (i, j) shows at port i of arbiter j and nowhere else |
| Wiring.Construct | src/noc.cpp:37-89 | construction succeeds exactly when inputs equal outputs in number (or there are no outputs); then both ports of flow (i, j) hold its FIFO and every FIFO has one writer and one reader |
| Generators.BurstBound | src/traffic_generator.cpp:125-144 | between two resets at most ceil(burst_length/short_period) packets start, however handshakes stall and the clock counter moves |
| Generators.LoopEndExactly | src/traffic_generator.cpp:131-142 | the counters after the end of the loop body, and that generate takes no turn during an emission |
| Bursts.StartsAreSpaced | src/traffic_generator.cpp:41-53 | in every run, stalled as it may be, a burst generator's packets start at least three posedges apart |
| Bursts.BurstHoldsAtMost | src/traffic_generator.cpp:125-144 | under any stalls a burst holds at most ceil(burst_length/3) packets as well (ceil(burst_length/2) if the order of the generator's two threads may change), as long as the 32-bit count has not wrapped |
| Bursts.UnobstructedBurst | src/traffic_generator.cpp:125-144 | if the router always finds space and the burst is no longer than its period, packet k between two resets starts at count max(c+3k, k·short_period), c being the count the first turn sees, for every k at which that is below burst_length and for no other: min(ceil(burst_length/short_period), ceil((burst_length-c)/3)) packets, for either fixed order of the threads |
| Bursts.CountersExactly | src/traffic_generator.cpp:127-143 | what every activation does to the counters: a turn starts a packet, or resets, or neither, each exactly under the program's tests, and the end of an emission resets exactly from the long period on |
| Bursts.ResetExactly | src/traffic_generator.cpp:138-142 | unobstructed, the next reset comes at exactly the computed posedge: at the first turn from the long period on, or at the end of the last emission if the count has reached it by then |
| Bursts.ResetComes | src/traffic_generator.cpp:138-142 | and past that posedge it has come |
| Bursts.CountAfterReset | src/traffic_generator.cpp:138-142 | after a reset the first turn sees count 1, or 0 if the reset came with the end of an emission and the generator runs before its clock counter |
| Bursts.BoundMetExactly | src/traffic_generator.cpp:131-132 | the ceiling ceil(burst_length/short_period) is met if and only if that many packets fit at three counts each |
| Bursts.BoundMetFromThree | src/traffic_generator.cpp:131-132 | from a first count of 0 it is met for every burst length if and only if short_period is at least 3 |
| Generators.BurstGenerator.Generate | src/traffic_generator.cpp:127-143 | a turn of generate starts a packet exactly under the program's test; if not, both counters are 0 from the long period on and unchanged before it |
| Generators.BurstGenerator.Emitted | src/traffic_generator.cpp:138-142 | the end of an emission leaves both counters 0 from the long period on and unchanged before it |
| Generators.BurstGenerator.ClockCounter | src/traffic_generator.cpp:57-65 | the counter advances with its 32-bit wrap-around and keeps the bound |
| Generators.AddressesInRange | src/traffic_generator.cpp:68-82 | every packet is addressed within the configured range |
| Generators.AddressLife | src/traffic_generator.cpp:68-82 | an address drawn with life L serves exactly L packets, 256 when L is 0, and then a fresh one is drawn |
| Generators.DrawnLife | src/traffic_generator.cpp:68-82 | after a draw (x, y) the next address is x mod (max - min) + min and serves exactly y mod max_life packets, as a byte that counts 0 as 256, before another draw is used |
| Generators.AddressSource.GetAddress | src/traffic_generator.cpp:68-82 | the address used, and the fields after it: one life less, or a drawn address with a drawn life |
| Generators.AddressSource.constructor | include/noc/traffic_generator.h:27-34 | the first address and its life are drawn likewise |
| RunQueues.OneOrder | 3rd_party/systemc-2.3.0/include/sysc/kernel/sc_runnable_int.h:189-481 | the push and pop lists behave as one queue: pop takes its head, if the phase has one, toggle leaves it alone, remove takes out its argument only |
| RunQueues.EverythingRuns | 3rd_party/systemc-2.3.0/include/sysc/kernel/sc_runnable_int.h:296-481 | whatever is queued runs: as many passes of toggle and pop as there are queued processes run exactly those, in order, and leave nothing |
| RunQueues.PhaseIsClosed | 3rd_party/systemc-2.3.0/include/sysc/kernel/sc_runnable_int.h:206-312 | a process pushed during an evaluation phase does not run in it: until the next toggle exactly the phase's own processes are popped |
| RunQueues.ExecutesNext | 3rd_party/systemc-2.3.0/include/sysc/kernel/sc_runnable_int.h:117-122 | a thread queued to execute next is the next one popped, and the rest is as before |
| RunQueues.QueuedAtMostOnce | 3rd_party/systemc-2.3.0/include/sysc/kernel/sc_runnable_int.h:60-69 | over any sequence of calls that respect "can't queue twice" nobody is queued twice |
| RunQueues.RunsInPushOrder | 3rd_party/systemc-2.3.0/include/sysc/kernel/sc_runnable_int.h:206-213 | with calls of push_back, pop and toggle only, processes run exactly in the order they became runnable, across evaluation phases |
| RunQueues.NoOvertaking | 3rd_party/systemc-2.3.0/include/sysc/kernel/sc_runnable_int.h:117-481 | over any allowed calls of all six kinds, of two queued processes the one behind is not run before the other one unless one of them is removed |
| RunQueues.PreemptionOrder | 3rd_party/systemc-2.3.0/include/sysc/kernel/sc_simcontext_int.h:113-179 | a thread's preemption puts the target first and the caller second, a method's takes the target off the queues to run it at once; the others keep their order and nobody is queued twice |
| RunQueues.RunQueue.QueuedExactlyWhenLinked | 3rd_party/systemc-2.3.0/include/sysc/kernel/sc_runnable_int.h:60-69 | a process's link is non-null exactly when it is queued, thanks to the non-null end marker |
| RunQueues.RunQueue.PushBack | 3rd_party/systemc-2.3.0/include/sysc/kernel/sc_runnable_int.h:206-213 | the links then spell the push list with the process at its end |
| RunQueues.RunQueue.PushFront | 3rd_party/systemc-2.3.0/include/sysc/kernel/sc_runnable_int.h:249-263 | the links then spell the push list with the process at its front, tail included |
| RunQueues.RunQueue.ExecuteNext | 3rd_party/systemc-2.3.0/include/sysc/kernel/sc_runnable_int.h:117-122 | the process becomes the head of the pop list |
| RunQueues.RunQueue.Pop | 3rd_party/systemc-2.3.0/include/sysc/kernel/sc_runnable_int.h:296-312 | returns the head of the pop list unlinked, or null if there is none |
| RunQueues.RunQueue.Toggle | 3rd_party/systemc-2.3.0/include/sysc/kernel/sc_runnable_int.h:473-481 | an empty pop list becomes the push list, which is then empty; otherwise nothing changes |
| RunQueues.RunQueue.Remove | 3rd_party/systemc-2.3.0/include/sysc/kernel/sc_runnable_int.h:380-426 | the process is on neither list and its link is null; the rest of both lists is intact, tail pointer included |
| RunQueues.RunQueue.PreemptWith | 3rd_party/systemc-2.3.0/include/sysc/kernel/sc_simcontext_int.h:113-179 | the linked lists after a method preempts a thread, or a thread itself or another, and which thread runs directly |
| RunQueues.RunQueue.TriggerStatic | 3rd_party/systemc-2.3.0/include/sysc/kernel/sc_thread_process.h:456-496 | queues the thread exactly when it is enabled, not queued, waiting on its static events, not running, out of wait cycles and not suspended |
| TimedLists.InsertIsStable | 3rd_party/systemc-2.3.0/include/tlm_utils/peq_with_cb_and_phase.h:74-101 | the list is one first-in first-out queue per time: insertion appends to its own time's queue and leaves all others alone |
| TimedLists.InsertSorted | 3rd_party/systemc-2.3.0/include/tlm_utils/peq_with_cb_and_phase.h:74-101 | insertion keeps the list sorted by time |
| TimedLists.InsertAdds | 3rd_party/systemc-2.3.0/include/tlm_utils/peq_with_cb_and_phase.h:74-101 | insertion adds its entry and loses or alters none |
| TimedLists.DeliversExactlyDue | 3rd_party/systemc-2.3.0/include/tlm_utils/peq_with_cb_and_phase.h:264-278 | with nothing overdue the loop delivers exactly what is due now, in insertion order, and keeps what is later, callbacks' own insertions included |
| TimedLists.OverdueBlocks | 3rd_party/systemc-2.3.0/include/tlm_utils/peq_with_cb_and_phase.h:264-278 | the loop delivers what is due if and only if the head is not overdue or nothing is due; with a head of another time it changes nothing |
| TimedLists.TimeOrderedList.InsertEntry | 3rd_party/systemc-2.3.0/include/tlm_utils/peq_with_cb_and_phase.h:74-101 | the links spell the stable insertion; no node is lost, and one is allocated exactly if the free list was empty |
| TimedLists.TimeOrderedList.DeleteTopEntry | 3rd_party/systemc-2.3.0/include/tlm_utils/peq_with_cb_and_phase.h:103-111 | the head's node goes to the free list, or nothing changes on an empty list |
| TimedLists.TimeOrderedList.Reset | 3rd_party/systemc-2.3.0/include/tlm_utils/peq_with_cb_and_phase.h:68-72 | empties the list without losing a node |
| TimedLists.TimeOrderedList.Fec | 3rd_party/systemc-2.3.0/include/tlm_utils/peq_with_cb_and_phase.h:264-278 | the loop over the linked list computes the delivery, for callbacks that answer as they please to all that has been delivered; no node is lost; and the delay of the next notification |
| TimedLists.RenotifyExact | 3rd_party/systemc-2.3.0/include/tlm_utils/peq_with_cb_and_phase.h:275-277 | that delay is the difference modulo 2^64, the time to the head exactly if the head is not overdue |
| TimedLists.DeltaList.InsertPayload | 3rd_party/systemc-2.3.0/include/tlm_utils/peq_with_cb_and_phase.h:161-166 | appends to what is pending, in the same vector, or in one of twice the length exactly if it was full |
| TimedLists.DeltaList.Drain | 3rd_party/systemc-2.3.0/include/tlm_utils/peq_with_cb_and_phase.h:250-263 | a loop over one of the vectors delivers in insertion order everything pending and everything its callbacks insert into it meanwhile, and leaves nothing |

## Left out

- The coroutine packages and the real mutex: threads are cooperative, so each is atomic between two waits.
- `rand()`, the marker and creation callbacks and `packet.extra`: draws are arbitrary values, callbacks on packets do nothing.
- The blocking loops of `sc_fifo::read` and `write`: one pass of each is modelled; the arbiter's read is proved never to need a second, and the router checks for space itself.
- Network: sizes are unbounded naturals, so the 32-bit product in the log's capacity is not modelled, and an arbiter's turn at a negedge is taken by all arbiters at once, as it touches nothing shared.
- Network: the columns hold the FIFOs directly; `Wiring.OneFifoPerFlow` ties them to the flat array.
- Network: `n` inputs and `m` outputs may differ in the step system; construction allows only equal numbers.
- Arbiter threads in the initialization phase: the FIFO numbers that `get_id` hands out are taken to be 0..n-1, one thread each.
- RunQueues: the method queues, which repeat the thread queues.
- The current-process record and the one-line wrappers around the run queues: they add no order or membership fact.
- TimedLists.DeltaList.Drain: callbacks that never stop inserting, as the program's loop then does not end; and the alternation of even and odd lists, which rests on event code that is not part of this model.
- The stream generator, whose single counter comparison would only add an easy member; the handshake results hold for any generator, this one included.
- Fairness of RAND and FIXED modes per packet: FIXED mode starves high numbers while low ones have packets, and RAND mode rests on the register's sequence; `ArrivalOrder.WorkConserving` bounds their total service.
- Bursts.UnobstructedBurst: bursts longer than their period, which a reset cuts short, and periods within two counts of the 32-bit range; `Bursts.BurstHoldsAtMost` covers them from above.
- set_burst and set_offset during a run of `Bursts`: they are taken to have been called before; `Generators.BurstBound` covers set_offset at any time.
- Tracing, printing, naming, allocation and destruction.
