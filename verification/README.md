# A verified model of AdaptIPC

AdaptIPC sends messages from one producer process to one consumer process over
two transports: a lock-free byte ring in shared memory for large payloads and a
Unix datagram socket for small ones. This project models the parts whose
correctness is not obvious from reading one function, and proves their
properties for every input, every run and every interleaving of the two
processes:

- **the ring** (`Bytes`, `Cursors`, `RingLayout`, `ShmRing`): variable-length
  records with wrap markers in a power-of-two buffer, masked 64-bit cursors,
  the contiguous and the scatter push, the looping pop. `ShmRing` is the
  program's own form, a class over a byte array; its contracts are stated over
  unbounded cursors and the queue of unread records;
- **the ring under concurrency** (`RingProtocol`, `RingSafety`, `RingFlow`,
  `RingRuns`, `RingWakeup`, `RingProgress`): the same algorithms as a state
  machine whose steps are single loads, byte stores and exchanges, together with
  the watermark park and wake protocol over a kernel futex or over the emulated
  one (mutex and condition variable);
- **the router** (`CostModel`, `Router`, `Messages`, `Hysteresis`): the decision
  function of all five policies, the send path with its retry state, what it
  makes of the messages that the caller means, and what whole runs of the default
  policy do;
- **the two endpoints together** (`Wire`, `Channel`, `Handshake`, `ChannelRing`,
  `Joint`, `Endpoints`): lazy set-up of the ring, sends and multiplexed receives in any
  interleaving, with every answer of the operating system left open, and then the
  same over the bytes of the ring; the receive loop itself is a class whose calls
  are proved to be runs of the machine, whatever the sender does meanwhile;
- **the zero-copy slot pool** of the benchmark (`SlotPool`, `SlotProgress`);
- **learning, health and logging** (`Learning`, `Health`, `HealthRuns`,
  `DecisionLog`).

`Codes` and `Reals` hold return codes and a few facts about products of reals.
`dafny verify dfyconfig.toml` checks the whole project.

## How to read the state machines

`Run(s, events)` is the state after any sequence of events; an event that is not
enabled changes nothing, so a statement about `Run` for all event sequences is a
statement about all interleavings. In `RingProtocol` and `SlotPool` an event is
one access to shared memory. In `Channel` an event is one system call or one
ring operation, and the ring is a queue whose answers are inputs. In `Joint` both
run together, a system call or a single access of the byte-level ring at a time:
the endpoints make the ring's calls, and what a push returns and a poll finds is
the ring's own doing. Every joint run is a run of `Channel` and a run of
`RingProtocol`, so what is proved of either holds of both together.

Some properties that the program's comments promise or rely on do not hold as
stated. The code is modelled as it is, each comes with a run that shows it and
with the exact condition:

- a single outlier can change the health state, because samples in the middle
  band do not interrupt a streak (`HealthRuns.OutlierAfterGap`);
  `HealthRuns.MovesIff` says after any run which samples change the state, and
  `HealthRuns.ConsecutiveIff` for which kinds of samples the bad ones behind a
  change are always consecutive: none that says nothing beside a bad one, and no
  mere drain deficit beside both a nearly full and a merely high ring;
- the two sides agree on the ring's size only for capacities below 2^32, because
  the set-up request carries 32 bits (`Channel.HandshakeSafety`,
  `Channel.SetupPossibleIff`);
- a producer can sleep with less than the low watermark in the ring, after a pop
  with too small a buffer skipped a wrap marker (`RingWakeup.SleepsBelowLowWater`);
  over runs whose pops offer at least `m` bytes it cannot iff
  m + 5 >= the low watermark (`RingWakeup.LowWaterKeptIff`), or if all records are
  at most `m` bytes (`RingWakeup.NoLostWakeupRoomy`), which the endpoints see to
  (`Joint.NoLostWakeup`);
- a blocking push of a body that it accepts can hang on an empty ring, neither
  sending the message nor returning an error (`RingProgress.BlockingPushHangs`,
  for every capacity); it goes through iff the record is no longer than the
  larger part of the buffer before or behind the head
  (`RingProgress.BlockingPushIff`), so always up to half the ring
  (`RingLayout.AlwaysAdmitted`);
- retries are recognised by size alone, so a new message with the size of one
  that was given up is not classified (`Messages.AbandonedSizeSwallows`);
  `Messages.SeenAsMeantIff` says for which callers the router sees the messages
  they mean.

## Model

| member | source | states |
|---|---|---|
| Cursors.MaskIsOffset | src/shm_ringbuffer.c:286 | For every power-of-two capacity, masking a cursor with capacity - 1 gives its remainder |
| Cursors.OffsetOfWrap | src/shm_ringbuffer.c:280-286 | Storing a cursor modulo 2^64 does not move it in the buffer |
| Cursors.WordOffset | src/shm_ringbuffer.c:286-307 | Offset and lap start computed from the stored word are those of the unbounded cursor |
| Cursors.WordDifference | src/shm_ringbuffer.c:284 | The used count from wrapped words is exact, and the words are equal only for equal cursors |
| Cursors.WordLapEnd | src/shm_ringbuffer.c:307-308 | Rounding the stored head up to the next lap is rounding the unbounded cursor up, across the 2^64 wrap too |
| Cursors.RoundedIsLeast | src/shm_ringbuffer.c:160-165 | The rounded capacity is the least power of two of at least a page and at least the request, and at most 2^30 if the request is |
| ShmRings.RoundPow2 | src/shm_ringbuffer.c:160-165 | The doubling loop computes that capacity and ends, for requests up to 2^63 |
| ShmRings.ShmRing.constructor | src/shm_ringbuffer.c:167-248 | A new ring is empty, with zero cursors and the rounded capacity, whatever the buffer held before |
| ShmRings.ShmRing.Push | src/shm_ringbuffer.c:272-318 | EINVAL for an empty body, EMSGSIZE above capacity - 4, else success iff some cursor from the head on leaves the record in one piece and every unread byte alone, and EAGAIN otherwise; on success the body is appended to the queue, the record lies at the first such cursor and the bytes written are the marker and the record; otherwise nothing changes |
| ShmRings.ShmRing.PushScatter | src/shm_ringbuffer.c:326-388 | For any list of segments the same answer, place and bytes as a push of their concatenation, with the smaller size limit capacity - 8 |
| ShmRings.ShmRing.CopySegment | src/shm_ringbuffer.c:370-380 | The modular copy loop ends and never splits a record across the end of the buffer |
| ShmRings.ShmRing.Pop | src/shm_ringbuffer.c:390-430 | EAGAIN iff the queue is empty, EMSGSIZE iff the front record exceeds the buffer (after moving past a marker only), else exactly the front record, removed; other bytes of the caller's buffer stay |
| RingLayout.StoreMissesLive | src/shm_ringbuffer.c:297-313 | No byte store of a push lands on an unread byte, even when the producer's view of the tail is stale; stores past the end of the buffer only write zero |
| RingLayout.PushAppends | src/shm_ringbuffer.c:272-318 | The stores of a push turn a buffer holding a queue into one holding that queue with the body appended |
| RingLayout.ChainFrame | src/shm_ringbuffer.c:390-421 | What a buffer holds depends on nothing but the bytes between the cursors |
| RingLayout.ChainSkip | src/shm_ringbuffer.c:407-413 | Behind a wrap marker the ring is not empty and the next record starts at offset 0 without a second marker |
| RingLayout.ParseChain | src/shm_ringbuffer.c:390-421 | A reader who knows only the bytes and the cursors finds exactly the queue |
| RingLayout.LengthsFitIff | src/shm_ringbuffer.c:288 | The 32-bit length field records every body that a push admits iff the capacity is at most 2^32 |
| RingLayout.EmptyRefuses | src/shm_ringbuffer.c:286-295 | An empty ring at offset p refuses a record of n bytes iff n > max(p, capacity - p) |
| RingLayout.AlwaysAdmitted | src/shm_ringbuffer.c:347-352 | Every position of an empty ring admits n bytes iff n <= capacity / 2 |
| RingLayout.AdmittedIff | src/shm_ringbuffer.c:286-306 | For every pair of cursors the space check admits n bytes iff some start >= head has start mod capacity + n <= capacity and start + n <= tail + capacity, and the record goes to the first such start |
| RingSafety.ExactlyOnceInOrder | src/shm_ringbuffer.c:272-430 | In every interleaving the popped bodies are a byte-exact prefix of the accepted ones, and the bytes between tail and head parse into exactly the rest |
| RingSafety.NeverOverwritesUnread | src/shm_ringbuffer.c:297-313 | In every interleaving the next store of a push misses every unread byte |
| RingSafety.AtMostTwoPasses | src/shm_ringbuffer.c:393-413 | A pop skips at most one marker and never reports empty after skipping it, with the head advancing concurrently |
| RingSafety.PushDecision | src/shm_ringbuffer.c:326-352 | After every run a push about to decide writes iff its body is within the limit and has such a place; within the limit but without a place a blocking push waits and any other ends |
| RingSafety.StepIsQueueStep | src/shm_ringbuffer.c:272-430 | Every single memory access leaves the abstract queue alone, appends the body being pushed, or delivers and removes the front one |
| RingFlow.NoLostWakeup | src/shm_ringbuffer.c:390-472 | Whenever the producer sleeps with no wake in flight, its flag is set, the ring is not empty, and at least the low watermark remains unless a marker was skipped since the last release |
| RingWakeup.NoLostWakeupRoomy | src/shm_ringbuffer.c:415-430 | While pops have room for every record that pushes accept, at least the low watermark remains, up to a pop in progress past a marker |
| RingWakeup.LowWaterKeptIff | src/shm_ringbuffer.c:404-430 | For records of any size, every run whose pops offer at least m bytes keeps that guarantee iff m + 5 is at least the low watermark |
| RingWakeup.SleepsBelowLowWater | src/shm_ringbuffer.c:404-426 | For smaller m it breaks in every ring, on either futex: a run after which the producer sleeps below the low watermark, no pop is in progress and no wake is on its way |
| ChannelRing.EndpointsKeepLowWater | src/adapt_ipc.c:513-518 | The receiver's scratch buffer has that room after a set-up for a capacity below 2^32, so between the endpoints the guarantee holds without exception |
| ChannelRing.EndpointsComplete | src/adapt_ipc.c:94-102 | With that scratch buffer, whatever the capacity rounds to, a blocking push with room is published after the turns of BlockingPushCompletes, and one without goes on for ever |
| RingFlow.BacklogBound | src/shm_ringbuffer.c:438-493 | When every push is a blocking one, used bytes stay below 80 % of the ring plus two of the largest records, padding included |
| RingFlow.WaitReturnsIff | src/shm_ringbuffer.c:438-450 | With no consumer about, a wait for space returns iff less than 80 % of the ring is in use, and then at once with nothing changed |
| RingFlow.WaitDecides | src/shm_ringbuffer.c:445-470 | Each step of a wait: below 80 % it goes on with flag and park count as they were, else it sets the flag, looks again, and parks or clears the flag and goes on |
| RingFlow.ParksOnlyWhenFull | src/shm_ringbuffer.c:450-467 | A producer parks only if at least 80 % was in use at its recheck, sets the flag only if at its first look, and counts exactly its parks |
| RingFlow.WakesOnlyWhenLow | src/shm_ringbuffer.c:418-427 | A pop exchanges the flag iff it leaves less than 20 % of what it saw in use, and wakes only if the flag was set |
| RingProgress.DrainSettles | src/shm_ringbuffer.c:390-472 | In every interleaving in which nothing new is published, once the consumer has had as many turns as there was work, with buffers that hold the unread records, everything is delivered and no producer sleeps, whatever the producer does in between |
| RingProgress.TurnOrHandover | src/shm_ringbuffer.c:139-149 | A turn of the consumer is blocked only while the producer holds the emulated futex's lock, which the producer's next steps release |
| RingProgress.TurnsExist | src/shm_ringbuffer.c:390-430 | From every reachable state the consumer can be given any number of turns, without the producer unless that holds the lock |
| RingProgress.BlockingPushCompletes | src/shm_ringbuffer.c:474-493 | In every interleaving in which the consumer first gets as many turns as there is work and the producer then length + 28 steps, a blocking push whose record fits an empty ring where the head stands is published, whatever comes between |
| RingProgress.BlockingPushIff | include/shm_ringbuffer.h:111-112 | Before it writes, a blocking push of any body that it accepts can still publish it iff length + 4 is at most the larger part of the buffer before or behind the head |
| RingProgress.StuckForEver | src/shm_ringbuffer.c:484-492 | Otherwise it goes on for ever, whatever anybody does: nothing is published and it never returns |
| RingProgress.BlockingPushHangs | src/shm_ringbuffer.c:337-352 | In every new ring a body of half the ring comes to hang so on an empty ring, after one record of half the ring has passed through |
| SlotPool.SlotConservation | benchmarks/production_comparison.c:242-342 | At every moment each slot is exactly once in the free queue, the flight queue, the sender's hand or the receiver's hand, whatever the frames hold |
| SlotPool.NeverWritesASlotBeingRead | benchmarks/production_comparison.c:281-330 | The sender never writes a slot that is in flight or being read |
| SlotPool.FullWaitUnreachable | benchmarks/production_comparison.c:297-309 | A sender holding a slot always finds room in the flight queue |
| SlotPool.CasNeverFails | benchmarks/production_comparison.c:272-339 | Neither compare-and-swap can fail with one sender and one receiver |
| SlotPool.FramesArriveInOrder | benchmarks/production_comparison.c:267-342 | Received frames are a prefix of the sent ones, unchanged, and the slots in flight hold the others in order |
| SlotPool.SlotFoundIff | benchmarks/production_comparison.c:274-294 | After every run a sender finds a slot iff fewer than 128 of the frames sent are in flight or received with the slot not yet back |
| SlotProgress.SendCompletes | benchmarks/production_comparison.c:267-312 | However empty the free queue, once the receiver has had the turns it takes to return a slot and the sender then length + 8 steps, a send is done, whatever comes between |
| SlotProgress.SendFromCall | benchmarks/production_comparison.c:267-312 | After every run, calling an idle sender puts the frame on the pool, given those turns, iff it has at most 2097216 bytes; a longer one is refused with nothing changed |
| SlotProgress.WaitsForEver | benchmarks/production_comparison.c:316-339 | With buffers too small for the front frame, a receiver never returns a slot and a sender waits for ever |
| CostModel.SwitchIff | src/cost_model.c:467-511 | A scored decision leaves a route iff the other one is cheaper by more than switching cost plus margin |
| CostModel.ScoredDecision | src/cost_model.c:418-511 | In the fields of the situation: when a scored decision leaves the ring, leaves the datagram, or starts on either, from the two lines, the predicted wait, the health penalty, the set-up, the weighted overshoot of the slower one, the switch and the margin |
| CostModel.SizeDecision | src/cost_model.c:308-416 | Likewise for the policies by size: the threshold 4096 alone, with the sticky band down to 1024, or with the escape when the wait and the penalty exceed the datagram's cost and the switch |
| CostModel.BandAllowsOneSwitch | src/cost_model.c:467-511 | A run whose score difference stays in a band that does not reach past the threshold on both sides switches at most once |
| CostModel.OneSwitchIff | src/cost_model.c:452-511 | That condition is exact for every configuration, and bands of width up to 2 * (switch cost + margin) satisfy it |
| CostModel.NoiseNeverSwitches | src/cost_model.c:492-511 | With a margin of twice the score error no run leaves a route that exact scores would keep |
| CostModel.UnpressedAgree | src/cost_model.c:318-415 | Over whole runs without such pressure they route like the default policy |
| CostModel.SlowerPays | src/cost_model.c:452-486 | With a latency budget the transport with the larger predicted latency pays the weight times its own overshoot and the other nothing |
| Router.Producer.AdaptSend | src/adapt_ipc.c:325-491 | The send path on its fields: result, chosen transport and the whole routing state for every answer of the socket, the ring and the handshake |
| Router.Producer.Classify | src/adapt_ipc.c:352-391 | Resumes a pending classification or classifies anew, counting a switch only for a changed decision |
| Router.OneFrameIffOk | src/adapt_ipc.c:393-490 | A send returns zero iff it put a frame on a transport; a datagram is never oversized and the ring is used only when mapped |
| Router.SmallMessages | src/adapt_ipc.c:352-490 | All outcomes of a message of at most 4095 bytes: the transport of the pending classification or of the policy, its return code, the capacity limit and the datagram that replaces a failed handshake, and when a retry is then pending |
| Router.LargeMessages | src/adapt_ipc.c:393-432 | A message too large for a datagram is pushed to the ring, refused with EMSGSIZE above the capacity, or left pending for a retry by a failed handshake (a timeout reads EAGAIN), whatever was decided or pending |
| Router.RetryTransparency | src/adapt_ipc.c:352-391 | Over any sequence of calls, average and sticky route are a fold over the calls that the router does not take for retries, and the switch counter is the number of adjacent changes in the decided routes |
| Messages.TakenForRetry | src/adapt_ipc.c:352-355 | After any run the router takes a call for a retry iff the last call left a message of that size unfinished |
| Messages.SeenAsMeantIff | src/adapt_ipc.c:330-355 | The router sees exactly the caller's messages, after every call, iff the caller repeats only unfinished attempts and starts no message while one of its size is unfinished |
| Messages.MessagesCountOnce | src/adapt_ipc.c:330-391 | For such a caller average, sticky route and switch counter are those of its messages alone, each counted once however often it was tried |
| Messages.FirstMistake | src/adapt_ipc.c:330-391 | The first call that breaks the rule moves the average apart from the messages' iff its size differs from the average (and the factor is not 0) |
| Messages.AbandonedSizeSwallows | src/adapt_ipc.c:352-355 | A message given up on a full ring makes the router miss the next new message of its size |
| Messages.UnfinishedIsEagain | src/adapt_ipc.c:407-472 | A caller can tell: while the socket never answers EAGAIN and handshakes fail by timing out, an attempt is unfinished iff it returned EAGAIN |
| Router.RepeatResumesIff | src/adapt_ipc.c:330-391 | Repeating a failed call, be it a first attempt or a resumed one, resumes its classification iff it was for the ring and met a failed handshake or a full ring |
| Router.EagainResumes | src/adapt_ipc.c:330-355 | As the comment promises, a call that failed with EAGAIN from the ring or the handshake is resumed by the next call of the same size |
| Router.RefusedDatagramCountsTwice | src/adapt_ipc.c:486-487 | Whatever the size and the average, a message whose datagram failed moves the average again when it is sent again |
| Router.EndpointFollowsSizes | src/adapt_ipc.c:352-391 | With the default policy the endpoint routes like the bare size classifier over its logical messages, hence never switches while no call exceeds 4096 bytes |
| Hysteresis.SmallPayloadsStay | src/cost_model.c:327-342 | From the start, payloads of at most 4096 bytes never leave the datagram route, over whole runs |
| Hysteresis.LargePayloadsStay | src/cost_model.c:327-342 | On the ring with an average above 1024, payloads of at least 1024 bytes stay there |
| Hysteresis.NoSwitchInBandIff | src/adapt_ipc.c:88-92 | All runs of payloads in [1024, 4096] are free of switches iff the smoothing factor is below 1 |
| Hysteresis.GeometricApproach | src/adapt_ipc.c:88-92 | After n payloads of size S the average is S - (1 - alpha)^n * (S - e) |
| Hysteresis.StaysIff | src/cost_model.c:327-342 | On the ring with average e, every sequence of n messages stays there iff 1 + (1 - alpha)^n * (e - 1) > 1024 |
| Hysteresis.DwellsAtLeast | src/adapt_ipc.c:357-379 | For every factor in (0, 1], a switch back to datagrams comes at least n messages after the switch to the ring if 1 + (1 - alpha)^(n-1) * 4095 > 1024, for every payload sequence |
| Hysteresis.DwellsIff | src/adapt_ipc.c:357-379 | That n is the best possible for every factor with which some payload brings the average to just 4096 |
| Hysteresis.DefaultDwell | src/adapt_ipc.c:241-245 | With the default factor 0.2 the dwell is seven messages and no more |
| Wire.RequestUnderstood | src/adapt_ipc.c:145-198 | The receiver reads a set-up request as it was meant, and ignores exactly those with a capacity of 0 or above 2^30 |
| Wire.RequestIff | src/adapt_ipc.c:186-197 | Of all datagrams exactly those are requests that have 7 bytes or more, the request code, a little-endian capacity in (0, 2^30] and a terminated name, which is what is read |
| Wire.FrameBytes | src/adapt_ipc.c:145-175 | The bytes of each frame, and that of all frames only a successful acknowledgement acknowledges |
| Channel.HandshakeSafety | src/adapt_ipc.c:121-220 | Over all runs the producer holds the ring for mapped only if the consumer mapped the same name at the requested capacity; both round alike iff the capacity is below 2^32 |
| Channel.SetupPossibleIff | src/adapt_ipc.c:136-220 | Some run sets the ring up iff the low 32 bits of the capacity are in (0, 2^30] and the capacity holds a frame; otherwise no order of requests and answers does |
| Handshake.SetupStaysPossibleIff | src/adapt_ipc.c:136-220 | That holds from every reachable state: whatever was lost, refused or given up before, some continuation sets the ring up iff the capacity allows it |
| Handshake.RequestAnswered | src/adapt_ipc.c:186-220 | After every run, what a request is answered: success with nothing changed once the ring is mapped, however often it is asked; before that success and the mapping, the attach error, or 244 for a buffer that cannot grow |
| Handshake.AckTaken | src/adapt_ipc.c:121-183 | After every run, what the producer makes of an acknowledgement: an error is skipped, a success maps the ring or fails with the error of the mapping, and then a datagram replaces the push if it can |
| Handshake.SendAsks | src/adapt_ipc.c:136-160 | A send puts one request into the socket iff it waits and one is due, under a name chosen once |
| Handshake.ScratchIs | src/adapt_ipc.c:204-210 | After every run the scratch buffer has 4096 bytes, or the requested capacity if that is larger and mapped |
| Channel.ZeroedBeforeUse | src/shm_ringbuffer.c:224-240 | The producer's zeroing of the cursors never changes the ring: nothing was pushed or popped before it |
| Channel.ExactlyOnce | src/adapt_ipc.c:325-560 | The payloads of the sends that returned zero are, in order, an interleaving of those put on the two transports, and no other send put any; each transport is read once and in order; what is delivered is, in order, what was read less the messages counted as too large for the caller's buffer, so a control frame never is |
| ChannelRing.StepIsRingOperation | src/shm_ringbuffer.c:272-430 | On Channel's view of the ring every memory access does nothing, appends the payload being pushed, or takes the front one |
| ChannelRing.RunIsOperations | src/shm_ringbuffer.c:272-430 | Every run of the byte-level ring is a sequence of appends and takes on Channel's object |
| ChannelRing.PushAnswered | src/shm_ringbuffer.c:337-352 | The ring's decision about a push (too long, no room, written, or waiting) is the one Channel makes of the same answer, for both calls that a send makes |
| ChannelRing.PublishIsPush | src/shm_ringbuffer.c:383-387 | The access that publishes a record is Channel's push |
| ChannelRing.EmptyIsEmpty | src/shm_ringbuffer.c:393-400 | A pop finds the ring empty iff Channel's poll does |
| ChannelRing.ShortIsShort | src/shm_ringbuffer.c:416 | A record exceeds the pop's buffer iff it exceeds the scratch buffer of Channel's poll |
| ChannelRing.ReleaseIsPop | src/shm_ringbuffer.c:418-421 | The access that releases a record is Channel's poll, with the same payload |
| Joint.ExactlyOnce | src/adapt_ipc.c:325-560 | Over every run of both endpoints and the bytes of the ring, in which the ring answers for itself: the payloads of the sends that returned zero are an interleaving of the datagrams and of the records the ring was given, each tag and payload; the ring's bytes parse into exactly the records not taken yet; each transport is read once and in order |
| Joint.CallsRun | src/adapt_ipc.c:393-560 | The endpoints' part of every such run is a run of Channel, each push and poll at one access of the ring |
| Joint.AccessesRun | src/shm_ringbuffer.c:272-493 | The ring's part is a run of the ring, zeroing of its header by the set-up included |
| Joint.NoLostWakeup | src/adapt_ipc.c:438-445 | In every such run a sleeping sender with no wake in flight leaves at least the low watermark, up to a pop in progress past a marker |
| Joint.BlockedSend | src/adapt_ipc.c:438-445 | After every such run a send blocked in a push goes through, given the turns of both, iff its record is no longer than the larger part of the buffer before or behind the head; else it never returns |
| Channel.NothingLost | src/adapt_ipc.c:521-549 | With receive buffers as large as every message, all that is taken is delivered |
| Channel.ScratchSuffices | src/adapt_ipc.c:94-102 | The receiver's scratch buffer holds every record the producer may push iff the capacity is below 2^32, and then a poll of a non-empty ring always takes a record |
| Endpoints.Receiver.GrowRxbuf | src/adapt_ipc.c:94-102 | Grows the scratch buffer to the requested size or leaves it alone |
| Endpoints.RecvStarts | src/adapt_ipc.c:493-497 | A receive call starts to poll iff its buffer has at least two bytes |
| Endpoints.Receiver.HandleControl | src/adapt_ipc.c:186-220 | Answers any control frame on its fields as the machine's step does; a request once the ring is mapped is acknowledged with success and changes nothing, and a mapping is undone when the buffer cannot grow |
| Endpoints.Receiver.AdaptRecv | src/adapt_ipc.c:493-560 | With any steps of the sender between its own, the receive loop is a run of the machine; it delivers the payload it returns and no other; EINVAL, EMSGSIZE and the socket's errors are returned exactly for their causes; with the sender standing still it goes on waiting only when socket and ring are empty |
| Endpoints.StepsMakeASend | src/adapt_ipc.c:325-491 | The producer's steps taken together return the same code, use the same transport and leave the same routing state as the whole send |
| Health.Monitor.UpdateShm | src/transport_health.c:54-93 | One sample has the effect of the reference: streaks first, then the state they call for |
| HealthRuns.TransitionBudget | src/transport_health.c:42-93 | After N samples from the start, (changes - 1) * debounce <= 2 * N |
| HealthRuns.TransitionsCounted | src/transport_health.c:42-52 | The transition counter is the number of changes of state modulo 2^32 |
| HealthRuns.Recovery | src/transport_health.c:79-91 | Under good samples the state is HEALTHY exactly after a number of them that depends on the state and is at most twice the debounce period |
| HealthRuns.EdgesExactly | src/transport_health.c:62-91 | For every debounce period, some run from the start takes a transition iff it is one of twelve; BLOCKED to HEALTHY is not |
| HealthRuns.StreaksAreHistory | src/transport_health.c:62-91 | After every run the streaks are the bad (modulo 2^32) and good samples since the last contrary one or change of state, however far apart |
| HealthRuns.MovesIff | src/transport_health.c:5-9 | After every run a sample changes the state iff it completes a debounce period of such samples, or the ring is nearly full while DEGRADED, or it is the first good sample; and to which state |
| HealthRuns.KindsOfSamples | src/transport_health.c:27-32 | What is bad and good in fractions of the capacity: nearly full from 95 %, high from 80 %, drained at less than half the arrival rate, good up to 20 % |
| HealthRuns.DefaultPeriod | src/transport_health.c:34-40 | Without a period the monitor changes after eight bad samples, not seven |
| HealthRuns.ConsecutiveIff | src/transport_health.c:5-9 | For which kinds of samples the comment holds over all runs: exactly those with no sample that says nothing beside a bad one, and no mere deficit beside a nearly full and a merely high ring (or a debounce period of one) |
| HealthRuns.OutlierAfterGap | src/transport_health.c:5-9 | The comment broken for every debounce period above one: after one period less a sample, and any number of normal samples, a lone bad one degrades a HEALTHY transport |
| HealthRuns.DegradedBlocksAtOnce | src/transport_health.c:62-66 | From every start a transport degrades with clear streaks, and a single nearly full sample then blocks it |
| Learning.Learner.ObserveClass | src/cost_model.c:154-183 | One sample moves one class's averages and count and refits the transport's line iff it can be trusted |
| Learning.Learner.Observe | src/cost_model.c:185-194 | Ignores negative costs and unknown transports, else observes the class of the size |
| Learning.Learner.Crossover | src/cost_model.c:196-219 | The learned crossover moves as the reference says, or not at all |
| Learning.SampleMoves | src/cost_model.c:154-194 | A sample moves the two averages of one class (up to 1024 bytes or above, of its transport) by the factor, and if its refit is accepted the line of both classes of that transport; nothing else |
| Learning.CountsSeen | src/cost_model.c:154-159 | Every class counts its samples, up to 2^64 - 1 |
| Learning.ConfiguredUntilTrusted | src/cost_model.c:136-168 | Over whole runs a transport is priced by its configured line until both its classes have enough samples |
| Learning.RefitIff | src/cost_model.c:161-182 | A refit is accepted with a line iff that goes through both class averages, both have enough samples, their sizes are more than 128 bytes apart, it rises by more than 10^-6 and does not start below zero |
| Learning.CrossingIff | src/cost_model.c:196-212 | The crossing is known iff all classes have enough samples and the datagram's line rises by more than 10^-9 a byte faster; it is the size at which the two lines meet, clamped to the range |
| Learning.RunTracks | src/cost_model.c:154-159 | If a transport's samples lie on a + b*S, after k samples of a class its averages lie on the line lowered to a * (1 - (1 - alpha)^k) |
| Learning.AcceptedRefit | src/cost_model.c:161-182 | Then every accepted refit has slope error at most a * (1 - alpha)^m / 128 for the smaller class count m; with equal counts the slope is exact and the fixed term is a * (1 - (1 - alpha)^n) |
| Learning.RefitAcceptedIff | src/cost_model.c:161-182 | With equal counts a refit from samples on a line is accepted iff both classes have enough samples, their mean sizes are more than 128 bytes apart and the true slope exceeds 10^-6 |
| Learning.PricesStaySound | src/cost_model.c:136-194 | Whatever is observed, fixed costs stay non-negative and slopes positive if the configured ones are |
| Learning.SlopeInUse | src/cost_model.c:154-194 | Over whole runs both classes of a transport use one line: the prior or one with a slope within that bound for m = the minimum sample count |
| Learning.CrossoverStaysInRange | src/cost_model.c:196-219 | Over whole runs of samples and requests the crossover is unknown or inside its configured range, and known iff some request found the lines crossing |
| Learning.CrossoverStep | src/cost_model.c:206-218 | Each request keeps an unknown crossing's value, takes the first known one, and then moves by the factor towards it, closing the share alpha of the gap |
| DecisionLog.Log.Record | src/cost_model.c:230-236 | A record is added to the history while enabled; past 512 records and past the 32-bit wrap the ring holds the latest ones |
| DecisionLog.Log.Dump | src/cost_model.c:238-251 | The dump lists exactly the last min(n, 512) records, oldest first |

## Left out

- Operating system: shm_open, mmap, futex, pthread and poll are not modelled. The socket is a lossless queue of whole datagrams, sleeping is being blocked until woken (spurious wakes included), a newly named shared object reads as zero, and every other answer is an input.
- Memory order: all interleavings are sequentially consistent. The park protocol's release store of the flag followed by an acquire load of the tail is not ordered by section 7.17.3 of ISO/IEC 9899:2011; the model assumes that it is.
- Floating point: averages, costs and scores are reals, without rounding, infinities or NaN; occupancy fractions are compared as integers scaled by 100.
- ShmRings.ShmRing.constructor: capacities above 2^32 are out, because the length field then no longer records every body (RingLayout.LengthsFitIff). Rounding a request above 2^63 does not terminate in the source.
- Errors of the wait for space: an uninitialised or failing mutex makes the wait return an error; the flow model has none.
- Runtime context: rate and drain estimators and the clock (src/runtime_context.c). The predicted wait and the rate estimates are inputs; that the drain estimate equals the bytes removed is not claimed.
- Time: resend intervals and deadlines of the handshake are choices of the environment. The wait for an acknowledgement is one machine step per datagram, not a loop of its own.
- Eager set-up, adapt_recv_uds_timeout, adapt_shutdown, unequal capacities of the two endpoints, and name collisions with an earlier run's object.
- Environment variables, statistics other than the switch counter, names, reason strings and the CSV format.
- More than one producer or consumer, and a process that dies.
- Channel.ExactlyOnce: the ring's answer to a push is an input of the step; in Joint.ExactlyOnce it is not. Joint is about capacities below 2^32; for others the two sides round differently (Channel.HandshakeSafety).
- RingFlow.BacklogBound: is about the blocking push only; the cost-aware policies try an unthrottled push first (src/adapt_ipc.c:439-443) and can exceed it.
- SlotPool.FramesArriveInOrder: frames state their own length truthfully, as the benchmark's do. A longer stated length would make the source read past the slot; the model stops at its end. Cursors are unbounded (2^64 is a multiple of the 128 slots).
- HealthRuns.ConsecutiveIff: leaves out the step from DEGRADED to BLOCKED, which one sample takes (HealthRuns.DegradedBlocksAtOnce).
- Hysteresis.DwellsIff: for factors with which no payload brings the average to just 4096, only the lower bound Hysteresis.DwellsAtLeast is claimed.
- CostModel.NoiseNeverSwitches: the learned crossover, which no decision reads, is updated by Learning.Learner.Crossover and not by the decision.
- Other benchmarks, tests, scripts and documentation of the repository.
