# uDataPacketImportProxy: a verified model

The proxy takes seismic data packets from many publishers and hands them to many subscribers. Publishers push packets over
RPCs to the *frontend*, which validates them and puts them into a bounded import queue. One *propagator* thread takes
packets from that queue, drops those the *duplicate packet detector* does not allow, and gives the rest to the *backend*,
which copies each into a bounded queue per subscriber. A callback-driven *writer* per subscriber drains that queue onto the
wire. Every queue drops its oldest packet when it is full.

## What is proved

**The detector.** It remembers, per stream, a bounded ring of packet headers sorted by start time.
The ring is a class over an array; `allow` is proved equal, branch by branch, to the function `Rings.Feed`, and the theorems
are about every run of that function:

- The recorded history of a stream, evicted headers included, is pairwise disjoint in time *if and only if* no call met one
  guard: a packet reached the back-fill although a stored span lies strictly inside its own. The overlap scan looks only at
  the end points of the new packet, so such a packet is let in. `DetectorRuns.LongPacketAdmittedTwice` gives a run
  with two slots in which one packet is let through twice.
- Uniform streams (equal sample counts, equal rounded rate below 1005, durations within the tolerance) never meet that guard:
  there, at most once holds for every run and every capacity.
- As long as the guard is not met the ring is the window of latest start times of everything recorded.
- Streams are independent of one another, whatever is interleaved and whatever throws.
- A gap-free stream of packets of at least three samples is allowed in full, and calls throw only for a changed rounded rate
  or one of 1005 and more.
- A capacity estimated from a memory in seconds does remember that long, for packets not much shorter than the first.

**The pipeline.** Import queue, backend and the whole proxy are transition systems whose steps are the reads of flags, queue
operations and lock regions of the program; theorems hold in every state reached by any interleaving. The classes
`SubscriptionManager`, `AsynchronousWriter` and `Proxy` are proved against step functions, and `BackendRefinement` and
`ProxyRefinement` show that an undisturbed constructor, callback, fan-out or turn of the transition systems computes those.
The end-to-end theorem is `Pipeline.NoSubscriberSeesOverlap`.

**The frontend.** Accounting and cut-off of a publishing RPC over any sequence of reads, and the normal form of stream codes:
two identifiers, one of which has its name to itself, get one detector key exactly when they are variants of each other in
letter case and outer white space.

## Where the code does not do what one may expect

- A packet older than everything stored is recorded while there is room, yet `allow` returns false
  (src/duplicatePacketDetector.cpp:318-337). The expectation at testing/sanitizer.cpp:212-218, that packets shuffled into any
  order are all allowed, therefore depends on the shuffle: `BackFills.OutOfOrderArrival` shows that it is met exactly when the
  earliest packet comes first.
- A packet strictly around a stored one is admitted, and can be admitted twice: `StreamRuns.HistoryDisjointIff` gives the exact
  condition, `DetectorRuns.LongPacketAdmittedTwice` a run.
- Gap-free packets of one sample can be closer together than the tolerance, and then pass for duplicates:
  `DetectorRuns.OneSamplePacketsRefused`. `DetectorRuns.GapFreeStreamAllowed` gives the exact condition for packets of one size.
- Names do not always tell streams apart. An identifier shares its name, and so its ring, with some other identifier exactly
  if its network, station or channel holds a separator, or its location code begins or ends with one or holds two in a row:
  `StreamNames.NameUnshared`. The other identifier may have empty codes, which the frontend refuses;
  `StreamNames.NameUnsharedAmongNamed` is the condition without those, for identifiers with separators at most in the location.
- When two publishers see the last free place of the import queue at once, the second loses its own, newest packet, not the
  oldest. This can happen for every capacity, and exactly if two publishers may be inside the callback at once:
  `ImportQueue.RefusalsNeedTwo`.
- The limit on subscribers is checked before and apart from the subscription. With at most T constructors at a time it can be
  overshot by exactly T - 1: `AdmissionRuns.MostSubscribers`, `AdmissionRuns.LimitIffSerial`.
- `OnDone` of a publishing RPC lowers the number of publishers even if the RPC was refused before it was counted
  (src/frontend.cpp:99-107, 282-284). `PublisherCounts.CountDrifts` gives the drift; every refusal that ends lets one more
  publisher in, and the maximum holds in every run exactly without refusals and races: `PublisherCounts.LimitIffNoneRefused`.

## Layout

| file | content |
|---|---|
| Packets.dfy, StreamNames.dfy, Rings.dfy | headers and their comparison; stream names; one call of the detector on one ring |
| StreamRuns.dfy, AtMostOnce.dfy, Verdicts.dfy, Arrivals.dfy, BackFills.dfy | all runs of one stream |
| CircularBuffers.dfy, Detectors.dfy, DetectorRuns.dfy, Rates.dfy, Memories.dfy | the ring as a class, the detector as a class, all runs of all streams; exceptions; how much is remembered |
| Streams.dfy, Writers.dfy | subscriber queues, the subscription manager and the writer as classes |
| BackendRuns.dfy, BackendInvariants.dfy, BackendTheorems.dfy, AdmissionRuns.dfy, BackendRefinement.dfy | the backend as a transition system |
| ImportQueue.dfy, Proxies.dfy, Pipeline.dfy, ProxyRefinement.dfy | the import queue, the propagator, and everything together |
| Codes.dfy, Frontends.dfy, PublisherCounts.dfy | the publishing RPC |
| Subsequences.dfy | order-preserving subsequences |

## Model

| member | source | states |
|---|---|---|
| StreamNames.NameUnshared | src/duplicatePacketDetector.cpp:29-40 | an identifier has its name to itself exactly when network, station and channel hold no separator and the location code neither begins nor ends with one nor holds two in a row |
| StreamNames.ToNameInjective | src/duplicatePacketDetector.cpp:29-40 | two identifiers have one name exactly when they are equal, as soon as one of them meets that condition, or neither has a separator before its location code |
| StreamNames.DottedCodesCollide | src/duplicatePacketDetector.cpp:29-40 | every identifier that does not meet the condition shares its name with another one |
| StreamNames.NameUnsharedAmongNamed | src/duplicatePacketDetector.cpp:29-40 | among identifiers without empty codes, one with separators at most in its location code has its name to itself exactly when location code and the separator before it nowhere go on after two separators in a row |
| Packets.Unpack | src/duplicatePacketDetector.cpp:69-91 | a header exists exactly for packets with a positive rate and at least one sample; start and sample count are the packet's, its rate is the nearest whole number, it ends no earlier than it starts and carries the stream's name |
| Packets.UnpackNominal | src/duplicatePacketDetector.cpp:82-86 | an observed rate within half a hertz of a whole number is taken for that number |
| Packets.EndTimeError | src/duplicatePacketDetector.cpp:48-63 | the computed end is within half a microsecond per sample of the exact time of the last sample |
| Packets.CompareExactly | src/duplicatePacketDetector.cpp:100-131 | headers of different streams are never equal; within one stream, different rates throw, different sample counts are never equal, and otherwise they are equal exactly if their starts are less than 15000, 4500, 2500 or 1500 microseconds apart, by class of rate; from 1005 on, and only then, the comparison throws |
| Packets.ToleranceBelowTwoSamples | src/duplicatePacketDetector.cpp:111-126 | in every class of rates the tolerance is less than two sample intervals of the observed rate |
| Packets.CompareSymmetric | src/duplicatePacketDetector.cpp:100-131 | the throwing, tolerant comparison does not depend on the order of its arguments, exceptions included |
| Packets.RoundedSecondsNearest | src/duplicatePacketDetector.cpp:143-146 | the estimated duration is the whole number of seconds nearest to what the samples last at the rounded rate, and at least one exactly if they last half a second |
| Packets.EstimateCapacity | src/duplicatePacketDetector.cpp:140-150 | at least 11 slots, whatever the first packet and the memory |
| Packets.EstimateCoversMemory | src/duplicatePacketDetector.cpp:140-150 | slots times rounded duration exceed 1.5 times the memory when the first packet rounds to at least a second |
| Packets.EstimateNotTooLarge | src/duplicatePacketDetector.cpp:140-150 | one slot fewer than estimated would not exceed 1.5 times the memory, unless it is the minimum of eleven |
| Rings.SortedInOrder | src/duplicatePacketDetector.cpp:361-366 | the sort puts start times in order |
| Rings.SortedPermutes | src/duplicatePacketDetector.cpp:361-366 | the sort keeps exactly the headers it was given |
| Rings.OrderedUnique | src/duplicatePacketDetector.cpp:361-366 | with distinct starts there is one sorted arrangement, so the result does not depend on how the library sorts |
| Rings.FindMeaning | src/duplicatePacketDetector.cpp:295-306 | the search finds nothing exactly when no stored header is equal and none makes the comparison throw; otherwise some stored header accounts for its result |
| Rings.FeedKeepsRing | src/duplicatePacketDetector.cpp:252-368 | every call on any ring keeps it non-empty, within capacity, strictly sorted by start, of one name and of the rate its first packet latched, with no two headers equal under the tolerance |
| Rings.FeedConserves | src/duplicatePacketDetector.cpp:252-368 | a call that does not record leaves the ring alone and is not allowed; one that records keeps every header except the front of a full ring |
| StreamRuns.RunInv | src/duplicatePacketDetector.cpp:252-368 | over any run: the ring invariant, ring size min(capacity, recorded), and recorded equals evicted plus stored as multisets |
| StreamRuns.RunChain | src/duplicatePacketDetector.cpp:307-367 | as long as no call straddles, every evicted span ends before every stored one starts and stored spans follow one another |
| StreamRuns.HistoryDisjointIff | src/duplicatePacketDetector.cpp:318-367 | everything ever recorded, evicted or not, is pairwise disjoint exactly when no call of the run straddles a stored span on its way into the back-fill |
| StreamRuns.LatestWindow | src/duplicatePacketDetector.cpp:307-367 | as long as no call straddles, the ring is the recorded headers of latest start, in order, for append, front insert and back-fill alike, and the evicted ones are the rest, in order; their number is that of RunInv |
| StreamRuns.FrontNeverDecreases | src/duplicatePacketDetector.cpp:307-367 | as long as no call straddles, the front of a full ring never moves back in time |
| AtMostOnce.StraddleIsDuplicate | src/duplicatePacketDetector.cpp:100-131 | among uniform packets, one strictly around another is its duplicate under the tolerance |
| AtMostOnce.UniformNeverStraddles | src/duplicatePacketDetector.cpp:294-354 | no run over a uniform stream meets the failing guard |
| AtMostOnce.UniformHistory | src/duplicatePacketDetector.cpp:252-368 | for a uniform stream, any run, any capacity: all recorded spans, evicted ones included, are pairwise disjoint and their starts at least the tolerance apart |
| AtMostOnce.LongPacketAllowedTwice | src/duplicatePacketDetector.cpp:339-367 | a run of five headers on two slots in which one is allowed twice, so some hypothesis is needed |
| DetectorRuns.LongPacketAdmittedTwice | src/duplicatePacketDetector.cpp:339-367 | the same with packets, through the whole detector: five packets of one stream at 100 samples a second, all let through, one of them twice |
| Verdicts.AllowedRule | src/duplicatePacketDetector.cpp:294-367 | on a ring of consecutive spans, "allowed" equals the order-free rule "no equal header stored, no stored span shared, later than some stored start" exactly on the calls that do not straddle |
| Verdicts.RecordedButRejected | src/duplicatePacketDetector.cpp:317-337 | recorded yet refused: exactly the clear packets that are older than everything stored while there is room |
| Verdicts.ThrowsRule | src/duplicatePacketDetector.cpp:294-306 | a call throws exactly when comparing with some stored header does, wherever that header is, and then leaves the ring alone |
| Arrivals.InOrderAccepted | src/duplicatePacketDetector.cpp:294-316 | packets arriving after each other's end at one rate below 1005 are all allowed if their starts are the tolerance apart, for any length and capacity; for equal sample counts, only if |
| Arrivals.GapFreeInOrder | src/duplicatePacketDetector.cpp:48-63 | a gap-free successor starts after the computed end while drift and rounding stay under one sample interval |
| Arrivals.FullRingCoversMemory | src/duplicatePacketDetector.cpp:140-150 | a full ring of estimated capacity, in a run that never straddles, reaches over at least the configured memory if its packets last at least two thirds of the first one's rounded duration |
| Arrivals.StoredNotRecordedAgain | src/duplicatePacketDetector.cpp:294-306 | a stored header is never recorded or allowed again |
| Arrivals.RepeatWithinMemoryRefused | src/duplicatePacketDetector.cpp:259-306 | under the same conditions, a recorded packet that started within the configured memory of the newest end is refused when it comes again |
| BackFills.OutOfOrderArrival | src/duplicatePacketDetector.cpp:317-367 | disjoint, distinguishable packets, no more than there are slots, in any order: all recorded, none evicted, the ring ends sorted; all allowed exactly when the earliest comes first |
| CircularBuffers.CircularBuffer.PushBack | src/duplicatePacketDetector.cpp:314-314 | appending to the array ring; on a full one the front is overwritten |
| CircularBuffers.CircularBuffer.PushFront | src/duplicatePacketDetector.cpp:324-324 | prepending to a ring with room |
| CircularBuffers.CircularBuffer.Find | src/duplicatePacketDetector.cpp:295-299 | the linear search stops at the first header that is equal or throws |
| CircularBuffers.CircularBuffer.Slips | src/duplicatePacketDetector.cpp:339-354 | true exactly when an end point of the packet falls into some stored span |
| CircularBuffers.CircularBuffer.Sort | src/duplicatePacketDetector.cpp:361-366 | sorts the wrapped-around ring in place into the sorted sequence of its contents |
| Detectors.SubmitKeepsSound | src/duplicatePacketDetector.cpp:252-368 | every call keeps the ring invariant for every stream |
| Detectors.SubmitFrame | src/duplicatePacketDetector.cpp:252-368 | a call that throws or does not record leaves all rings unchanged, and no call touches another stream's ring |
| Detectors.DuplicatePacketDetector.constructor | src/duplicatePacketDetector.cpp:391-425 | starts without rings, sized by a slot count of at least one or by a memory |
| Detectors.DuplicatePacketDetector.Allow | src/duplicatePacketDetector.cpp:252-368 | verdict and all rings afterwards are those of the specification function, and the rings stay sound and unshared |
| Detectors.DuplicatePacketDetector.AllowIn | src/duplicatePacketDetector.cpp:294-367 | the branches of `allow` on the array ring of a known stream |
| Detectors.DuplicatePacketDetector.AllowPacket | src/duplicatePacketDetector.cpp:463-480 | a packet without a header is refused and changes nothing |
| DetectorRuns.StreamsIndependent | src/duplicatePacketDetector.cpp:258-306 | for any mixed sequence, exceptions included, the verdicts and the final ring of a stream are those of the stream alone |
| DetectorRuns.AdmittedDisjoint | src/duplicatePacketDetector.cpp:252-368 | if every stream's recorded history is disjoint, the packets let through never overlap within a stream |
| DetectorRuns.UniformAdmittedDisjoint | src/duplicatePacketDetector.cpp:252-368 | uniform streams in, any number, interleaved in any way: packets let through never overlap within a stream |
| DetectorRuns.GapFreeStreamAllowed | src/duplicatePacketDetector.cpp:294-316 | a gap-free stream is allowed in full if its starts are the tolerance apart, whatever other streams do; for equal sample counts, exactly then |
| DetectorRuns.GapFreeStreamAllowedInFull | src/duplicatePacketDetector.cpp:294-316 | a gap-free stream of packets of at least three samples at a rounded rate below 1005 is allowed in full, with no condition on starts |
| DetectorRuns.OneSamplePacketsRefused | src/duplicatePacketDetector.cpp:109-114 | of two gap-free packets of one sample each at 100 samples a second, the second is refused |
| Rates.RateLatched | src/duplicatePacketDetector.cpp:84-84 | everything a stream's ring ever holds has the rate of its first packet |
| Rates.NoThrowIff | src/duplicatePacketDetector.cpp:103-108 | a stream that begins at a rate below 1005 never makes a call throw exactly if all its packets have the same rounded rate |
| Rates.SteadyNeverThrows | src/duplicatePacketDetector.cpp:82-108 | any number of streams in any order, unreadable packets among them: if the observed rates of each stream stay within half a hertz of one whole number below 1005, no call throws |
| Rates.UnreadableRefused | src/duplicatePacketDetector.cpp:463-478 | packets without a header are refused, whatever comes before them |
| Memories.SlotsHold | src/duplicatePacketDetector.cpp:262-276 | with a fixed number of slots, each stream's ring has that many and holds as many of its recorded headers as fit |
| Memories.FullRingRemembers | src/duplicatePacketDetector.cpp:140-150 | the detector, told to remember a time: a full ring reaches over at least that time, if it never straddled, the stream's first packet lasts half a second, and stored ones last a third of a second more than two thirds of it |
| Memories.RepeatRefused | src/duplicatePacketDetector.cpp:259-306 | under these conditions, a packet that was recorded and started within that time of the newest end is refused when it comes again, and nothing changes |
| Streams.PacketStream.EnqueuePacket | src/backend.cpp:83-110 | drop-oldest: the new queue, and one packet reported lost exactly if the queue was full |
| Streams.PacketStream.DequeuePacket | src/backend.cpp:111-123 | takes the front, if there is one |
| Streams.SubscriptionManager.Subscribe | src/backend.cpp:173-213 | adds an empty queue for a new address while running, leaves an existing one, and fails with no change if inserting a new one throws |
| Streams.SubscriptionManager.Unsubscribe | src/backend.cpp:216-239 | removes the address, or does nothing once stopped |
| Streams.SubscriptionManager.EnqueuePacket | src/backend.cpp:242-275 | one copy to every subscriber, and the number of subscribers that lost a packet |
| Streams.SubscriptionManager.GetNextPackets | src/backend.cpp:278-318 | up to the maximum from the caller's own queue, oldest first, and an error for an unknown caller |
| Streams.BatchSplits | src/backend.cpp:293-304 | what is taken followed by what stays is the queue, and as many are taken as there are, up to the maximum |
| Writers.LoadedLosesNothing | src/backend.cpp:516-529 | moving at most 128 packets into an empty write queue never reaches the branch that pops |
| Writers.PumpOutcome | src/backend.cpp:494-557 | a quiet writer that is pumped finishes as cancelled, finishes in good order, writes the first packet waiting or arms the alarm, each exactly when; packets only move from stream to write queue, as many as there are up to 128 |
| Writers.WriteOutcome | src/backend.cpp:433-451 | with what status a failed write finishes the RPC; after a good one, all packets but the one sent still wait, in order |
| Writers.ConstructorOutcome | src/backend.cpp:355-423 | which constructor is turned away with which status, and that every other one is subscribed |
| Writers.AsynchronousWriter.constructor | src/backend.cpp:332-424 | authentication, limit, subscription and its failure, and first pump, with the state that ConstructorStages finds in the transition system |
| Writers.AsynchronousWriter.Pump | src/backend.cpp:494-557 | finish, write or arm the alarm, with the queue and the back-off that go with it |
| Writers.AsynchronousWriter.OnWriteDone | src/backend.cpp:433-451 | a failed write finishes the RPC, a good one pops the front and pumps, with the state that WriteStages finds in the transition system |
| Writers.AsynchronousWriter.OnAlarm | src/backend.cpp:555-556 | the alarm pumps again |
| Writers.AsynchronousWriter.FinishUp | src/backend.cpp:559-566 | leaves the manager if subscribed, then finishes |
| Writers.AsynchronousWriter.OnDone | src/backend.cpp:456-474 | leaves the manager if still subscribed |
| BackendRuns.ResumeInv | src/backend.cpp:539-557 | the end of a pump leaves one continuation, a front that matches the write, and the next wait of the back-off |
| BackendRuns.AnsweredInv | src/backend.cpp:433-451 | the pop after a write removes exactly the packet that was sent |
| BackendInvariants.InsertEvent | src/backend.cpp:173-213 | an address about to be inserted is never in the map already |
| BackendInvariants.DequeueEvent | src/backend.cpp:278-305 | dequeuing keeps every subscriber's history, and the stream found is the caller's own |
| BackendInvariants.FanOutEvent | src/backend.cpp:242-275 | a fan-out keeps every subscriber's conservation, whatever its queue loses |
| BackendInvariants.DoneEvent | src/backend.cpp:456-461 | OnDone always finds the writer unsubscribed: its last attempt to leave the manager never does anything |
| BackendInvariants.ReachedInv | src/backend.cpp:129-588 | the invariant holds in every state of every interleaving |
| BackendTheorems.ContinuationDiscipline | src/backend.cpp:487-566 | exactly one of callback, write, alarm and Finish is outstanding; Finish is called at most once; the front of a queue with a write in flight is what was written; a deleted writer has nothing pending |
| BackendTheorems.WriterLossless | src/backend.cpp:447-450 | what was dequeued is what was sent followed by the write queue, which never exceeds 128 and is empty at each dequeue |
| BackendTheorems.IdleBackOff | src/backend.cpp:541-556 | the wait armed at the k-th idle pump in a row is min(10 * 2^k, 250) ms |
| BackendTheorems.RegistrationExact | src/backend.cpp:173-239 | until the stop, the map's addresses are exactly those of writers between insertion and removal, each under its own, and none of them has finished |
| BackendTheorems.NoForeignPackets | src/backend.cpp:278-305 | the stream a writer dequeues from was created for that writer |
| BackendTheorems.SentInOrder | src/backend.cpp:541-546 | stopped or not, what a subscriber was sent is an order-preserving part of the fan-out since it joined |
| BackendTheorems.SubscriberConservation | src/backend.cpp:83-123 | sent, write queue and stream queue together are an order-preserving part of the fan-out since joining, shorter by exactly the stream's losses, and equal to it without losses |
| BackendTheorems.QueueIsNewest | src/backend.cpp:83-110 | whatever a stream lost, its queue is always the newest packets of the fan-out, in order |
| BackendTheorems.AdmissionBound | src/backend.cpp:380-402 | with at most T constructors at a time, subscribers plus constructors past the check never exceed max - 1 + T |
| AdmissionRuns.RaceOvershoots | src/backend.cpp:380-402 | for every limit and every T, a run from an idle backend, never with more than T constructors at a time, that ends with max - 1 + T subscribers |
| AdmissionRuns.MostSubscribers | src/backend.cpp:380-402 | max - 1 + T is the most subscribers that T constructors at a time can bring about |
| AdmissionRuns.LimitIffSerial | src/backend.cpp:380-402 | the limit holds in every run with at most T constructors at a time exactly if T is at most one |
| BackendTheorems.TakenStep | src/backend.cpp:380-402 | only the check lets the room taken grow, and only below the limit |
| BackendRefinement.PumpStages | src/backend.cpp:494-566 | an undisturbed pump of the transition system leaves writer and queues as the class's pump does |
| BackendRefinement.PumpProgress | src/backend.cpp:511-556 | an undisturbed pump of a running server, not cancelled, puts the first waiting packet on the wire, or arms the alarm if none waits |
| BackendRefinement.FanOutIsEnqueue | src/backend.cpp:242-275 | a fan-out of the transition system is the manager's, and each stream's loss count is its share of the reported losses |
| BackendRefinement.LeaveStages | src/backend.cpp:559-566 | leaving and finishing, undisturbed, is the class's FinishUp |
| BackendRefinement.WriteStages | src/backend.cpp:433-451 | an answered write, failed or not, and what follows it, undisturbed, is the class's OnWriteDone |
| BackendRefinement.AlarmStages | src/backend.cpp:555-556 | an alarm that fires, undisturbed, is the class's OnAlarm |
| BackendRefinement.DoneStage | src/backend.cpp:456-461 | the end of an RPC leaves the queues as the class's OnDone does |
| BackendRefinement.ConstructorStages | src/backend.cpp:355-423 | connecting, checking, subscribing with or without a failure, and the first pump, undisturbed, are the class's constructor |
| ImportQueue.PublisherConservation | src/proxy.cpp:76-110 | for each publisher, in every reachable state: submitted equals queued, evicted, refused, taken and in the callback, as multisets; the queue stays within capacity; what was taken is an order-preserving part of what was submitted |
| ImportQueue.TakenInOrder | src/proxy.cpp:119-122 | the order-preserving part, from the invariant |
| ImportQueue.QueueIsNewest | src/proxy.cpp:80-101 | whatever was evicted or taken, the queue is always the newest packets pushed, in order |
| ImportQueue.AloneNeverRefused | src/proxy.cpp:80-101 | in a run where publishers are inside the callback one at a time, nothing is ever refused |
| ImportQueue.TwoPublishersOneRefused | src/proxy.cpp:80-101 | for every capacity, a run from the empty queue in which two publishers see the last free place: the second loses its own packet and nothing is evicted |
| ImportQueue.RefusalsNeedTwo | src/proxy.cpp:80-101 | for every capacity, no run with at most T publishers inside the callback at a time refuses a packet exactly if T is at most one |
| Proxies.Proxy.AddPacketCallback | src/proxy.cpp:76-110 | with nobody else in the callback, drop-oldest on the import queue |
| Proxies.Proxy.PropagatePacketsToBackend | src/proxy.cpp:112-169 | that many turns of the loop leave queue, rings and subscriber queues as specified |
| ProxyRefinement.CallbackStages | src/proxy.cpp:76-110 | reading the size, popping and pushing, undisturbed and from any state of the import queue, are the drop-oldest of the class, and nothing is refused |
| ProxyRefinement.TurnStages | src/proxy.cpp:119-162 | taking, checking and forwarding, undisturbed, is one turn of the class's loop |
| Proxies.PropagatesAdmitted | src/proxy.cpp:119-162 | with a fresh detector, the turns forward exactly the packets the detector admits, in order, and take the others off the queue |
| Proxies.PropagatesEverything | src/proxy.cpp:119-162 | without a detector, the turns forward every packet, in order |
| Pipeline.ReachedInv | src/proxy.cpp:76-169 | over any interleaving of publishers, propagator and backend, the detector's rings are those of the packets asked about, and what was propagated or is in hand is what it admitted |
| Pipeline.PropagatedDisjoint | src/proxy.cpp:124-147 | with uniform streams submitted, no two propagated packets of a stream overlap |
| Pipeline.SentFromTaken | src/proxy.cpp:119-147 | filtered or not, a subscriber is sent an order-preserving part of what was taken from the import queue |
| Pipeline.NoSubscriberSeesOverlap | src/proxy.cpp:112-169 | end to end, over all interleavings: with the detector on and uniform streams, no subscriber is sent two packets of one stream that share an instant, and it is sent an order-preserving part of what was propagated |
| Codes.Normalise | src/frontend.cpp:169-187 | trimming in place and upper-casing letter by letter gives the normal form |
| Codes.SpacesAreWhite | src/frontend.cpp:168-183 | what is trimmed is space, tab, line feed, vertical tab, form feed and carriage return |
| Codes.UpperIffSame | src/frontend.cpp:169-185 | two characters have one capital form exactly if they are equal or the small and capital form of one letter of the alphabet |
| Codes.NormalIffVariants | src/frontend.cpp:167-187 | two codes have one normal form exactly when they are equal up to outer white space and, letter by letter, small and capital forms |
| Codes.NormalFixed | src/frontend.cpp:167-187 | a normal form is a variant of its code, trimmed, without small letters and a fixed point; it is empty exactly for blank codes |
| Codes.CanonicalFixed | src/frontend.cpp:188-201 | an identifier is refused exactly for a blank network, station or channel; the normal form of an accepted one has no empty part, is a variant of it code by code and a fixed point |
| Codes.OneKeyPerStream | src/frontend.cpp:167-201 | two accepted identifiers get one detector key exactly when they are variants code by code, an absent location counting as two dashes, as soon as the normal form of one of them has its name to itself, or neither has a separator before its location code |
| Frontends.Accounting | src/frontend.cpp:154-242 | over any sequence of requested reads: total is handed off plus rejected, rejected is invalid plus failed, handed-off packets are the delivered ones normalised and in order, and the response tells the totals exactly once reading has ended |
| Frontends.Ending | src/frontend.cpp:219-250 | which status a read finishes the RPC with, in terms of the invalid packets since the last delivery |
| Frontends.CutOff | src/frontend.cpp:219-229 | INVALID_ARGUMENT exactly if, at some read that was asked for, the invalid packets since the last delivery exceed the maximum |
| Frontends.RejectionsBounded | src/frontend.cpp:199-229 | rejections the proxy did not cause are bounded by the deliveries, and the counter never passes the maximum by more than one |
| Frontends.HandedPresentable | src/frontend.cpp:160-203 | every packet handed off can be unpacked to a header and has codes in normal form |
| Frontends.UsableExactly | src/frontend.cpp:161-189 | a packet is valid exactly if a header can be unpacked, its type is not unknown, and neither network nor station nor channel is blank |
| Frontends.HandedExactly | src/frontend.cpp:160-218 | a requested read hands over a packet exactly if it is valid and the callback does not throw; it is the packet read with its codes in normal form and nothing else changed, and any other packet is rejected |
| Frontends.AsynchronousReader.OnReadDone | src/frontend.cpp:154-257 | one read changes counters, response, status and handed-off packets as the specification says |
| PublisherCounts.CountDrifts | src/frontend.cpp:276-292 | while running, the counter is the publishers admitted and not gone, less the refused RPCs that have ended, and so is right exactly while there is none of those |
| PublisherCounts.LiveBound | src/frontend.cpp:98-151 | running or stopped, live publishers exceed max - 1 at most by the constructors that race past the check and the refused RPCs that have ended |
| PublisherCounts.RefusalsAdmitMore | src/frontend.cpp:98-151 | for every maximum, every number T of racing constructors and every number D of ended refusals, a run that ends with max - 1 + T + D live publishers |
| PublisherCounts.LimitIffNoneRefused | src/frontend.cpp:98-151 | with T >= 1 racing constructors and D ended refusals, the maximum holds in every run exactly if T is one and D is zero |

## Left out

- RPC transport, TLS and access tokens: events of the transition systems (connection, refusal, completed read or write, alarm, cancellation) that can happen at any time.
- Wall-clock time: sleeps and deadlines are steps without duration; the poll interval keeps its value.
- Logging, metrics, option classes, ini files and `main`: no behaviour the properties depend on.
- Payload bytes: an opaque number; the text protocol of the messages is not part of this model.
- Floating point: sampling rates are reals and rounding is exact; microsecond arithmetic is on unbounded integers, except that the sample count is 32-bit and wraps where the code subtracts one from zero; rates and times so large that a conversion to `int` or `int64_t` overflows are not modelled.
- Packets.EstimateCapacity: dividing by a rounded duration of zero converts infinity to `int`, which C++ leaves undefined; the value is a parameter here, and the memory theorems require a rounded duration of at least one second.
- Memories.FullRingRemembers: assumes stored packets not much shorter than the first one, because the capacity is fixed by the first packet; nothing is claimed for shorter ones.
- CircularBuffers.CircularBuffer.Sort: an insertion sort stands in for the library's sort, which is justified by `Rings.OrderedUnique`.
- Proxies.Proxy.AddPacketCallback: runs without other publishers inside; the interleaved case is the transition system of ImportQueue.
- Proxies.Proxy.PropagatePacketsToBackend: a given number of turns stands for the loop until the stop.
- Writers.AsynchronousWriter.OnWriteDone: the class runs each callback without interruption; interleavings are in the transition system.
- Frontends.AsynchronousReader.OnReadDone: counters are unbounded; the 64-bit totals of the code would wrap after 2^64 packets.
- BackendTheorems.RegistrationExact: covers the time up to the stop, since a stopped manager neither adds nor removes.
- StreamNames.NameUnsharedAmongNamed: says nothing of identifiers with a separator in network, station or channel, of which only `NameUnshared` speaks.
- PublisherCounts.CountDrifts: says nothing of the counter once the frontend has stopped, when it is set to zero and no longer lowered; reading the running flag and lowering the counter is one step.
- ImportQueue: operations of the concurrent queue are single steps of a FIFO; its internals are not modelled.
- Copying and moving a detector, and starting a proxy again after it was stopped.
