# Verified models of the platform's state machines

A CTF platform is mostly HTTP and SQL, but a few of its files hold small state
machines that make promises about whole runs. This project models them in Dafny
and proves those promises for every input, every interleaving and every crash.

| modules | what they model |
|---|---|
| `SpoolProtocol`, `Spool`, `LossCounters` | the event sensor's durable telemetry spool: a bounded on-disk FIFO that sheds its oldest batches and folds what they stood for into the newest one |
| `FlowTail`, `DnsQuestion`, `Utf8`, `FlagSightings`, `FlowAggregation`, `Batching`, `EventSensor`, `Observations` | the sensor's capture thread: scanning across packet boundaries, reading DNS questions, counting flows, collecting and sending batches, and what its rows say about the packets |
| `FlagDedup`, `CaptureProtocol`, `CaptureAccounting`, `EndToEnd` | the capture thread and the upload task as interleaved steps: which flags are on their way, and where every row went |
| `LocalLimiter`, `ShardedStore`, `StoreCeilings`, `StoreExactness` | the in-process rate limiter: sliding windows and token buckets in a sharded store that evicts idle partitions, and exactly when its ceilings hold |
| `RedisBucket`, `RedisStore`, `RedisExpiry`, `RedisBudget`, `RedisFixedWindow` | the limiter's Lua scripts, each one atomic step on Redis's clock |
| `InboundWindow`, `ConnectionPermits` | hub admission: the lock-free one-second window and the three-level connection permits |
| `LiveAuthorization` | the authorization cache whose staleness is bounded by its key |
| `ResumableUpdate` | the `update` and `backup` commands across crashes and retries |
| `Telemetry`, `Sums`, `Options` | shared data and finite sums |

Code that changes things step by step is modelled as classes and loops
(`Spool.DurableSpool`, `EventSensor.CaptureState`, `ShardedStore.Limiter`,
`RedisStore.Server`) whose methods are proved against
specification functions; the promises are then lemmas about those functions.
Code whose difficulty is concurrency or crashes is a state machine: `Enabled` and
`Apply` give one atomic step, `Exec` a whole run, and the promises hold of every
`Exec`. The spool class keeps a ghost log of its disk operations, and the capture
class one of its protocol steps, and both prove that their state is what the protocol
computes from that log.

Some results are about where the code stops keeping a promise. Each comes with a
concrete input and with the exact condition:

* The local sliding window's retry hint frees one slot. It is enough exactly when
  the hits that the wait expires leave room for the request
  (`LocalLimiter.SlidingRetryIff`), so always for cost one; `SlidingRetryCanFail`
  gives a request that is refused again.
* The local limiter reads the clock before it takes the shard lock, so calls may
  reach a shard out of order. Then a bucket refills the same second twice
  (`LocalLimiter.OutOfOrderOverAdmits`), a window pops hits too early
  (`SlidingOutOfOrderOverAdmits`), and a key whose own readings never go back can
  still be evicted by another key's later reading and start afresh
  (`StoreExactness.SweptOverAdmits`, 2,050 calls). The exact conditions, for given
  keys, readings and shards and over all policies and costs: every span of a bucket
  keeps its ceiling if and only if the key's own readings are in order and no call
  between two of them that can sweep reads later than the second (`BucketStoreIff`);
  a sliding window keeps its own over a span if and only if no reading of the key,
  and no reading of a call that can sweep before a later call for the key, is a
  window or more after an earlier reading of the key (`SlidingStoreIff`). A call can
  sweep when its shard has seen 2,048 keys. What a bucket admits in any order and
  with any sweeps is `StoreCeilings.StoreBudget`. The lemmas of `LocalLimiter` say
  the same of one partition that is never swept. The Redis bucket needs no such
  condition.
* The fixed-window script admits a call that finds its key in the very millisecond
  of its deadline, whatever the count, so the shared window can be exceeded by any
  amount (`RedisFixedWindow.DeadlineAdmitsAnything`). A key's ceiling, and that of a
  window-long interval, hold whatever is charged if and only if no call reads the
  clock at its key's deadline (`LifetimeCeilingIff`, `IntervalCeilingIff`). Apart
  from such calls an interval admits at most twice the permit minus one, which
  `CeilingIsReached` attains.
* A count map accepts the first holder of a key whatever the limit, so a limit of
  zero behaves like one (`ConnectionPermits.ZeroLimitAdmitsOne`), and every other
  limit is exact (`IncrementCounts`).
* The scanning tail of 126 bytes covers patterns up to 127 bytes and no longer ones
  (`FlowTail.LongerPatternsCanBeMissed`).

Two further bounds come from the width of counters. The per-game books of the sensor
balance as long as a signed 64-bit word can hold everything that ever entered, and
beyond that can only under-report (`CaptureAccounting.EveryGameBalances`,
`WordOverflowLosesRows`). The spool's books are exact up to the amount cut off at a
counter's cap, which is tracked as `spilled`.

## Model

| member | source | states |
|---|---|---|
| `LossCounters.BoundedLossCounter` | src/bin/event_sensor_spool.rs:255-260 | the counter is the exact sum of the clamped old value and the addition, cut at the maximum: neither the signed conversion nor the 64-bit saturation is ever visible |
| `LossCounters.MergeOne` | src/bin/event_sensor_spool.rs:234-271 | folding one batch adds exactly what it claims, a negative stored counter read as the largest word, and its file size plus reported bytes, each cut at its cap |
| `LossCounters.MergeAllIsCappedSum` | src/bin/event_sensor_spool.rs:234-271 | folding any list of sources one by one gives min(cap, initial + sum) in both counters and changes nothing else |
| `LossCounters.MergeAllOrder` | src/bin/event_sensor_spool.rs:234-271 | the order in which sources are folded does not matter |
| `LossCounters.MergeAllConserves` | src/bin/event_sensor_spool.rs:234-271 | folding loses no row except what the cap cuts off, which needs the counter to sit at its cap, and invents none unless a source has a negative counter |
| `SpoolProtocol.PrepareAccounts` | src/bin/event_sensor_spool.rs:64-71 | an offered batch is stored with its id, its game and all its rows if its encoding with both counters in range is at most 64 MiB, and otherwise as a report of exactly its rows and its encoded size; either way it stands for no more rows than it was, and for fewer only at a counter's cap |
| `SpoolProtocol.EveryMixtureSurvives` | src/bin/event_sensor_spool.rs:78-139 | a crash may leave every mixture of unsynced directory changes, name by name |
| `SpoolProtocol.SyncsMakeDurable` | src/bin/event_sensor_spool.rs:72-171 | directory changes are durable exactly after the directory sync that follows them, and a crash leaves what survives of them |
| `SpoolProtocol.StepsCount` | src/bin/event_sensor_spool.rs:64-171 | a batch's rows are booked once it is durable, be it by a sync or by a crash that left it, and a file as accepted the first time it is uploaded; a counter is called capped only if it is |
| `SpoolProtocol.RunsStepByStep` | src/bin/event_sensor_spool.rs:26-171 | runs go step by step from any directory |
| `SpoolProtocol.SurvivorsSuffice` | src/bin/event_sensor_spool.rs:78-139 | at every point of an enqueue or acknowledgement, whichever unsynced directory changes a crash keeps, every row made durable is in an accepted file, in a surviving file that is not accepted, or was cut off |
| `SpoolProtocol.StepConserves` | src/bin/event_sensor_spool.rs:64-171 | every disk operation, upload, failed acknowledgement and crash keeps the books |
| `SpoolProtocol.RunConserves` | src/bin/event_sensor_spool.rs:64-171 | so does every run from any directory, files with oversized or negative counters included |
| `SpoolProtocol.NoSilentLoss` | src/bin/event_sensor_spool.rs:64-171 | after any run, on any disk that a crash right now could leave: rows made durable are at most those of files the server accepted, each counted once however often it was uploaded, plus those of unaccepted files on that disk, unless a counter sits at its cap |
| `SpoolProtocol.CleanRunBalances` | src/bin/event_sensor_spool.rs:64-171 | without crashes, failed acknowledgements and negative counters the two sides are equal |
| `Spool.PlanShed` | src/bin/event_sensor_spool.rs:85-123 | the shed loop ends, sheds the fewest oldest batches that bring the queue within every limit, and gives up exactly when not even shedding all of them does |
| `Spool.EnqueueBounds` | src/bin/event_sensor_spool.rs:85-142 | what is left once a shed respects the limits, with the new batch, is at most 2,048 batches of 64 MiB together, and the front was written at most a day ago; `Enqueue` ensures this on success |
| `Spool.ShedsOnlyWhenNeeded` | src/bin/event_sensor_spool.rs:85-123 | no batch is shed that could have stayed, and an enqueue fails only if not even the new batch alone respects the limits |
| `Spool.EnqueueCounters` | src/bin/event_sensor_spool.rs:85-142 | the newest batch then carries exactly the capped sums of what was shed |
| `Spool.InsertSorted` | src/bin/event_sensor_spool.rs:55-60 | listing a directory in name order keeps the queue sorted |
| `Spool.DurableSpool.Open` | src/bin/event_sensor_spool.rs:26-62 | a reopened spool lists every surviving file once, by time stamp and then by batch id, with its exact size, and continues the crash protocol |
| `Spool.DurableSpool.Enqueue` | src/bin/event_sensor_spool.rs:64-143 | the queue becomes the longest admissible suffix of the old one plus the new batch, the shed files are gone, `bytes` is the sum of the sizes; the new file keeps the offered batch's id, game and rows if they fit and otherwise counts them as lost, and its counters are the capped sums of that, of the offered counters and of what was shed; on failure nothing is removed and the new batch stays |
| `Spool.DurableSpool.WriteBatch` | src/bin/event_sensor_spool.rs:72-83 | the new batch is renamed into place, with all its rows if they fit, and is durable before anything is shed |
| `Spool.DurableSpool.Replace` | src/bin/event_sensor_spool.rs:128-142 | the loss report is durable before any source is unlinked |
| `Spool.DurableSpool.UnlinkAll` | src/bin/event_sensor_spool.rs:136-139 | exactly the shed sources are unlinked, then the directory is synced |
| `Spool.DurableSpool.Front` | src/bin/event_sensor_spool.rs:145-154 | the oldest batch with its counters clamped, or nothing for an empty queue |
| `Spool.DurableSpool.AcknowledgeFront` | src/bin/event_sensor_spool.rs:156-170 | removes the oldest batch exactly when it is the acknowledged one; a failed unlink changes nothing, a failed directory sync leaves it removed |
| `Spool.DurableSpool.DrainOne` | src/bin/event_sensor_spool.rs:324-377 | a batch counts as done exactly when the server accepted it and its acknowledgement went through, and leaves the queue exactly when its file was unlinked |
| `Spool.DurableSpool.DrainSpool` | src/bin/event_sensor_spool.rs:358-377 | uploads in order from the front, at most sixteen, stops at the first attempt that is not acknowledged and says why |
| `FlowTail.AppendTail` | src/bin/rsctf-event-sensor.rs:372-383 | the tail becomes the last min(126, length) bytes of the old tail and the payload |
| `FlowTail.LastOfAppend` | src/bin/rsctf-event-sensor.rs:372-383 | which are the last bytes of the whole stream, so cutting it into packets does not matter |
| `EventSensor.CaptureState.ScanPacket` | src/bin/rsctf-event-sensor.rs:480-523 | the matcher gets exactly the end of what the flow carried before, followed by the payload; the hits that are other teams' flags are offered to the tracker in order, refused ones are one recorded loss, and the tail moves on |
| `FlagSightings.RelevantTells` | src/bin/rsctf-event-sensor.rs:487-509 | one sighting, in order, for each hit of the peer's game that belongs to another participation, and none for any other hit; each carries the hit's owner, challenge and value hash, the peer, the transport (0 for TCP), the direction (0 for outbound) and the time |
| `FlagSightings.ToldIsUnique` | src/bin/rsctf-event-sensor.rs:487-509 | this determines the sightings |
| `FlowTail.EveryOccurrenceIsSeen` | src/bin/rsctf-event-sensor.rs:372-383 | for every cutting into packets, an occurrence of a pattern of at most 127 bytes is in the buffer of the packet that carries its last byte, at the place it has in the flow |
| `FlowTail.EverySightIsReal` | src/bin/rsctf-event-sensor.rs:484-486 | nothing is in a buffer that the flow did not carry |
| `FlowTail.ScanningPacketsIsScanningTheFlow` | src/bin/rsctf-event-sensor.rs:484-514 | so scanning packet by packet sees a pattern if and only if the whole flow contains it |
| `FlowTail.LongerPatternsCanBeMissed` | src/bin/rsctf-event-sensor.rs:44-44 | every longer pattern is missed by some cutting |
| `DnsQuestion.NameIsUnique` | src/bin/rsctf-event-sensor.rs:352-368 | a message has at most one reading as a list of labels |
| `DnsQuestion.ParseDnsQuestion` | src/bin/rsctf-event-sensor.rs:344-370 | never reads outside the payload, ends on every input, and returns a name exactly when the payload is a query that has one, and then that name |
| `DnsQuestion.RoundTrip` | src/bin/rsctf-event-sensor.rs:344-370 | 1 to 32 UTF-8 labels of 1 to 63 bytes, encoded as in section 4.1.2 of RFC 1035, parse to the dot-joined name, over UDP and behind the TCP length |
| `DnsQuestion.OnlyQueriesHaveNames` | src/bin/rsctf-event-sensor.rs:345-351 | a name is read only behind at least 12 bytes of header without the response bit and with a question count that is not zero |
| `DnsQuestion.SplitJoin` | src/bin/rsctf-event-sensor.rs:352-370 | the reported name gives back its labels if none of them contains a dot |
| `Utf8.ValidIffText` | src/bin/rsctf-event-sensor.rs:352-368 | the labels accepted are exactly the encodings of Unicode text, as section 3 of RFC 3629 writes them |
| `FlowAggregation.AggregateStep` | src/bin/rsctf-event-sensor.rs:537-575 | folding one more completed flow keeps every row the capped sum of its slot's flows, and flows that are not reported change nothing |
| `Batching.BuiltIsCollected` | src/bin/rsctf-event-sensor.rs:615-629 | the finished batches carry all pending flags, in order, and report all pending losses, and exist for every game that has either |
| `CaptureProtocol.FlagsOfInOrder` | src/bin/rsctf-event-sensor.rs:615-621 | a game's flags are those of its pending sightings, each once and in order |
| `EventSensor.CaptureState.RecordDrop` | src/bin/rsctf-event-sensor.rs:240-246 | the game's pending losses grow by the loss, saturating, and no other game's change |
| `CaptureProtocol.RecordDropIs` | src/bin/rsctf-event-sensor.rs:240-246 | rows and bytes of a loss are added to its own game's books, each stopping at the largest word |
| `EventSensor.CaptureState.TrackFlag` | src/bin/event_sensor_flag_dedup.rs:25-41 | a sighting is queued exactly when its key is new and the set has room; otherwise nothing changes |
| `FlagDedup.SameKeyIff` | src/bin/event_sensor_flag_dedup.rs:15-23 | two sightings share a key exactly if game, peer, value hash, transport and direction agree |
| `FlagDedup.TrackIs` | src/bin/event_sensor_flag_dedup.rs:25-41 | a sighting is queued exactly when its key is new and fewer than 65,536 are in use, and then it and its key are all that is added |
| `FlagDedup.TrackAllIs` | src/bin/event_sensor_flag_dedup.rs:25-41 | offering any list of sightings queues one flag per new key and refuses exactly those whose keys are not in use afterwards, which needs a full set |
| `EventSensor.CaptureState.ReleaseFlagDedup` | src/bin/event_sensor_flag_dedup.rs:43-47 | removes exactly the given keys |
| `EventSensor.CaptureState.ReleaseAcknowledgedFlags` | src/bin/event_sensor_flag_dedup.rs:49-56 | empties the acknowledgement channel and removes exactly the keys in it |
| `EventSensor.CaptureState.AggregateFlows` | src/bin/rsctf-event-sensor.rs:530-575 | takes exactly the completed flows out of the table; one row per slot with a reported flow, whose counters are the capped sums and whose activity is that of the longest flow |
| `EventSensor.CaptureState.FoldCompleted` | src/bin/rsctf-event-sensor.rs:530-575 | the loop over the completed flows in any order leaves the table with exactly the others and every row with the sums of its slot |
| `EventSensor.CaptureState.EmitFlows` | src/bin/rsctf-event-sensor.rs:576-589 | every row gets its slot's number of distinct destinations, which are then forgotten |
| `EventSensor.CaptureState.EmitDns` | src/bin/rsctf-event-sensor.rs:590-614 | every completed DNS bucket is reported once, with its count and its first and last sighting, and leaves the table |
| `EventSensor.CaptureState.EmitFlags` | src/bin/rsctf-event-sensor.rs:615-621 | all pending flags go into their games' batches, in order |
| `EventSensor.CaptureState.EmitDrops` | src/bin/rsctf-event-sensor.rs:622-628 | all pending losses are reported and none stays |
| `EventSensor.CaptureState.CompletedBatches` | src/bin/rsctf-event-sensor.rs:526-630 | whatever order the hash maps yield: one batch per game, one row per (game, peer, bucket) with the totals of its flows, all flags, all losses, and the tables left with exactly the rest |
| `EventSensor.RowsCountPackets` | src/bin/rsctf-event-sensor.rs:419-442 | each packet and byte counter of a reported row is the capped sum over all raw packets that the slot's flows carried, although flow and row saturate separately |
| `Observations.RowTotals` | src/bin/rsctf-event-sensor.rs:431-442 | said field by field: packets and bytes sent and received by the slot's flows |
| `Observations.RowConnections` | src/bin/rsctf-event-sensor.rs:408-419 | the number of connections is that of the slot's flows that began with a UDP packet or a SYN |
| `Observations.RowActivity` | src/bin/rsctf-event-sensor.rs:537-575 | its activity is that of the longest flow: whole seconds from its first to its last packet, both included, between 1 and 300 |
| `Observations.FlowRowsTell` | src/bin/rsctf-event-sensor.rs:526-589 | every reported row is about a watched slot of its own game whose interval is over, and counts the slot's distinct remote ends |
| `Observations.DnsRowsTell` | src/bin/rsctf-event-sensor.rs:590-614 | every listed DNS row has the peer, number of queries and times of first and last query of a count whose interval is over, no two in a batch are about the same, and every such count is listed |
| `Observations.BucketHolds` | src/bin/rsctf-event-sensor.rs:340-342 | an instant lies in the interval that its bucket starts |
| `Observations.SameFlowIff` | src/bin/rsctf-event-sensor.rs:399-407 | packets belong to one flow exactly if game, peer, remote end, port and protocol agree and they fall into the same five minutes |
| `Observations.SameDnsIff` | src/bin/rsctf-event-sensor.rs:450-462 | queries are counted together exactly if game, peer and category agree and they fall into the same quarter of an hour |
| `Observations.TakenWhenOver` | src/bin/rsctf-event-sensor.rs:526-534 | a flush takes a flow or a DNS count exactly if its interval is over |
| `Observations.LookedAtIff` | src/bin/rsctf-event-sensor.rs:399-450 | which packets are looked at, which new flows are turned away, and which packets are read as queries |
| `Observations.PacketEffects` | src/bin/rsctf-event-sensor.rs:399-524 | what a counted packet changes in the destinations, the DNS counts and the scanned payloads, and that one without a place is one lost row with the bytes of its payload |
| `Observations.NotedAllIs` | src/bin/rsctf-event-sensor.rs:443-453 | the remote ends kept for a slot are the distinct ones of all its packets, as far as 1,024 |
| `Observations.DnsCountedAllIs` | src/bin/rsctf-event-sensor.rs:450-474 | a DNS count is the number of its queries, cut at the counter's width, with the times of the first and the last |
| `EventSensor.AddPacket` | src/bin/rsctf-event-sensor.rs:431-442 | a packet adds one packet and its length to the counters of its direction, each stopping at the largest signed word, and leaves all others |
| `EventSensor.CaptureState.InspectPacket` | src/bin/rsctf-event-sensor.rs:385-524 | a packet is counted in exactly one flow, or is a recorded loss when the full table has no room for a new flow; its DNS question and the hits in its buffer are handled as above, said of the flow's raw payloads and without naming how hits are filtered; all tables stay within their limits |
| `EventSensor.CaptureState.QueueMatches` | src/bin/rsctf-event-sensor.rs:487-513 | the tracker is offered, in order, one sighting for each hit of the game on another team's flag and none for any other, and the number refused for capacity is returned |
| `EventSensor.CaptureState.BooksAreKept` | src/bin/rsctf-event-sensor.rs:667-757 | after any sequence of calls of the methods that log their steps (all but `RecordDrop`, `TrackFlag` and `ReleaseFlagDedup`, which those methods call) the state is what the protocol computes from the log, so the seen keys are exactly those on their way and every game's books balance |
| `CaptureProtocol.TrimKeepsWhatFits` | src/bin/rsctf-event-sensor.rs:645-665 | trimming keeps min(4096, rows) rows, a prefix of every list, and gives up a list only when those before it fill the batch |
| `EventSensor.TrimBatch` | src/bin/rsctf-event-sensor.rs:645-665 | truncates list after list and returns exactly the number of rows given up |
| `EventSensor.CaptureState.SendBatch` | src/bin/rsctf-event-sensor.rs:720-753 | the batch is taken exactly when the channel is open and has room; trimmed flags are released and counted, and a refused batch becomes a recorded loss of all its rows with all its keys released |
| `CaptureProtocol.OnlyRefusedIsLost` | src/bin/rsctf-event-sensor.rs:720-753 | offering changes no pending flag; a batch that is taken changes no losses, and a refused one adds all its rows, trimmed ones included, and the bytes it reported to its own game's |
| `EventSensor.CaptureState.Flush` | src/bin/rsctf-event-sensor.rs:719-755 | everything collected is offered once and in turn, whatever the upload task does between two offers |
| `EventSensor.CaptureState.UploadStep` | src/bin/rsctf-event-sensor.rs:971-973 | the upload task receives the oldest batch, and acknowledges its flag keys once it is in the spool |
| `CaptureProtocol.FlushIgnoresUpload` | src/bin/rsctf-event-sensor.rs:719-754 | however the upload task interleaves with a flush, the capture thread ends up where it would have alone |
| `CaptureProtocol.BatchesHoldTheFlags` | src/bin/rsctf-event-sensor.rs:615-621 | splitting the pending flags by game loses and repeats none |
| `CaptureProtocol.StepKeepsExact` | src/bin/rsctf-event-sensor.rs:719-754 | every step of either task keeps the set of seen keys equal to the multiset union of all keys on their way |
| `CaptureProtocol.RunKeepsExact` | src/bin/event_sensor_flag_dedup.rs:25-56 | in every interleaving the seen keys are exactly the disjoint union of pending, collected, queued, spooling and acknowledged ones, and at most 65,536 |
| `CaptureProtocol.RunsStepByStep` | src/bin/rsctf-event-sensor.rs:667-757 | runs go step by step from a sensor that has seen nothing; sightings, losses, releases and the start of a flush are possible whenever no flush is going on, a refusal always and a taking whenever the channel has room in one, and the upload task's steps meanwhile |
| `CaptureProtocol.DuplicateIffOnItsWay` | src/bin/event_sensor_flag_dedup.rs:25-41 | no flag is on its way twice, and a sighting is a duplicate if and only if its flag is on its way |
| `CaptureProtocol.QuietForgetsAll` | src/bin/event_sensor_flag_dedup.rs:43-56 | when nothing is on its way no key is remembered |
| `CaptureAccounting.OutgoingRows` | src/bin/rsctf-event-sensor.rs:726-752 | a trimmed batch, and a refused one's recorded loss, stand for all rows of the batch as long as a signed word can hold them, and never for more |
| `CaptureAccounting.StepBalances` | src/bin/rsctf-event-sensor.rs:526-665 | every step keeps every game's books |
| `CaptureAccounting.EveryGameBalances` | src/bin/rsctf-event-sensor.rs:719-754 | per game and over any run: rows produced plus losses recorded equal rows handed over plus the losses they report plus what is still in the sensor, as long as a signed word can hold them, and never less |
| `CaptureAccounting.WordOverflowLosesRows` | src/bin/rsctf-event-sensor.rs:622-628 | a recorded loss beyond a signed word is cut off when it is attached to a batch |
| `EndToEnd.OfferedIsEnqueued` | src/bin/event_sensor_spool.rs:354-356 | in one life of the process the spool's enqueued rows are those of the batches it was given |
| `EndToEnd.NothingVanishes` | src/bin/rsctf-event-sensor.rs:961-979 | over one life of the process, failed acknowledgements included and also while a batch is being written, rows that entered plus rows on disk before are at most those in the sensor, in accepted files, in unaccepted files, or cut off at a cap, a batch just being written counted once; with every acknowledgement through they are equal |
| `LocalLimiter.CeilSecs` | src/middlewares/rate_limiter.rs:262-269 | the least whole number of seconds that is at least one and not too short |
| `LocalLimiter.DropExpiredIsSuffix` | src/middlewares/rate_limiter.rs:179-186 | popping from the front removes exactly the hits outside the window |
| `LocalLimiter.DecideKeepsOrder` | src/middlewares/rate_limiter.rs:153-225 | partitions stay sorted and within the permit, buckets within capacity |
| `LocalLimiter.SlidingAdmitsIff` | src/middlewares/rate_limiter.rs:178-200 | in clock order a window admits a request exactly if the hits younger than the window leave room for it, and then holds those and one more for each unit |
| `LocalLimiter.BucketAdmitsIff` | src/middlewares/rate_limiter.rs:201-224 | a bucket admits a request exactly if its tokens and the refill since its last request, up to the capacity, suffice, and is left with the rest |
| `LocalLimiter.IdleIsFresh` | src/middlewares/rate_limiter.rs:233-258 | an idle partition decides every request like a fresh one |
| `LocalLimiter.SweptIsIdle` | src/middlewares/rate_limiter.rs:233-258 | a sweep evicts exactly the partitions that are idle at its own reading |
| `LocalLimiter.SlidingCeiling` | src/middlewares/rate_limiter.rs:178-200 | for one partition that is not swept: in whatever order calls arrive, a span in which no reading is a window or more after an earlier one admits at most `permit` units |
| `LocalLimiter.OrderedSpan` | src/middlewares/rate_limiter.rs:178-200 | in clock order that is every span shorter than the window |
| `LocalLimiter.SlidingCeilingIff` | src/middlewares/rate_limiter.rs:178-200 | for one partition that is not swept and calls in any order: the span admits at most `permit` units whatever is asked for, if and only if no reading in it is a window or more after an earlier one |
| `LocalLimiter.SlidingOutOfOrderOverAdmits` | src/middlewares/rate_limiter.rs:180-198 | three units at readings nine seconds apart in a ten-second window of two |
| `LocalLimiter.BucketBudget` | src/middlewares/rate_limiter.rs:201-220 | for one partition that is not swept: in whatever order calls arrive, a span admits at most the capacity plus the refill of all the time by which the clock moved forward in it |
| `LocalLimiter.ForwardIsElapsed` | src/middlewares/rate_limiter.rs:208-211 | that time is the time between the first and the last reading if and only if the readings are in order |
| `LocalLimiter.BucketCeiling` | src/middlewares/rate_limiter.rs:201-220 | for one partition that is not swept: a span whose readings are in order admits at most the capacity plus the refill of the elapsed time |
| `LocalLimiter.BucketCeilingIff` | src/middlewares/rate_limiter.rs:201-220 | for one partition that is not swept and given readings: every bucket keeps that ceiling whatever is charged, if and only if the readings are in order |
| `LocalLimiter.BucketRetrySucceeds` | src/middlewares/rate_limiter.rs:208-219 | an uncontended retry after the returned seconds succeeds for every cost up to the capacity |
| `LocalLimiter.BucketHintIsLeast` | src/middlewares/rate_limiter.rs:208-224 | the hint is the least number of whole seconds, at least one, that refills what the request is short of and at least one token |
| `LocalLimiter.SlidingRetryIff` | src/middlewares/rate_limiter.rs:187-199 | exactly when an uncontended retry of a denied request succeeds |
| `LocalLimiter.SlidingRetrySucceeds` | src/middlewares/rate_limiter.rs:187-199 | for cost one it always does |
| `LocalLimiter.SlidingRetryCanFail` | src/middlewares/rate_limiter.rs:191-195 | a request for two slots that is refused again after the returned time |
| `LocalLimiter.SlidingHintIsLeast` | src/middlewares/rate_limiter.rs:187-199 | the hint is the least number of whole seconds, at least one, after which the oldest hit is out of the window, or the window itself beyond the permit |
| `LocalLimiter.OversizedNeverSucceeds` | src/middlewares/rate_limiter.rs:187-220 | a cost beyond the permit or the capacity is refused in every state |
| `LocalLimiter.OutOfOrderOverAdmits` | src/middlewares/rate_limiter.rs:208-215 | two units at one instant from a bucket of one |
| `ShardedStore.DecideInPlace` | src/middlewares/rate_limiter.rs:177-224 | the popping loop, the refill and the charge compute the decision function |
| `ShardedStore.Limiter.CheckWeighted` | src/middlewares/rate_limiter.rs:153-225 | sweeps and updates only the key's shard and answers as the run of calls says |
| `ShardedStore.CallSweeps` | src/middlewares/rate_limiter.rs:153-258 | a call changes only its own shard, and there takes exactly the other keys' idle partitions once 2,048 are held |
| `ShardedStore.ShardedRefinesUnbounded` | src/middlewares/rate_limiter.rs:137-258 | every verdict and retry value is that of one unbounded map that never evicts, for every key whose shard is too small to be swept, in any clock order, and for every key that calls for it or sweeps of its shard reach in clock order |
| `ShardedStore.EachKeyIsIndependent` | src/middlewares/rate_limiter.rs:137-142 | such a key is treated as if it were alone |
| `ShardedStore.StoreAdmitsAlone` | src/middlewares/rate_limiter.rs:137-258 | over any calls that leave the key undisturbed in this sense, the store admits it exactly what its own requests, replayed alone, admit |
| `StoreCeilings.UnsweptStore` | src/middlewares/rate_limiter.rs:153-258 | so for calls in any order the two bounds for one partition hold of the store as long as the key's shard has not seen enough keys to be swept |
| `StoreCeilings.RunSlidingCeiling` | src/middlewares/rate_limiter.rs:153-258 | in any clock order and with any sweeps, the store admits a sliding-window key at most `permit` units over calls of which none that can free slots for a later one reads a window or more after an earlier call for the key |
| `StoreCeilings.StoreBudget` | src/middlewares/rate_limiter.rs:153-258 | in any clock order and with any sweeps, a bucket admits between two of its calls at most its capacity plus the refill of the time from each of its calls to the next one or to a later reading that could sweep it in between |
| `StoreCeilings.StoreForwardIsElapsed` | src/middlewares/rate_limiter.rs:208-258 | that time is the time between the two calls if and only if no call that is for the key or can sweep it reads later than a following call for the key |
| `StoreCeilings.RunBucketCeiling` | src/middlewares/rate_limiter.rs:153-258 | then a bucket admits at most its capacity plus the refill of the time between the two calls |
| `StoreExactness.SlidingStoreIff` | src/middlewares/rate_limiter.rs:153-258 | for given keys, readings and shards the store keeps a sliding window's ceiling over a span, whatever is charged and whatever the other keys' policies are, if and only if the condition of `RunSlidingCeiling` holds |
| `StoreExactness.BucketStoreIff` | src/middlewares/rate_limiter.rs:153-258 | for given keys, readings and shards every bucket keeps its ceiling over every span between two of its calls, whatever is charged and whatever the other keys' policies are, if and only if its own readings are in order and no call between two of them that can sweep reads later than the second |
| `StoreExactness.SweptOverAdmits` | src/middlewares/rate_limiter.rs:153-258 | 2,048 keys charged at 10 s and swept by another key at 11 s: the first key, back at 10 s, gets a second unit at that instant from a bucket of one and from a window of one |
| `RedisBucket.WaitIsExact` | src/middlewares/rate_limiter.rs:361-368 | the computed wait is the least number of milliseconds that refills enough |
| `RedisBucket.AdmitsIffCovered` | src/middlewares/rate_limiter.rs:335-369 | the script admits if and only if the refilled tokens cover the cost, and otherwise, for a cost within the capacity, returns the least number of milliseconds that refills what is missing |
| `RedisBucket.ExpiresWhenFull` | src/middlewares/rate_limiter.rs:359-362 | a stored bucket expires in the first millisecond after now in which it is full again |
| `RedisBucket.ChargeKeepsCover` | src/middlewares/rate_limiter.rs:342-362 | one charge, at any clock reading, keeps tokens plus admitted units within capacity plus refill, and the stamp is the highest reading |
| `RedisBucket.SharedBudget` | src/middlewares/rate_limiter.rs:335-369 | for every interleaving of replicas and every sequence of clock readings, backward jumps included, admitted cost is at most the capacity plus the refill between the highest readings, and tokens stay within the bucket |
| `RedisStore.Server.CheckWeighted` | src/middlewares/rate_limiter.rs:335-369 | the single-key script changes its key as specified and no other, and returns the specified wait |
| `RedisStore.CheckWaitIsExact` | src/middlewares/rate_limiter.rs:335-369 | an uncontended retry of a denied charge within the capacity succeeds from the returned time on and at no earlier time |
| `RedisStore.OversizedCheckNeverSucceeds` | src/middlewares/rate_limiter.rs:335-369 | a charge above the capacity is refused in every keyspace and told to wait exactly until an empty bucket would be full |
| `RedisStore.Server.CheckProxyTraffic` | src/middlewares/rate_limiter.rs:409-449 | the two passes of the lease script compute the all-or-nothing lease |
| `RedisStore.ShortageIffUncovered` | src/middlewares/rate_limiter.rs:418-441 | the first pass finds a wait if and only if some dimension does not cover its cost |
| `RedisStore.CommitChargesEach` | src/middlewares/rate_limiter.rs:442-448 | the second pass charges each of the distinct keys once, from its level before the lease, and touches nothing else |
| `RedisStore.LeaseAllOrNothing` | src/middlewares/rate_limiter.rs:409-449 | admitted if and only if every dimension covers its cost; denial changes no bucket, admission charges each exactly its cost |
| `RedisStore.LeaseWaitIsExact` | src/middlewares/rate_limiter.rs:409-449 | an uncontended retry of a denied lease succeeds from the returned time on and at no earlier time |
| `RedisStore.OversizedLeaseNeverSucceeds` | src/middlewares/rate_limiter.rs:434-441 | a cost above a dimension's capacity is refused for ever, with a wait no shorter than it takes to fill that dimension's empty bucket |
| `RedisStore.SecondsCoverMillis` | src/middlewares/rate_limiter.rs:580-609 | the answer in seconds is never too short and too long by less than a second; without an answer from Redis it is the local one |
| `RedisExpiry.SameLoad` | src/middlewares/rate_limiter.rs:342-362 | a bucket past its deadline loads like a missing one |
| `RedisExpiry.OneOp` | src/middlewares/rate_limiter.rs:418-447 | either script gives the same answer on an expiring and on a keeping server and keeps them related |
| `RedisExpiry.ExpiryIsUnobservable` | src/middlewares/rate_limiter.rs:342-447 | with a nondecreasing clock every verdict and wait of every run is that of a server that keeps every key for ever |
| `RedisBudget.LeaseChargesLikeScript` | src/middlewares/rate_limiter.rs:418-447 | an admitted lease does to each of its keys exactly what an admitted single-key charge of that cost does |
| `RedisBudget.KeyBudget` | src/middlewares/rate_limiter.rs:335-449 | for any mix of charges and leases and any sequence of clock readings, a key admits at most its capacity plus the refill between the highest readings that it was stored at, and its tokens stay within the bucket |
| `RedisBudget.EveryKeyWithinBudget` | src/middlewares/rate_limiter.rs:335-449 | with a nondecreasing clock and keys that expire, every key, each dimension of a lease included, admits over any span of operations at most its capacity plus the refill of the elapsed time |
| `RedisFixedWindow.AdmitsIff` | src/middlewares/rate_limiter.rs:325-333 | when the fixed-window script admits |
| `RedisFixedWindow.LifetimeCeiling` | src/middlewares/rate_limiter.rs:325-386 | although denied calls also count, a key admits at most `permit` units before its deadline |
| `RedisFixedWindow.DeadlineAdmitsAnything` | src/middlewares/rate_limiter.rs:327-332 | in the millisecond of its deadline it admits any cost |
| `RedisFixedWindow.LifetimeCeilingIff` | src/middlewares/rate_limiter.rs:325-386 | a key admits at most `permit` units in its whole life, whatever is charged, if and only if no call reads the clock at its deadline |
| `RedisFixedWindow.IntervalCeiling` | src/middlewares/rate_limiter.rs:325-386 | apart from calls at a deadline, any half-open interval one window long admits at most twice the permit minus one |
| `RedisFixedWindow.IntervalCeilingIff` | src/middlewares/rate_limiter.rs:325-386 | that holds of all its calls, whatever is charged, if and only if none of them reads the clock at its key's deadline |
| `RedisFixedWindow.CeilingIsReached` | src/middlewares/rate_limiter.rs:325-386 | without a call at a deadline the bound is attained for every permit of at least two |
| `RedisFixedWindow.RetryIff` | src/middlewares/rate_limiter.rs:325-333 | an uncontended retry of a denied call within the permit succeeds from the returned time on and at no earlier time |
| `InboundWindow.ResetStep` | src/hubs/admission.rs:55-88 | every atomic step keeps: at most one call resets at a time, the word says so, each claimed second clears each counter once, and a call leaves its loop only when its own second or a later one is published |
| `InboundWindow.FrameStep` | src/hubs/admission.rs:83-91 | every atomic step keeps the number of frames granted since a clear at min(limit, frames counted) |
| `InboundWindow.ByteStep` | src/hubs/admission.rs:83-91 | every atomic step keeps the bytes granted since a clear within the limit |
| `InboundWindow.SecondsOnlyAdvance` | src/hubs/admission.rs:57-88 | in every run the published second only increases and reaches that of every finished call, and no second is reset twice |
| `InboundWindow.ChargedToOwnSecond` | src/hubs/admission.rs:57-88 | in every run no call is charged to a window older than its own second |
| `InboundWindow.NewSecondOpensWindow` | src/hubs/admission.rs:73-91 | a call that is the first of a new second and runs alone publishes it, finds both counters cleared and is admitted if and only if the limits allow a call of its size |
| `InboundWindow.PublishedSecondCounts` | src/hubs/admission.rs:57-91 | with no reset going on, a call whose second is published or past stops waiting at once and, alone, is admitted if and only if both limits have room for it |
| `InboundWindow.ClaimEnds` | src/hubs/admission.rs:73-87 | a call that holds others up publishes its second within three steps of its own |
| `InboundWindow.AloneEnds` | src/hubs/admission.rs:55-91 | in every run, while no reset is going on, every call that is left to run alone ends |
| `InboundWindow.RunsStepByStep` | src/hubs/admission.rs:55-92 | runs go step by step; a call may begin at any time with any second, and every unfinished call can always take its next step |
| `InboundWindow.AdmissionCeilings` | src/hubs/admission.rs:55-92 | for every interleaving, between two clears at most `frame_limit` frames and `byte_limit` bytes are admitted, including calls that sampled an older second |
| `InboundWindow.CeilingsAreTight` | src/hubs/admission.rs:89-91 | between clears the ceilings are no stricter than promised: exactly min(limit, calls) calls are within the frame limit since the last clear, and while both totals are within their limits every call that finished since the last clears is admitted |
| `ConnectionPermits.IncrementCounts` | src/hubs/admission.rs:248-263 | an accepted increment adds one to its key only, a refused one changes nothing, and it is refused only at the limit |
| `ConnectionPermits.ReleaseCounts` | src/hubs/admission.rs:265-276 | a release takes one from its key only, if there is one to take, and never leaves a zero behind |
| `ConnectionPermits.RunBalanced` | src/hubs/admission.rs:231-305 | for every interleaving of acquisition, rollback and drop: each count equals the holders of its key and stays within its limit, none is stored as zero, and free permits plus holders are the pool |
| `ConnectionPermits.RunsStepByStep` | src/hubs/admission.rs:278-305 | runs go step by step; a task may begin while the pool has a permit, and every task can always go on |
| `ConnectionPermits.AllDroppedIsPristine` | src/hubs/admission.rs:231-246 | when all permits are dropped both maps are empty and the pool is full |
| `ConnectionPermits.LiveConnectionsBounded` | src/hubs/admission.rs:278-305 | live connections never exceed the pool, the client limit or the scope limit |
| `ConnectionPermits.RefusalMeansFull` | src/hubs/admission.rs:278-305 | a task is refused only at a level that is full at that moment |
| `ConnectionPermits.ZeroLimitAdmitsOne` | src/hubs/admission.rs:248-263 | a limit of zero still admits one holder, and every positive limit is respected |
| `LiveAuthorization.AuthorizeIff` | src/middlewares/privilege_authentication.rs:191-211 | exactly the rows with the presented stamp and no ban authorize, with their own role |
| `LiveAuthorization.CommitReplacesRow` | src/middlewares/privilege_authentication.rs:115-189 | a commit replaces the row of its own account and of no other |
| `LiveAuthorization.RunsStepByStep` | src/middlewares/privilege_authentication.rs:115-189 | runs go step by step; rows may be committed and requests may begin at any time, and every request may be answered from every entry under its key |
| `LiveAuthorization.AnyRequestCanBeAnswered` | src/middlewares/privilege_authentication.rs:115-211 | in every reachable state a new request can fill the cache and be answered, and is then told what the account's row warrants |
| `LiveAuthorization.AnswersRestOnRecentRow` | src/middlewares/privilege_authentication.rs:115-189 | even if a lookup may return any value ever set under a key, every answer is what a row warrants that was read less than a second before the key was computed, or later |
| `LiveAuthorization.RevocationWithinOneSecond` | src/middlewares/privilege_authentication.rs:92-100 | a ban, deletion or stamp rotation takes effect for every key computed a second or more after its commit |
| `LiveAuthorization.FreshStampAcceptedAtOnce` | src/middlewares/privilege_authentication.rs:269-276 | a stamp never presented before its commit is accepted at once while it is live |
| `ResumableUpdate.RunInv` | scripts/manage.py:197-313 | across every crash, failure and re-invocation, the durable record tells how far settings, container and database have moved |
| `ResumableUpdate.RunsStepByStep` | scripts/manage.py:197-313 | runs go step by step; a process may die at any point, and either command may be started while none runs |
| `ResumableUpdate.StartsOnlyBeforeCutover` | scripts/manage.py:257-313 | the application is started only while the durable phase precedes cutover, and as the image the database belongs to |
| `ResumableUpdate.CutoverOnlyAfterBackup` | scripts/manage.py:257-313 | cutover runs only for the recorded update and only after its backup was renamed into place |
| `ResumableUpdate.SettingsFollowCutover` | scripts/manage.py:257-313 | settings name a new image only after its cutover succeeded |
| `ResumableUpdate.BackupRefusedDuringUpdate` | scripts/manage.py:197-230 | while the state file exists `backup` is refused and no backup is pruned |
| `ResumableUpdate.OnlyTheseTouchTheApp` | scripts/manage.py:197-313 | what each step does to the application: it is started as it is, stopped by a backup, replaced by a cutover, and otherwise left alone |
| `ResumableUpdate.StaysUp` | scripts/manage.py:197-313 | between invocations an application that was running at first is stopped only if some process died or a cutover failed |
| `ResumableUpdate.BackupComesBack` | scripts/manage.py:197-230 | in every reachable state, a backup of a running application ends with one more backup and the same application running again |
| `ResumableUpdate.FailedBackupComesBack` | scripts/manage.py:227-230 | one whose dump fails changes nothing |
| `ResumableUpdate.NothingToDo` | scripts/manage.py:197-257 | nor does a backup of a stopped application or during an update, nor an update to the release that runs already |
| `ResumableUpdate.RetryCompletes` | scripts/manage.py:257-313 | wherever earlier invocations died, one more in which nothing fails completes the update |

## Left out

- Floating-point rounding: tokens, rates and local times are exact reals.
- Weak memory orderings: atomics are sequentially consistent, and the window's counters do not wrap.
- Real file system, fsync, pcap, HTTP, Redis transport, timers and containers: they are atomic steps, parameters or nondeterministic outcomes. A rename is atomic, a crash keeps any mixture of unsynced directory changes, file contents are synced before the rename, and `.pending` files that a crash leaves behind are not modelled.
- JSON: the length of an encoding is an arbitrary function of the batch; malformed files that make `open` or `front` fail are not modelled.
- Spool.DurableSpool.Enqueue: requires the new name to be unused, which the millisecond stamp and the fresh UUID give; the shed plan is computed before the write instead of after it, which no other step can observe.
- Spool.DurableSpool.Open: orders names by stamp and id, so with equal stamps or a clock that stepped back the reopened queue may differ from the one in memory, as in the code.
- Spool.DurableSpool.DrainOne: retries and back-off inside one upload are one attempt with one of four outcomes.
- SpoolProtocol.NoSilentLoss: counts rows; the dropped-bytes counter is covered by the fold lemmas only. It takes names never to be used again after their file was accepted, which the stamp and the UUID give.
- EventSensor.CaptureState.InspectPacket: takes the peer and the parsed packet as parameters, and the matcher and the name classifier as functions, so `parse_packet`, `provider_category`, Aho-Corasick's choice among overlapping matches and the snapshot lookup are not modelled; a flow starts afresh with each bucket.
- Rows of a bucket time outside the calendar's range, which the code stamps with the current time.
- CaptureAccounting.EveryGameBalances: exact while the game's total fits a signed 64-bit word, and an upper bound beyond.
- EndToEnd.NothingVanishes: covers one life of the process, since a crash loses what is only in memory, and totals that fit a signed word; across crashes `SpoolProtocol.NoSilentLoss` covers what became durable.
- Destinations noted for a peer whose behaviour flag was switched on after its flow began are kept until a behaviour flow of that slot completes.
- LocalLimiter.SlidingCeiling: about one partition that nothing evicts; for the store see `StoreCeilings.RunSlidingCeiling`.
- LocalLimiter.SlidingCeilingIff: about one partition that nothing evicts; for the store see `StoreExactness.SlidingStoreIff`.
- LocalLimiter.BucketBudget: about one partition that nothing evicts; for the store see `StoreCeilings.StoreBudget`.
- LocalLimiter.BucketCeiling: about one partition that nothing evicts; for the store see `StoreCeilings.RunBucketCeiling`.
- LocalLimiter.BucketCeilingIff: about one partition that nothing evicts; for the store see `StoreExactness.BucketStoreIff`.
- ShardedStore.ShardedRefinesUnbounded: in a shard large enough to be swept it needs clock order of the calls that are for the key or can sweep it, since a sweep at a late reading may evict a partition that an earlier reading would still find in use.
- StoreExactness.SlidingStoreIff: the runs it compares have the same readings, the same shards and the same calls sharing a key, but other keys may belong to other policies, since with one policy for all the other keys may be evicted as well, and the shard may stay too small to be swept. The same holds of `BucketStoreIff`, which is about all spans of a range, because a single long span can keep its ceiling although a shorter one in it does not.
- RedisBudget.KeyBudget: takes the keys of one lease to be distinct, which the five differently prefixed names of a traffic lease give.
- The combined script for authenticated requests (src/middlewares/rate_limiter.rs:479-549), which runs a fixed-window hit and then a bucket hit: it would only repeat their lemmas.
- The fallback path's logging, policy tables, key formats and middleware.
- Operational counters and the per-connection bucket of the hubs (src/hubs/admission.rs:327-374).
- LiveAuthorization.AnswersRestOnRecentRow: replicas share one wall clock that does not run backwards, and the stamp hash is injective; tokens, cookies and roles above the ban check are not modelled.
- ResumableUpdate.RetryCompletes: restore, scheduling, downloads and archive validation are not modelled; a command that fails is a nondeterministic outcome.
- SQL-bound controllers, the other hubs, startup and migrations.
