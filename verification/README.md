# Lynx: a verified model of a caching DNS server

Lynx answers DNS queries from a two-level cache, forwards misses over a pool of upstream
connections, limits the rate of each client, and tunes its own connection, thread and TTL settings.
This project models those parts in Dafny and proves what they guarantee together.

- **Wire codec** (`Bytes`, `Names`, `Messages`, `RoundTrip`, `Codec`, `Compression`, `Records`): names with
  compression pointers, messages, `parse` as cursor loops and `pack` as writes into a pre-sized array,
  each proved equal to a recursive specification. A specification takes a hop budget; decoding under
  budget zero succeeds exactly on names without a pointer (`Names.BudgetZero`), which is how "no
  pointer left" is stated.
- **Name comparison** (`NameCompare`): the 16-byte xor/mask form and the scalar form of `nameEquals`.
- **Cache** (`Cache`, `CacheRuns`, `Hits`, `Resolver`, `FastPath`, `CacheFile`): the slot array L1, the keyed
  map L2, the refresh queue and the file format. `CacheRuns` is a transition system with a record of
  everything ever stored; each method of the object `Resolver.CachingResolver` that changes the cache
  is shown to take one of its steps and to keep its invariant; `FastPath` compares lookups on raw bytes with lookups on parsed messages.
- **Concurrency** (`ThreadPool`, `Pool`, `PoolProgress`, `Reconnect`, `ReconnectSteps`, `Controller`): transition systems over atomic
  steps, quantified over all interleavings, and the objects whose methods take those steps.
- **Control** (`Filters`, `Tuner`, `TunerMoves`, `RateLimit`, `Domains`): the controller's cycle, the client rate
  limiter and the override map.
- **Server** (`Server`): cache and controller together, and restarts through the cache file.

Safety results alone would hold of a server that does nothing. `Records`, `Hits`, `PoolProgress`,
`ReconnectSteps`, `TunerMoves` and `RateLimit.ServedAgain` state the other half: what is read, stored,
served, run, reconnected, adjusted and allowed.

Where the code and its comments disagree the model follows the code. The cases worth knowing:

- A label length byte is any value below 192, so decoding accepts labels up to 191 bytes, which
  `nameToWire` then refuses (it stops at 63) and drops empty ones. `RoundTrip.NormalForm` gives the
  exact condition under which re-packing is faithful.
- The SOA length check subtracts in `size_t`; `Messages.SoaLengthCheck` says exactly when it fires.
  Copying 20 bytes that lie outside the message has no defined meaning in the source; the model
  gives it an error of its own.
- `peekCacheRaw` reads the type and class one byte early after a compression pointer;
  it also answers queries with several questions, which `peekCache` refuses. `FastPath.FastPathExact`
  gives the exact condition under which the two agree.
- `saveCache` writes messages up to 65535 bytes and `loadCache` drops those above 4096;
  `CacheFile.OversizedEntryLost`, `CacheFile.OversizedEntryHidesNext`.
- The cache file keeps an entry's key as it is and the names of its message normalised, so the two
  match after a restart exactly when the name is its own normal form; `Server.RestartKeepsInv`.
- An override for the root matches only names that end in an empty label;
  `Domains.RootCoversOnlyEmptyLabels`.
- The reconnect bookkeeping survives a call of `manage` or `unmanage` exactly when the call is
  guarded: the stream is not managed and no worker holds a job for it, or no index at or above the
  entry has been gathered. It survives every other step, except that without an open function the job
  of a managed entry is dropped at its first lookup (`Reconnect.StepExact`). Callers that bring a new stream to every `manage`
  meet the first guard without looking at the workers (`Reconnect.FreshRunsAreGuarded`). Nothing in
  the source enforces the second: `Reconnect.UnmanageBelowGatheredStrands` reaches the failure.
- A rate limit of 100 per window admits 199 requests in one second, and that is reached at any time
  (`RateLimit.LateWindowBound`, `RateLimit.LateBoundIsReached`). It is 200 only in intervals that begin
  in the first second of the clock, for a client that asks in it: a missing entry counts as a window
  that no request opened (`RateLimit.SlidingWindowBound`, `RateLimit.BoundIsReached`).

## Model

| member | source | states |
|---|---|---|
| `Names.WireToName` | src/dns_protocol.hpp:180-215 | for every byte string and start the cursor loop ends and yields exactly the labels of recursive decompression with at most 10 hops, or its error; on success the cursor has advanced and is inside the message |
| `Names.DecodedCursor` | src/dns_protocol.hpp:188-214 | a decoded name leaves the cursor strictly advanced, at most at the end, right after a terminator or a two-byte pointer; labels are 1 to 191 bytes |
| `Names.MoreHops` | src/dns_protocol.hpp:195-206 | a larger hop budget never changes a name that decodes under a smaller one |
| `Names.FindDot` | src/dns_protocol.hpp:226-227 | the first dot at or after a position, or the end of the text |
| `Names.NameToWire` | src/dns_protocol.hpp:217-239 | the splitting loop writes exactly the non-empty dot-separated labels of the text, length-prefixed and terminated, and fails exactly when one of them is longer than 63 bytes |
| `Names.LabelsOfJoin` | src/dns_protocol.hpp:209-235 | splitting text at dots undoes joining, for every sequence of non-empty dot-free labels |
| `Names.NormaliseIdempotent` | src/dns_protocol.hpp:217-239 | dropping empty labels keeps the labels of a name, and doing it twice changes nothing more |
| `Names.BudgetZero` | src/dns_protocol.hpp:188-212 | decoding under hop budget zero succeeds exactly on names that decode and contain no compression pointer |
| `Names.DecodeEncoded` | src/dns_protocol.hpp:180-239 | labels written without pointers decode to themselves under every hop budget, even zero |
| `Names.NameRoundTrip` | src/dns_protocol.hpp:180-239 | the wire form of any packable name, anywhere in a message, reads back as its normalised text with the cursor exactly past it |
| `Compression.CompressedName` | src/dns_protocol.hpp:195-213 | labels ending in a pointer denote those labels followed by the labels of the name pointed at (section 4.1.4 of RFC 1035), with the cursor two bytes past the pointer's start |
| `Compression.ChainDecodes` | src/dns_protocol.hpp:195-206 | the hop budget is exact: a chain of pointers decodes if and only if it is no longer than the budget, and is a cycle error otherwise |
| `Compression.AnyLengthDecodes` | src/dns_protocol.hpp:207-211 | any length byte from 1 to 191 is a label length |
| `Compression.CyclesRejected` | src/dns_protocol.hpp:197-197 | a name that runs into a cycle of labels and pointers is rejected under every hop budget |
| `Compression.NameWireSize` | src/dns_protocol.hpp:217-239 | the wire form of a name is at most two bytes longer than its text |
| `Compression.NameSize` | src/dns_protocol.hpp:180-215 | text decoded from a message is at most eleven times as long as the message |
| `Compression.SmallMessageNormalForm` | src/dns_protocol.cpp:105-361 | for messages of at most 2976 bytes the normal form holds with no condition on RDATA sizes |
| `Messages.SoaLengthCheck` | src/dns_protocol.cpp:169-183 | a SOA record whose names decode is rejected as truncated exactly when they end inside RDATA with fewer than 20 bytes left; names that run past RDATA pass, and an accepted record ends in the 20 bytes after its names wherever they lie |
| `Messages.SetQrLaws` | src/dns_protocol.hpp:28-42 | setting the response bit reads back and changes none of the other six flag fields, AA and RD included |
| `Messages.SetRaLaws` | src/dns_protocol.hpp:28-42 | setting the recursion-available bit reads back and changes none of the other six flag fields, AA and RD included |
| `Messages.SetRcodeLaws` | src/dns_protocol.hpp:28-42 | setting the response code reads back and changes none of the other six flag fields, AA and RD included |
| `Messages.ReplyFlags` | src/dns_protocol.cpp:378-395 | a reply has the query's id, questions, response code and every flag but QR and RA, which are set, and has no records; an error reply differs in the response code alone |
| `RoundTrip.PackThenParse` | src/dns_protocol.cpp:105-361 | for every packable message with sound RDATA, parsing the packed bytes gives the message with names normalised and counts refreshed, under every hop budget |
| `RoundTrip.RoundTripCanonical` | src/dns_protocol.cpp:105-361 | a message with canonical names and well-formed RDATA comes back unchanged with header counts equal to its section sizes |
| `RoundTrip.ParsedMessageSound` | src/dns_protocol.cpp:134-306 | every accepted message has counts equal to its section sizes and decompressed, well-formed RDATA |
| `RoundTrip.CanonicalIsNormal` | src/dns_protocol.hpp:217-239 | a packable message is a fixed point of normalisation exactly when its owner and question names are canonical |
| `RoundTrip.NormalForm` | src/dns_protocol.cpp:134-361 | for every accepted byte string whose expanded RDATA fits 16 bits, re-packing gives pointer-free bytes that parse to the same message if and only if all question and owner names are canonical |
| `Records.RecordCursor` | src/dns_protocol.cpp:137-189 | every record, whatever its type and stored form, moves the cursor to ten bytes and RDLENGTH after its owner |
| `Records.CompressedRecord` | src/dns_protocol.cpp:149-157 | a CNAME, NS or PTR record whose RDATA is labels and a pointer is stored with the whole name and no pointer, and the next record is read where RDLENGTH says |
| `Records.CompressedMx` | src/dns_protocol.cpp:158-168 | the same for MX, the preference bytes kept |
| `Records.CompressedSoa` | src/dns_protocol.cpp:169-183 | the same for SOA with both names compressed, the twenty bytes after them kept |
| `Records.SectionInARow` | src/dns_protocol.cpp:134-191 | a section is read from exactly the places that its RDLENGTHs lead to, one record from each |
| `Records.MessageInARow` | src/dns_protocol.cpp:105-306 | bytes whose questions decode and whose records stand in a row, as many as announced, are accepted with every record read from its own place |
| `Codec.ReadQuestion` | src/dns_protocol.cpp:126-131 | one question at the cursor, as the specification reads it, or its error |
| `Codec.ReadRdata` | src/dns_protocol.cpp:146-188 | RDATA of CNAME, NS, PTR, MX and SOA is replaced by its decompressed form, other types are copied |
| `Codec.ReadRecord` | src/dns_protocol.cpp:135-190 | one record at the cursor; the cursor moves by the announced RDATA length, whatever the decompressed size (`Records.RecordCursor`) |
| `Codec.ReadQuestions` | src/dns_protocol.cpp:125-132 | exactly the announced number of questions, or the first error |
| `Codec.ReadSection` | src/dns_protocol.cpp:134-191 | exactly the announced number of records, or the first error |
| `Codec.Parse` | src/dns_protocol.cpp:105-306 | the loops accept and reject the same byte strings as the recursive specification, with the same message (`Records.MessageInARow` says what is accepted, the round trips what is read) |
| `Codec.QuestionsSize` | src/dns_protocol.cpp:310-310 | the pre-pass adds up the bytes the question section will take |
| `Codec.SectionSize` | src/dns_protocol.cpp:311-313 | the pre-pass adds up the bytes a record section will take |
| `Codec.PutQuestions` | src/dns_protocol.cpp:325-330 | writes the section's bytes at the cursor, leaves everything before it alone and advances by exactly their number |
| `Codec.PutSection` | src/dns_protocol.cpp:332-340 | writes the section's bytes at the cursor, leaves everything before it alone and advances by exactly their number |
| `Codec.Pack` | src/dns_protocol.cpp:308-361 | the bytes of the message, written into a buffer whose pre-computed size is exactly the number of bytes written; fails exactly on an over-long label |
| `NameCompare.ChunkIsLanes` | src/dns_protocol.hpp:134-155 | the 16-byte step passes exactly when all sixteen byte pairs are equal up to ASCII case |
| `NameCompare.NameEqualsChunked` | src/dns_protocol.hpp:128-164 | for strings of any length the vector form with scalar tail decides ASCII case-insensitive equality (section 2.3.3 of RFC 1035) |
| `NameCompare.NameEqualsScalar` | src/dns_protocol.hpp:165-176 | the plain loop decides the same relation |
| `NameCompare.EquivalenceRelation` | src/dns_protocol.hpp:125-177 | that relation is reflexive, symmetric and transitive |
| `Domains.Canonicalize` | src/domain_map.cpp:8-14 | lower case with exactly one dot added when the last one is missing, and "." for the empty name |
| `Domains.CanonicalLaws` | src/domain_map.cpp:8-14 | canonical names end in a dot and are their own canonical form; letter case and a missing final dot do not matter |
| `Domains.CanonicalCollision` | src/domain_map.cpp:8-14 | two names get the same key if and only if they are equal up to letter case, or become so when the final dot that one of them lacks is added |
| `Domains.CountLabels` | src/domain_map.cpp:27-34 | the number of labels of a dot-terminated name |
| `Domains.SubDomainIsLabelSuffix` | src/domain_map.cpp:36-44 | the string-suffix test is exactly the label-suffix relation on dot-terminated names |
| `Domains.CoveringKeysDiffer` | src/domain_map.cpp:36-60 | two keys that cover the same name and have equally many labels are equal |
| `Domains.MostSpecificUnique` | src/domain_map.cpp:46-64 | at most one key is most specific, so the order of the scan does not matter |
| `Domains.ExactWins` | src/domain_map.cpp:46-64 | an entry for the name itself is the most specific one |
| `Domains.RootCoversOnlyEmptyLabels` | src/domain_map.cpp:36-44 | the root key applies to no name whose last label is non-empty |
| `Domains.DomainMap.Set` | src/domain_map.cpp:16-18 | binds the canonical form of the name and changes no other binding |
| `Domains.DomainMap.GetExact` | src/domain_map.cpp:20-25 | the value bound to the canonical form of the name, if any |
| `Domains.DomainMap.GetMostSpecific` | src/domain_map.cpp:46-64 | fails exactly when no key covers the name; otherwise returns the value of the unique covering key with most labels, which is the exact entry when there is one |
| `RateLimit.RateLimiter.Allow` | src/dns_server.cpp:151-164 | the decision and the new shards of the specification, of which the bounds and `RateLimit.ServedByShards` speak; only the client's own shard entry changes, and nothing for loopback |
| `RateLimit.ShardingInvisible` | src/dns_server.cpp:153-176 | for every hash and every history the sixteen shards decide each request exactly as one table would |
| `RateLimit.ClientsIndependent` | src/dns_server.cpp:157-162 | a client's entry after any history is its entry after its own requests alone |
| `RateLimit.CountIsAsked` | src/dns_server.cpp:157-163 | a client's count never exceeds its requests, allowed or refused, since its window began |
| `RateLimit.ServedAgain` | src/dns_server.cpp:157-163 | in every run under ordered updates a request is allowed when its client made fewer than 100 requests, allowed or refused, in the second that ends with it |
| `RateLimit.ServedByShards` | src/dns_server.cpp:151-164 | the sixteen shards allow such a request too, for every hash, and never refuse loopback |
| `RateLimit.TwoHundredOneSpan` | src/dns_server.cpp:158-163 | any 201 allowed requests of one client span more than a second |
| `RateLimit.SlidingWindowBound` | src/dns_server.cpp:149-164 | over every run with a monotone clock a non-loopback client is allowed at most 200 requests in any one-second interval |
| `RateLimit.LateWindowBound` | src/dns_server.cpp:157-163 | every client is allowed at most 199 requests in any one-second interval that begins after the first second of the clock, because a request stands at the start of each of its windows; a client that asks nothing in that first second, in any interval |
| `RateLimit.LateBoundIsReached` | src/dns_server.cpp:157-163 | at every later time some run of such a client is allowed 199 requests in one second |
| `RateLimit.BoundIsReached` | src/dns_server.cpp:157-163 | a client that asks at the end of the clock's first second can be allowed 200 requests in one second |
| `ThreadPool.StepInv` | src/dns_server.cpp:32-123 | every atomic step of every thread keeps mutual exclusion, the target range, the live count, the task accounting and the drain invariant |
| `ThreadPool.TaskConservation` | src/dns_server.cpp:32-45 | in every interleaving the tasks that callers handed in, by enqueue or by a tryEnqueue below the limit, are the popped ones, in order, followed by the queued ones, and as a multiset queued plus running plus finished |
| `ThreadPool.LiveCountBounds` | src/dns_server.cpp:55-123 | in every interleaving the live count is the workers spawned minus those accounted as gone, each is accounted once, and before stop it stays in [4, 64] although the target may change between a shrinker's load and its compare-exchange |
| `ThreadPool.DrainedOnExit` | src/dns_server.cpp:65-123 | once all workers have exited the pool was stopped and the live count is zero, and if nothing was enqueued after stop the queue is empty and every accepted task has finished |
| `ThreadPool.EffectCounts` | src/dns_server.cpp:88-123 | a worker step that accounts its worker as gone lowers the live count by one, every other step keeps it |
| `ThreadPool.AcceptedIsSubmitted` | src/dns_server.cpp:32-45 | in every interleaving the accepted tasks are those submitted by the actions of the run |
| `PoolProgress.TakesFront` | src/dns_server.cpp:97-110 | a waiting worker that gets the mutex while a task is queued takes the front task and releases the mutex, whatever stop flag, target and live count |
| `PoolProgress.FinishesFront` | src/dns_server.cpp:97-117 | any waiting worker that is let run finishes the front task, and nothing else changes |
| `PoolProgress.LeavesWhenStopped` | src/dns_server.cpp:104-122 | after stop a waiting worker that finds the queue empty leaves and takes itself off the live count |
| `PoolProgress.ShrinksAboveTarget` | src/dns_server.cpp:88-110 | above the target a waiting worker that finds the queue empty takes exactly itself off the live count |
| `Pool.WorkerPool.constructor` | src/dns_server.cpp:23-26 | for any size, as many waiting workers as asked for, all counted, and nothing queued; it is a start of the protocol exactly for sizes 4 to 64 |
| `Pool.WorkerPool.Enqueue` | src/dns_server.cpp:32-35 | one step of the protocol that appends the task to the queue and to the accepted tasks |
| `Pool.WorkerPool.TryEnqueue` | src/dns_server.cpp:36-45 | accepts exactly when the queue is below the backpressure limit, and then appends the task; otherwise changes nothing |
| `Pool.WorkerPool.Resize` | src/dns_server.cpp:55-64 | a run of the protocol's steps that stores the size clamped into [4, 64], keeps workers and tasks and brings the live count up to the target but never down |
| `Pool.WorkerPool.Shutdown` | src/dns_server.cpp:65-69 | raises the stop flag and nothing else |
| `Reconnect.StepInv` | src/connection_controller.cpp:63-481 | every guarded step of callers, maintenance loop and workers keeps the job, attempt and count invariants |
| `Reconnect.StepExact` | src/connection_controller.cpp:63-481 | from any state that satisfies the invariants, with or without an open function, a step keeps them if and only if manage and unmanage are guarded and no job of a managed entry is dropped for want of an open function |
| `Reconnect.KnownStreams` | src/connection_controller.cpp:63-481 | every stream in a managed entry, the queue or a worker's hands was managed earlier in the run |
| `Reconnect.FreshRunsAreGuarded` | src/connection_controller.cpp:63-88 | a run whose callers bring a never-managed stream to each manage call, whatever the workers hold, and whose unmanage calls are guarded, is a guarded run |
| `Reconnect.ConnectedCountExact` | src/connection_controller.cpp:63-208 | in every interleaving the connected count is the number of managed entries whose flag is up |
| `Reconnect.PendingIffOneJob` | src/connection_controller.cpp:126-151 | in every interleaving a managed entry is pending exactly when it has one outstanding job, queued, gathered or in a worker's hands, and is then down |
| `Reconnect.AtMostSixOpens` | src/connection_controller.cpp:414-481 | an entry is tried at most six times from the moment it becomes pending, and no job carries more than five retries |
| `Reconnect.OrphanReachable` | src/connection_controller.cpp:90-113 | a worker can be between its two lookups for an entry that has been removed |
| `Reconnect.RemanageBreaksCount` | src/connection_controller.cpp:452-461 | in a state reached by guarded steps, managing a stream whose old job a worker still holds makes the count wrong: the stale job counts the new entry a second time |
| `Reconnect.UnmanageBelowGatheredStrands` | src/connection_controller.cpp:276-292 | in a state reached by guarded steps, removing an entry below a gathered index leaves the gathered entry pending with no job |
| `Reconnect.NoOpenFunctionStrands` | src/connection_controller.cpp:423-426 | in a state reached without an open function a popped job is dropped and its entry stays pending; `Reconnect.StepExact` says that this is the only way |
| `ReconnectSteps.FailureMarks` | src/connection_controller.cpp:126-151 | a failure, notified or found by a health check, leaves the entry down and pending, lowers the count exactly if it was up, queues exactly one job unless one is pending, and changes nothing else |
| `ReconnectSteps.UnknownFailure` | src/connection_controller.cpp:129-150 | a failure of an unmanaged stream, or seen at an index where another stream is now, changes nothing |
| `ReconnectSteps.ManageAdds` | src/connection_controller.cpp:63-88 | the entry is added last without a job and counted exactly if it is up |
| `ReconnectSteps.UnmanageRemoves` | src/connection_controller.cpp:90-113 | the entry is removed, counted out if it was up, its queued jobs are cancelled and every other job stays |
| `ReconnectSteps.GatherMarks` | src/connection_controller.cpp:224-246 | exactly the entries that are down without a job become pending and are gathered |
| `ReconnectSteps.EnqueuesGathered` | src/connection_controller.cpp:276-292 | a gathered index becomes one job of the entry it stands for |
| `ReconnectSteps.PopsFront` | src/connection_controller.cpp:395-409 | the oldest job passes to a free worker |
| `ReconnectSteps.LookupOpens` | src/connection_controller.cpp:418-441 | with an open function the job of a managed entry always leads to an attempt |
| `ReconnectSteps.AttemptSucceeds` | src/connection_controller.cpp:451-461 | a successful attempt brings the entry up and counts it in, and its job is done |
| `ReconnectSteps.AttemptFails` | src/connection_controller.cpp:462-481 | a failed attempt is queued again with one more retry up to five times and then given up, the entry still down |
| `ReconnectSteps.Recovers` | src/connection_controller.cpp:126-481 | a failed connection is up, counted and without a job again after four guarded steps, everything else as before |
| `Controller.ConnectionController.Manage` | src/connection_controller.cpp:63-88 | takes the manage step and keeps the invariant if and only if the call is guarded |
| `Controller.ConnectionController.Unmanage` | src/connection_controller.cpp:90-113 | removes the first entry with the stream, corrects the count and cancels exactly that stream's queued jobs; keeps the invariant if and only if the call is guarded |
| `Controller.ConnectionController.CancelWork` | src/connection_controller.cpp:103-112 | the erasing loop removes exactly the jobs of the stream and keeps the order of the others |
| `Controller.ConnectionController.NotifyFailure` | src/connection_controller.cpp:126-151 | for a managed stream the entry is afterwards down and pending, the count falls exactly if it was up, and one job is queued unless one is pending; an unknown stream changes nothing; keeps the invariant |
| `Controller.ConnectionController.HealthFailed` | src/connection_controller.cpp:188-205 | the same for an entry seen at an index earlier, and nothing if another stream is there now |
| `Controller.ConnectionController.Gather` | src/connection_controller.cpp:224-246 | the loop marks exactly the entries that are down and not pending, collects their indices and keeps the invariant |
| `Controller.ConnectionController.EnqueueGathered` | src/connection_controller.cpp:276-292 | one gathered index becomes one queued job; keeps the invariant |
| `Controller.ConnectionController.PopWork` | src/connection_controller.cpp:395-409 | the front job passes to a worker; keeps the invariant |
| `Controller.ConnectionController.LookBeforeOpen` | src/connection_controller.cpp:418-437 | an open attempt follows exactly when the stream is managed, down and an open function is set; the invariant is kept exactly when no managed entry's job is dropped for want of one |
| `Controller.ConnectionController.SettleAfterOpen` | src/connection_controller.cpp:452-480 | success raises flag and count, failure requeues up to five retries and then gives up; keeps the invariant |
| `Filters.GainInUnit` | src/auto_tuner.cpp:46-60 | the filter gain is strictly between 0 and 1 |
| `Filters.KalmanStep` | src/auto_tuner.cpp:46-60 | the estimate moves towards the measurement by more than a 502nd of the way and stops short of it |
| `Filters.ErrorShrinks` | src/auto_tuner.cpp:51-57 | the error variance stays positive, below the predicted one and below the measurement noise |
| `Filters.LatencyClamped` | src/auto_tuner.cpp:125-127 | latencies in [1, 10000] are taken as they are, others are brought into that range |
| `Filters.DenominatorPositive` | src/auto_tuner.cpp:62-74 | for every history of two or more samples the slope's denominator is positive, so the trend never divides by zero |
| `Filters.TrendOfLine` | src/auto_tuner.cpp:62-74 | on any history that rises by a constant per cycle the trend is that constant |
| `Filters.AccumulateSums` | src/auto_tuner.cpp:65-71 | the loop's four sums over the whole history |
| `Filters.ComputeTrend` | src/auto_tuner.cpp:62-74 | the least-squares slope, and zero below ten samples |
| `Tuner.TunedBounded` | src/auto_tuner.cpp:98-549 | one cycle under any measurements keeps all bounds |
| `Tuner.RunBounded` | src/auto_tuner.cpp:98-549 | after any sequence of cycles connections are in [24, 48], threads in [16, 32], refresh percent in [5, 15], minTTL in [241, 7200] and negativeTTL in [300, 3600] |
| `Tuner.CycleFacts` | src/auto_tuner.cpp:187-384 | an anomaly sets the cooldown to six and every other cycle counts it down; nothing rises in an anomaly or during cooldown; connections rise only after the holdoff and then record the time |
| `Tuner.QuietAfterAnomaly` | src/auto_tuner.cpp:187-300 | in every run neither count rises in an anomaly cycle or in the next five |
| `Tuner.SecondErrorIsAnomaly` | src/auto_tuner.cpp:229-238 | anomalies do occur: from the initial state the second cycle with an error rate above 5% is one |
| `Tuner.RaisesSpacedOut` | src/auto_tuner.cpp:379-384 | in every run under a monotone clock two connection increases are at least 15 seconds apart |
| `TunerMoves.GrowsExactly` | src/auto_tuner.cpp:267-300 | the growing phases are skipped exactly in an anomaly, when idle, or with a cooldown of two or more |
| `TunerMoves.StreaksCount` | src/auto_tuner.cpp:177-185 | the three streak counters rise in a cycle of the streak and fall otherwise |
| `TunerMoves.HistoryGrows` | src/auto_tuner.cpp:133-136 | the newest latency is added and the oldest dropped beyond 150 |
| `TunerMoves.StuckCuts` | src/auto_tuner.cpp:209-227 | a stuck queue costs two threads and at least two connections and starts a cooldown |
| `TunerMoves.ErrorsCut` | src/auto_tuner.cpp:229-238 | an error spike costs at least a connection and starts a cooldown |
| `TunerMoves.IdleShrinks` | src/auto_tuner.cpp:191-207 | an idle server gives up a connection and a thread |
| `TunerMoves.CollapseKeepsLonger` | src/auto_tuner.cpp:240-250 | a collapsed hit rate raises both TTL settings by the fixed steps and starts a cooldown |
| `TunerMoves.SaturationGrows` | src/auto_tuner.cpp:338-384 | saturated connections with high latency grow by three after the holdoff, or to 48, and by more only under urgency |
| `TunerMoves.TurboGrowsConns` | src/auto_tuner.cpp:307-318 | a deep queue two cycles running adds at least four connections after the holdoff |
| `TunerMoves.QuietShrinks` | src/auto_tuner.cpp:331-334 | low load with nothing that calls for more costs a connection at once |
| `TunerMoves.TurboGrowsThreads` | src/auto_tuner.cpp:412-425 | a deep queue two cycles running adds eight threads, or as many as there may be |
| `TunerMoves.LoadGrowsThreads` | src/auto_tuner.cpp:436-452 | six or more waiting tasks add at least a thread unless threads outnumber connections |
| `TunerMoves.ThreadsFollowConns` | src/auto_tuner.cpp:456-461 | threads beyond six for five connections are cut back to that |
| `TunerMoves.CacheSettingsMove` | src/auto_tuner.cpp:489-526 | refreshing starts at 15 percent; a slow upstream raises the TTL settings and a fast one with a high hit rate lowers the minimum |
| `Tuner.AutoTuner.FilterLatency` | src/auto_tuner.cpp:125-131 | clamps the latency into [1, 10000] before filtering it |
| `Tuner.AutoTuner.ObserveLatency` | src/auto_tuner.cpp:121-185 | the observation phase: filter, history of at most 150 and streak counters |
| `Tuner.AutoTuner.RecoverFromIdle` | src/auto_tuner.cpp:191-207 | the idle phase and whether it fired; neither count rises and both stay in range |
| `Tuner.AutoTuner.CutIfStuck` | src/auto_tuner.cpp:209-227 | the stuck-queue phase and whether it fired; neither count rises and all bounds are kept |
| `Tuner.AutoTuner.CutOnErrors` | src/auto_tuner.cpp:229-238 | the error-spike phase and whether it fired; neither count rises and both stay in range |
| `Tuner.AutoTuner.RaiseOnCollapse` | src/auto_tuner.cpp:240-250 | the hit-rate phase and whether it fired; both TTL settings stay in range and never fall |
| `Tuner.AutoTuner.BoostAndCoolDown` | src/auto_tuner.cpp:252-274 | the latency boost outside anomalies and the cooldown; the TTL settings stay in range and minTTL never falls |
| `Tuner.AutoTuner.GoalConnections` | src/auto_tuner.cpp:302-378 | the connections wanted, computed by overwriting, equal the first applicable rule of one cascade |
| `Tuner.AutoTuner.TuneConnections` | src/auto_tuner.cpp:302-384 | growth is suppressed during the holdoff, so connections rise only after it and then record the time |
| `Tuner.AutoTuner.TuneThreadPool` | src/auto_tuner.cpp:407-488 | the thread phase with its turbo counter, clamped into [16, 32] |
| `Tuner.AutoTuner.TuneRefreshPct` | src/auto_tuner.cpp:489-505 | the refresh threshold, which stays in [5, 15] |
| `Tuner.AutoTuner.TuneCacheTTLs` | src/auto_tuner.cpp:507-526 | the two TTL settings, which stay in range |
| `Tuner.AutoTuner.TuneCache` | src/auto_tuner.cpp:489-526 | both together keep all bounds |
| `Tuner.AutoTuner.Guard` | src/auto_tuner.cpp:121-274 | the observing and cutting phases in order, and whether the cycle ends there |
| `Tuner.AutoTuner.Grow` | src/auto_tuner.cpp:302-526 | the phases that can also grow, with the thread phase comparing against the connections from before |
| `Tuner.AutoTuner.Tune` | src/auto_tuner.cpp:98-549 | the whole cycle, phase after phase with its early return, keeps all bounds |
| `Cache.LeastTTLMeaning` | src/caching_resolver.cpp:640-647 | the running minimum is a lower bound of all TTLs of the section and is attained |
| `Cache.CacheTTLMeaning` | src/caching_resolver.cpp:639-653 | the cache TTL is within [minTTL, 7200], and above the minimum it outlives no record |
| `Hits.CacheTTLExact` | src/caching_resolver.cpp:639-653 | the cache TTL is exactly the least TTL of all records brought into [minTTL, 7200] |
| `Hits.WhichAreKept` | src/caching_resolver.cpp:620-637 | the replies kept, by their flag bits as numbers, question, and sections: no error with an answer or authority, or SERVFAIL, NXDOMAIN, REFUSED |
| `Hits.PositiveIsServed` | src/caching_resolver.cpp:422-456 | a reply without error with an answer or authority is stored under the question, full cache or not, and every lookup in the next minTTL seconds hits on it |
| `Hits.NegativeIsServed` | src/caching_resolver.cpp:422-456 | SERVFAIL, NXDOMAIN and REFUSED are stored and served for the negative TTL |
| `Hits.OthersAreNotStored` | src/caching_resolver.cpp:620-637 | any other reply leaves the whole cache unchanged |
| `Hits.FailureIsServed` | src/caching_resolver.cpp:395-420 | a failed backend is remembered as SERVFAIL for at least 30 seconds, unless L2 is full, when nothing changes |
| `Hits.FailureEntryIs` | src/caching_resolver.cpp:398-405 | it is remembered for 30 to 60 seconds, a tenth of the negative TTL in that range, and is a SERVFAIL to the query's own id and questions |
| `Hits.RefreshReplaces` | src/caching_resolver.cpp:306-325 | a refresh replaces a present entry by the reply with a new lifetime and leaves L1, the queue and every other entry alone |
| `Hits.NothingToRefresh` | src/caching_resolver.cpp:304-318 | without an entry, a reply, or a reply that would be stored, a refresh changes nothing |
| `Hits.LookupExact` | src/caching_resolver.cpp:327-373 | a lookup hits exactly on a live slot of the key's hash, or else on an L2 entry that expired less than the stale threshold ago or not at all |
| `Hits.LookupCopies` | src/caching_resolver.cpp:357-389 | a hit in L2 is served from L1 until it expires, a stale one for another minute, and queues one refresh unless 64 are waiting |
| `Hits.SlotsApart` | src/caching_resolver.cpp:62-74 | writing a slot leaves every other slot's lookups alone |
| `Hits.CachedReplyIs` | src/caching_resolver.cpp:662-672 | a cached reply has the query's id and questions, the cached sections with their counts, and the flags of a reply to the query |
| `Hits.RawReplyIs` | src/caching_resolver.cpp:546-618 | a reply to raw bytes has flags 0x8180, one question, and counts equal to the sections it carries; the stale form carries answers only |
| `Hits.VictimByExpiry` | src/caching_resolver.cpp:432-446 | the entry given up, by expiry alone: the fewest whole milliseconds left among the entries that have one |
| `Hits.CollectsExpired` | src/caching_resolver.cpp:678-690 | a collection keeps an entry exactly if it expires later, and as it was |
| `Resolver.ComputeCacheTTL` | src/caching_resolver.cpp:639-653 | one pass over three sections yields that TTL |
| `Resolver.ClobberTTL` | src/caching_resolver.cpp:655-660 | every record of every section gets the TTL and nothing else changes |
| `Resolver.CachingResolver.LookupTurbo` | src/caching_resolver.cpp:42-60 | a hit exactly when the slot has the key's hash, a message and an expiry in the future |
| `Resolver.CachingResolver.InsertTurbo` | src/caching_resolver.cpp:62-74 | overwrites the hash's slot and no other |
| `Resolver.CachingResolver.EnqueueRefresh` | src/caching_resolver.cpp:380-386 | appends unless 64 are waiting |
| `Resolver.CachingResolver.constructor` | src/caching_resolver.cpp:42-74 | an empty cache, the start of every run |
| `Resolver.CachingResolver.QueryCached` | src/caching_resolver.cpp:327-389 | the reply and the state of a lookup, for every cache state; it is a lookup step of the transition system and keeps its invariant; queries without exactly one question bypass the cache |
| `Resolver.CachingResolver.PeekCache` | src/caching_resolver.cpp:462-507 | the reply query would give from the cache, leaving the cache unchanged |
| `Resolver.CachingResolver.PeekCacheRaw` | src/caching_resolver.cpp:509-618 | the same lookup step on the key read from raw bytes, with the reply built without a parsed query |
| `Resolver.CachingResolver.ChooseVictim` | src/caching_resolver.cpp:432-446 | scanning in any order finds an entry whose remaining time is least among the positive ones, or any entry if none is positive |
| `Resolver.CachingResolver.EvictIfFull` | src/caching_resolver.cpp:432-446 | removes exactly a proper victim when L2 is full and nothing otherwise |
| `Resolver.CachingResolver.StoreFailure` | src/caching_resolver.cpp:395-420 | a failure is stored as SERVFAIL unless L2 is full; a store step that keeps the invariant |
| `Resolver.CachingResolver.StoreReply` | src/caching_resolver.cpp:422-456 | a cacheable reply is stored in both levels, evicting when full; a store step that keeps the invariant |
| `Resolver.CachingResolver.FinishQuery` | src/caching_resolver.cpp:391-460 | a reply without error that carries something, or one of the three negative codes, is afterwards in L2 under the question and returned as stored; any other leaves the cache alone; a failure is stored as SERVFAIL; always a store step that keeps the invariant |
| `Resolver.CachingResolver.RefreshEntry` | src/caching_resolver.cpp:293-325 | an entry that is still in L2 is replaced by any reply that would be stored; neither L1 nor any other key is touched; a refresh step that keeps the invariant |
| `Resolver.CachingResolver.TakeRefresh` | src/caching_resolver.cpp:200-209 | the refresh worker takes the front key; a step that keeps the invariant |
| `Resolver.CachingResolver.EraseExpired` | src/caching_resolver.cpp:681-687 | erasing during the walk, in any order, leaves exactly the live entries |
| `Resolver.CachingResolver.GcCache` | src/caching_resolver.cpp:678-690 | leaves exactly the live entries and L1 as it is; a collection step that keeps the invariant |
| `Resolver.CachingResolver.FlushCache` | src/caching_resolver.cpp:692-696 | empties L2 and leaves L1 alone; a flush step that keeps the invariant |
| `CacheRuns.StepInv` | src/caching_resolver.cpp:293-460 | every step keeps the history invariant: each slot and entry goes back to something stored under a key with the same hash, with bounded expiry |
| `CacheRuns.RunInv` | src/caching_resolver.cpp:293-696 | the invariant holds throughout every run, with L1 writes late or not |
| `CacheRuns.BoundedStaleness` | src/caching_resolver.cpp:42-74 | however lookups, stale re-insertions, refreshes, collections, evictions and flushes interleave, a hit at t serves something stored with expiry e where t < e + staleThreshold + 60s |
| `CacheRuns.Provenance` | src/caching_resolver.cpp:509-618 | if the hash separates the key from the keys used, both lookup paths answer with the sections of a message earlier stored in L2 under that key |
| `CacheRuns.EntryInvariant` | src/caching_resolver.cpp:395-460 | every L2 entry is a response that reports an error or carries an answer or authority, has one question matching its key's name and type, records that carry its TTL, and expiry equal to store time plus TTL |
| `CacheRuns.StoresInRange` | src/caching_resolver.cpp:395-427 | what a step stores has a TTL in [30, 7200] when the settings are in the controller's range |
| `CacheRuns.StoredEvictsOne` | src/caching_resolver.cpp:430-453 | storing into a full L2 removes the victim and no other entry |
| `CacheRuns.Capacity` | src/caching_resolver.cpp:405-453 | from any state with at most 50000 entries every run stays at most 50000, and the refresh queue at most 64 |
| `FastPath.ReadRawKey` | src/caching_resolver.cpp:509-536 | the byte loop yields the joined labels up to a terminator or pointer and the four bytes after the next one, and rejects the same inputs |
| `FastPath.RawKeyAgrees` | src/caching_resolver.cpp:509-536 | on accepted bytes with no pointer in the first question, the raw key is that question's key |
| `FastPath.FastPathRefinesSlowPath` | src/caching_resolver.cpp:462-618 | on accepted bytes with one pointer-free question both paths hit in the same states with the same id and answers, and outside stale L2 hits the same other sections |
| `FastPath.RawKeyExact` | src/caching_resolver.cpp:518-536 | the raw key is the first question's key if and only if that question has no pointer, or the pointer refers to an empty name and five bytes coincide |
| `FastPath.FastPathExact` | src/caching_resolver.cpp:462-618 | for all accepted bytes both paths hit in the same states, over all states, if and only if there is no question, or one question that meets that condition |
| `CacheFile.WalkOrder` | src/caching_resolver.cpp:90-96 | a walk visits every entry once |
| `CacheFile.CountLive` | src/caching_resolver.cpp:86-92 | the number of unexpired entries |
| `CacheFile.SaveCache` | src/caching_resolver.cpp:76-117 | header and records of the file for the order in which the map is walked; fails exactly when some entry that reaches the packing step has an over-long label |
| `CacheFile.LoadRecord` | src/caching_resolver.cpp:145-172 | one turn of the loop on any bytes: restored entry, skipped record, ended stream or parse error |
| `CacheFile.LoadCache` | src/caching_resolver.cpp:119-175 | the loop on any bytes and any map; a bad header changes nothing |
| `CacheFile.RecordReload` | src/caching_resolver.cpp:96-172 | a storable entry's record is read back as that entry wherever it stands in the file |
| `CacheFile.ExtraTurns` | src/caching_resolver.cpp:145-158 | turns beyond the last record change nothing |
| `CacheFile.SaveLoadRoundTrip` | src/caching_resolver.cpp:76-175 | loading a saved file into an empty cache yields exactly the entries with at least one whole second left, each under its key with its message, names normalised, TTLs and expiry reset to the seconds left, even when the header announces more records than were written |
| `CacheFile.SaveLoadExact` | src/caching_resolver.cpp:76-175 | in plain numbers: what comes back is what had a second to live and a key of at most 255 bytes; its TTLs are the whole seconds it had left and it expires that long after loading |
| `CacheFile.CanonicalReloaded` | src/caching_resolver.cpp:76-175 | an entry with canonical names comes back with the very message it had, but for the header counts |
| `CacheFile.OversizedEntryLost` | src/caching_resolver.cpp:101-157 | an entry that packs to more than 4096 bytes is saved and not restored |
| `CacheFile.OversizedEntryHidesNext` | src/caching_resolver.cpp:157-161 | the loader does not skip such an entry's bytes: whatever entry follows is lost with it when the oversized message has an id below 256, fewer than 12 authorities and fewer than 256 additionals |
| `Server.StepInv` | src/auto_tuner.cpp:210-265 | cache steps, using any TTL settings there have been, and tuning cycles keep the joint invariant |
| `Server.RunInv` | src/caching_resolver.cpp:293-460 | over every interleaving of cache steps and tuning cycles everything ever stored was stored for 30 to 7200 seconds |
| `Server.EntryTTLs` | src/caching_resolver.cpp:395-460 | in every reachable state an L2 entry is well formed, recorded in the history and has a TTL in [30, 7200] |
| `Server.RestartKeepsInv` | src/caching_resolver.cpp:76-175 | saving a cache that satisfies the invariant and loading it into a new server satisfies it again if and only if the saved names are their own normal form, and no entry returns with a longer TTL |

## Left out

- Sockets, TLS, HTTP, the monitor pages and the upstream and system resolvers: the backend's reply is an arbitrary optional message, an open attempt an arbitrary boolean, a health check an arbitrary outcome.
- Liveness: condition variables, spinlocks, sleeps, back-off delays and memory ordering. Locked regions and single atomic accesses are steps, and what is proved is safety.
- Clock drift inside a call: each step reads the clock once and readings never decrease. A call that tests staleness and then stamps an L1 copy reads the clock twice; the time between the two readings adds to the 60 seconds.
- The stale threshold is constant throughout a run; nothing in the repository calls its setter.
- Order of rate-limit updates: `allow` reads the clock before it takes the shard's lock, so updates may arrive out of clock order; the bounds of `RateLimit` assume that they arrive in it (`Monotone`), not only that the clock is monotone.
- The hash functions: `turboHash` and the shard hash are parameters, so every result holds for every hash; `CacheRuns.Provenance` asks that the hash separates the keys used.
- Machine widths of the request counter of a client, the controller's streak counters and the clock: they are unbounded. Header counts, record TTLs, RDATA lengths and the SOA length check have their exact widths.
- Floating-point rounding in the controller: latencies and rates are reals.
- The controller's PID terms, variance, fan-out decision, idle probing and query-rate bookkeeping: they feed no modelled field; the rate is an input.
- Resolver.CachingResolver.ChooseVictim: tracks "none found yet" with a flag instead of the largest 64-bit value as a sentinel.
- FastPath.FastPathRefinesSlowPath: claims nothing for stale authority and additional sections, which the raw path leaves empty, nor for questions and flags, which it takes from the cached message and a constant; queries with several questions are settled by `FastPath.FastPathExact`.
- CacheRuns.Provenance: says nothing of the response code, which cached replies take from the query, nor that served TTLs count down, which they do not.
- CacheRuns.EntryInvariant: the class of an entry's question is not compared with its key, because the source does not compare it either.
- CacheFile.LoadCache: a file that ends inside its header is rejected, where the source reads an uninitialised variable; integers in the file are little-endian.
- ThreadPool.LiveCountBounds: starts from a pool constructed with 4 to 64 workers, as both pools of the server are; the joining of threads and `scrubWorkers`, which never erases an entry of a joinable thread, are not modelled.
- Pool.WorkerPool.Resize: is the run without interference; what other threads do in between is covered by the results over all interleavings. The worker's own loop appears as steps of `ThreadPool`, not as a method.
- Reconnect.ConnectedCountExact: assumes non-null flag pointers written only by the controller, guarded calls of manage and unmanage, and without an open function that no job of a managed entry has come to its first lookup; `Reconnect.StepExact` says that anything else breaks the invariant. `lastUse`, `lastCheck` and `failures` are left out.
- Compression.SmallMessageNormalForm: larger messages need the explicit condition that expanded RDATA fits 16 bits, because `pack` truncates the length field.
- Display and bookkeeping: `toString`, `rdataToString`, `createQuery`, `DomainMap::fromString`, query counters, logging, warmup, adaptive prewarm and the choice of entries to refresh early (a refresh may happen at any time in `CacheRuns`).
- `src/main.cpp`, `src/latency_manager.cpp`, `src/perf_monitor.cpp`, scripts and web assets.
