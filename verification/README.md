# k8s4claw, modelled and proved

A Dafny model of the parts of the k8s4claw operator whose correctness is not visible from any single
function: the IPC bus (write-ahead log, concurrent routing, dead letter queue, ring buffer,
backpressure, framing), the auto-update state machine, the ops-intent consumer, the escalation
protocol, the rule engine with its rate limiter, and the configuration merge.

| file | what it models |
|---|---|
| `Common.dfy`, `Decimal.dfy` | options, messages, Go's string order; decimal integers |
| `RingBuffer.dfy` | the wrap-around ring with two watermarks |
| `Wal.dfy` | the write-ahead log: operations, recovery, compaction, crashes |
| `Router.dfy` | concurrent inbound handlers, crashes and restarts as a state machine, accounted by id |
| `Delivery.dfy` | the same machine accounted message by message |
| `Uptime.dfy` | the same machine's log lines against the recovery scanner's limit |
| `Dispatch.dfy` | the router's methods run alone, and replay after a restart |
| `Backpressure.dfy` | handlers, ring, and each connection's wire and SDK throttle as one protocol |
| `Dlq.dfy` | the bounded dead letter queue |
| `Framing.dfy` | length-prefixed frames |
| `Semver.dfy` | version precedence and the choice of a tag |
| `AutoUpdate.dfy` | version check, health check, rollback, circuit breaker |
| `OpsIntent.dfy` | resource requirements, the intent consumer with its cached reads and merge patches |
| `Escalation.dfy` | the escalation object and the three programs that write it |
| `Rules.dfy`, `ClawOps.dfy` | rule matching with cooldowns; the rate-limited reconcile |
| `DeepMerge.dfy` | merging configuration in place |

`dafny verify dfyconfig.toml` checks everything.

Code that updates objects is modelled by classes and methods, each proved against a function on values;
the statements about whole runs, interleavings and crashes are lemmas about those functions. A protocol
between several programs is a state machine whose steps are the atomic calls. Clocks, the network, JSON,
semver, quantity and time parsing are parameters. Watermarks are reals instead of 64-bit floats. Times
and quantities are integers.

## What turned out false of the code

Each of these is a lemma with a run or input, next to the condition under which the promise holds.

- The watermarks do not always leave a gap: `WatermarksOrderedIff`, `HysteresisIff`.
- The router delivers at least once only if it has a bridge and a dead letter queue: `AtLeastOnceIff`. A
  crash between MarkDLQ and Put loses an id even then: `CrashWindowLosesAnId`. It tells messages apart by
  id, so messages (not only ids) are all delivered exactly when no two share one: `EachMessageIff`.
- A message is never retried by the bus. The dead letter queue is reached only when four handlers of one
  id overlap: `FewRacersNeverDeadLetter`, `FourRacersReachPut`.
- A refused send keeps its ring slot, so a throttled ring empties only as far as its handlers in flight.
  A resume can be sent exactly when the channel has at least as many connections as there are counts from
  the low mark up to the high one (`ResumeIff`), 513 with the defaults (`DefaultsNeedManyConnections`).
- A signal goes only to the connection whose message caused it. All clients follow the ring exactly with
  at most one connection (`AgreementIff`); with two, a client can be resumed twice without having been
  slowed down and close a closed channel, exactly when a resume is possible at all (`DoubleCloseIff`).
- The framing takes messages up to 16 MiB and the log wraps each in a longer line, which recovery with the
  same limit refuses: `FreshLineLen`, `LongestMessage`. A bus that restarts with such a line on disk does
  not come up, then or later: `ReceivedYetJams`, `JammedForGood`. A compaction before the restart drops the
  line of a completed message. A message is back after a crash exactly when its line is at most 16 MiB
  (`LoggedMessageReturnsIff`), and 512 bytes below that, with room for the attempts, the bus always comes up
  (`SmallMessagesStayUp`).
- A log reopened after a crash within a line appends right behind the torn bytes, so the next record is
  lost with them (`TornTailLosesMessage`), and if the joined line is too long the next restart fails
  (`JoinedLineTooLong`). `TornTailKeepsIff` says exactly when everything is recovered all the same.
- The dead letter queue exceeds a capacity of zero (`CapacityIff`) and shrinks when an id is put again at
  capacity (`PutSize`). The earliest entry is evicted exactly when no other entry of its second extends its
  fraction: `EvictsEarliestIff`, `StampsSortIff`.
- The client's read loop takes a stream torn right behind a header for a clean disconnect: `LooksCleanIff`.
- A status write lost after a promotion, a rollback, or an initiation rolled back later makes the
  auto-updater try a tag again (`LostStatusWriteRepeatsIff`); no other lost write matters
  (`NoTagTwiceVersionsRise`). An open circuit breaker never closes by itself: `OpenForever`.
- An intent whose parameters are rejected does raise the generation mark, unlike a malformed one:
  `ConsumeMark`. The replay guard sees only the cached object: a read older than the reconciler's own
  commit executes a generation twice (`StaleReadExecutesTwice`). Used generations climb over a run exactly
  when every read whose use landed was ahead of the mark of its moment (`ClimbsIff`, `ReplaySafe`). An
  intent written between read and commit is deleted unseen: `WriteSurvivesIff`. A pod is restarted again
  exactly when the next read finds the same version, after a failed patch or in a cache that lags behind a
  landed one: `RestartRepeatsIff`.
- The hourly limit and the cooldowns bound recorded executions only (`WindowLimit`, `CooldownRespected`). An
  intent whose audit record fails is neither counted nor cooled and is escalated as well, without bound:
  `CountedOrLoose`, `LooseUnbounded`.
- A spec that gives only a limit can end below the adapter's request: `OverlayOrderedIff`,
  `LimitOnlySpecUndercuts`.
- An escalation can be rejected and still have had its action carried out, exactly when the rejection lands
  on an approved object: `CarriedOutRejectionIff`.
- The field `ttlSecondsAfterFinished` is documented as counting from the terminal phase
  (api/v1alpha1/clawopsescalation_types.go:92); the code counts from creation. `KeepsFinishedTtlIff` says
  when the documented promise is kept all the same, `DeletedAtOnce` gives a run that breaks it.

## Model

| member | source | states |
|---|---|---|
| `RingBuffers.WatermarksOrderedIff` | internal/ipcbus/ringbuffer.go:49-65 | the constructor gives low < high except exactly when the low input is replaced by its default and the high mark in force is at most 0.3; normalising twice changes nothing |
| `RingBuffers.DefaultsOnlyWhereInvalid` | internal/ipcbus/ringbuffer.go:49-65 | valid inputs are kept and each invalid one is replaced by its own default |
| `RingBuffers.RingBuffer.constructor` | internal/ipcbus/ringbuffer.go:49-65 | an empty ring in normal mode with the defaulted size and marks |
| `RingBuffers.RingBuffer.Store` | internal/ipcbus/ringbuffer.go:77-79 | writing at the tail and wrapping appends to the FIFO the array stands for |
| `RingBuffers.RingBuffer.Take` | internal/ipcbus/ringbuffer.go:101-104 | reading at the head and wrapping removes the oldest, and the freed slot holds no reference |
| `RingBuffers.RingBuffer.Push` | internal/ipcbus/ringbuffer.go:69-88 | refines the bounded FIFO: full means refused and unchanged; the flag is raised exactly when the mode changes |
| `RingBuffers.RingBuffer.Pop` | internal/ipcbus/ringbuffer.go:93-113 | refines the bounded FIFO: the oldest message or none; the flag is raised exactly when the mode changes |
| `RingBuffers.RunSettled` | internal/ipcbus/ringbuffer.go:69-113 | in every run, normal implies fill below high and slow implies fill above low, when no count lies between the marks |
| `RingBuffers.OverlapBreaks` | internal/ipcbus/ringbuffer.go:81-85 | when a count does lie between the marks, a run of pushes that breaks the promise |
| `RingBuffers.HysteresisIff` | internal/ipcbus/ringbuffer.go:30-33 | the two promises hold in all runs if and only if no count lies between the marks; low < high suffices |
| `RingBuffers.SignalsSpaced` | internal/ipcbus/ringbuffer.go:81-110 | the signals of every run alternate starting with slow_down, and consecutive ones are at least (high - low) * size net operations apart |
| `Wal.ReplayIsLastWord` | internal/ipcbus/wal.go:90-102 | an id is pending after replay exactly when its last deciding record is pending, and its entry is that record; corrupt lines and unknown states do not count |
| `Wal.Recover` | internal/ipcbus/wal.go:77-105 | rebuilds the replayed map, and fails exactly when some line exceeds the scanner's limit |
| `Wal.FreshLineFitsIff` | internal/ipcbus/wal.go:87-88 | the exact length of a fresh entry's line, and that a restart can read it if and only if that is at most 16 MiB |
| `Wal.ShortLineLen` | internal/ipcbus/wal.go:26-33 | the exact length of a record without a message |
| `Wal.FreshLineLen` | internal/ipcbus/wal.go:26-33 | a fresh log line is at least 69 bytes longer than the message in it, so messages within 69 bytes of the scanner's limit do not fit |
| `Wal.ExecIsReplayed` | internal/ipcbus/wal.go:121-209 | the record each operation writes carries exactly its effect on memory |
| `Wal.WholeReplay` | internal/ipcbus/wal.go:121-209 | after any run of operations, replaying all records rebuilds memory |
| `Wal.PrefixReplay` | internal/ipcbus/wal.go:77-209 | replaying any prefix of the records rebuilds the memory that held right after the operation that wrote the prefix's last record |
| `Wal.WrittenCarriesMessages` | internal/ipcbus/wal.go:125-132 | every pending record a run of operations writes carries its message |
| `Wal.LifetimeCarries` | internal/ipcbus/wal.go:77-286 | over whole lifetimes, through compactions, crashes and restarts, every pending record and entry keeps its message |
| `Wal.CompactedRecovers` | internal/ipcbus/wal.go:234-248 | for every map iteration order the compacted file recovers to the same map |
| `Wal.StepConsistent` | internal/ipcbus/wal.go:121-300 | operations, flushes, compactions and restarts keep the memory of an open log equal to the replayed log |
| `Wal.CrashRecoversAnEarlierMoment` | internal/ipcbus/wal.go:77-300 | over whole lifetimes, any prefix a crash leaves (never less than was synced) is the log of an earlier moment; the restart recovers that moment's memory, or fails at a line that does not fit |
| `Wal.FittingStaysUp` | internal/ipcbus/wal.go:87-104 | a log whose lines have always fitted comes up after every crash |
| `Wal.StuckForGood` | internal/ipcbus/wal.go:87-104 | a line on disk that does not fit keeps the log from ever opening again |
| `Wal.TornTailKeepsIff` | internal/ipcbus/wal.go:61-104 | a log reopened over a torn last line comes up at the next restart with everything done since, if and only if the record joined to the torn bytes does not make their line too long, the records behind it fit, and every id is decided by a later record or was left unchanged by those swallowed |
| `Wal.TornRestartIff` | internal/ipcbus/wal.go:77-105 | the restart right after a torn line comes up if and only if the bytes behind the last newline are fewer than 16 MiB, with the whole records and an unended one |
| `Wal.RescanFits` | internal/ipcbus/wal.go:87-104 | behind a torn line, the lines fit if and only if the torn bytes and the first record together do and the others do |
| `Wal.JoinedLineTooLong` | internal/ipcbus/wal.go:87-104 | a torn line and a record that each fit, joined over the limit, fail the restart although no id depends on what is swallowed |
| `Wal.TornTailLosesMessage` | internal/ipcbus/wal.go:61-96 | the first new message appended behind a torn line of at least one byte is gone at the next restart |
| `Wal.OpenWAL` | internal/ipcbus/wal.go:48-105 | no log exactly when the files cannot be had or a line does not fit; otherwise memory is what the file says |
| `Wal.WAL.AppendEntry` | internal/ipcbus/wal.go:108-118 | one record is added behind file and buffer, whatever part of the buffer reaches the file on the way |
| `Wal.WAL.Append` | internal/ipcbus/wal.go:121-139 | a fresh pending entry with one attempt, in memory and in the log |
| `Wal.WAL.Complete` | internal/ipcbus/wal.go:142-164 | removes a pending id and logs it, or reports it missing and writes nothing |
| `Wal.WAL.MarkDead` | internal/ipcbus/wal.go:167-189 | the same for dead-lettering |
| `Wal.WAL.Increment` | internal/ipcbus/wal.go:193-209 | raises the attempts in memory and in the log and returns them, or reports the id missing |
| `Wal.WAL.PendingEntries` | internal/ipcbus/wal.go:212-221 | every pending entry once, in some order |
| `Wal.WAL.FlushBuffer` | internal/ipcbus/wal.go:290-292 | moves the whole buffer into the file, or part of it and leaves the writer unusable; the log does not change |
| `Wal.WAL.Flush` | internal/ipcbus/wal.go:286-300 | success means everything logged is on disk; a failed sync leaves the records in the file, a failed write part of them |
| `Wal.WAL.Rename` | internal/ipcbus/wal.go:273-275 | the path holds the compacted file, which recovers to the same map |
| `Wal.WAL.Compact` | internal/ipcbus/wal.go:224-286 | from the completed flush of the old file on, wherever compaction stops, the file at the WAL path recovers to exactly the pending map; a failed flush leaves the log as it was; after the rename everything is on disk |
| `Router.RunAccounted` | internal/ipcbus/router.go:103-161 | in every interleaving with crashes and replays, each id ever appended is pending on record, accepted, dead-lettered, held between MarkDLQ and Put, or in one of two explicit crash windows |
| `Router.NextAccounted` | internal/ipcbus/router.go:109-149 | every step of every handler keeps that accounting |
| `Router.NoCrashNoLoss` | internal/ipcbus/router.go:103-161 | without crashes both windows are empty and the bus is up |
| `Router.OnlyCutRecordsErased` | internal/ipcbus/wal.go:77-105 | a crash erases no id whose deciding record is among those kept |
| `Router.FittingBusStaysUp` | internal/ipcbus/wal.go:87-104 | while every log line fits, the bus comes up after every crash of every run |
| `Uptime.LoggedMessageReturnsIff` | internal/ipcbus/wal.go:77-138 | a message received, logged and synced is pending again after a crash, and the bus up, if and only if its line is at most 16 MiB |
| `Uptime.SmallMessagesStayUp` | internal/ipcbus/wal.go:87-104 | a bus sent only messages 512 bytes and the digits of the attempts short of the limit comes up after every crash of every run |
| `Router.OversizeMessageJams` | internal/ipcbus/wal.go:87-104 | any message whose log line does not fit, once synced, makes the next restart fail |
| `Router.JammedForGood` | internal/ipcbus/wal.go:48-70 | from then on no continuation comes up, accepts or dead-letters anything |
| `Router.RunCarries` | internal/ipcbus/wal.go:125-132 | in every run every pending record carries its message |
| `Router.FewRacersNeverDeadLetter` | internal/ipcbus/router.go:257-283 | while at most three handlers of one id race, no run reaches the dead letter queue |
| `Router.FourRacersReachPut` | internal/ipcbus/router.go:262-274 | four overlapping handlers with refused sends do reach it |
| `Router.AtLeastOnceIff` | internal/ipcbus/router.go:136-142 | the accounting holds in all runs if and only if the router has a bridge and a dead letter queue |
| `Router.CrashWindowLosesAnId` | internal/ipcbus/router.go:270-274 | a run in which a crash between MarkDLQ and Put leaves an id nowhere |
| `Delivery.EachMessageIff` | internal/ipcbus/router.go:103-161 | with bridge and queue, in every run over a set of messages each appended message itself is on record, accepted, dead-lettered, about to be, or in a crash window, if and only if no two data messages of the set share an id |
| `Delivery.SameIdOverwrites` | internal/ipcbus/wal.go:125-138 | a refused message is nowhere once another with its id is appended, without any crash |
| `Dispatch.ScheduleRetry` | internal/ipcbus/router.go:257-283 | nothing without a log; below five attempts counts one; from five on moves the id out of the log and into the queue if there is one |
| `Dispatch.HandleInbound` | internal/ipcbus/router.go:103-161 | the whole effect of one message on log, ring and signals for control, delivered and refused messages, with or without a log, a ring and a queue; one handler alone never dead-letters |
| `Dispatch.RaisedIff` | internal/ipcbus/router.go:121-160 | slow_down is sent exactly at the push that reaches the high mark in normal mode, resume exactly at the pop that reaches the low mark in slow mode |
| `Dispatch.AloneAgrees` | internal/ipcbus/router.go:103-161 | the concurrent machine with a single handler does to the log what HandleInbound does |
| `Dispatch.ReplayWAL` | internal/ipcbus/router.go:219-241 | nothing without a log; each pending entry with a message is sent once, and exactly those accepted are completed |
| `Dispatch.RestartRedelivers` | internal/ipcbus/router.go:219-241 | after a crash, exactly the ids whose surviving records end in pending are sent, once each, and exactly those refused stay pending |
| `Dispatch.RouterRestartRedelivers` | internal/ipcbus/router.go:219-241 | the same for every run of the concurrent router and every crash it comes up from |
| `Dispatch.ReceivedYetJams` | internal/ipcbus/framing.go:34-55 | every message within 69 bytes of the frame limit is read from the socket, logged, and stops the bus at the next restart |
| `Dispatch.LongestMessage` | internal/ipcbus/framing.go:11-22 | a message of exactly 16 MiB of plain text whose log line does not fit |
| `Dispatch.PlainFitsIff` | internal/ipcbus/wal.go:87-88 | exactly which messages of plain text a restart can read back |
| `Dispatch.MissingMessageStays` | internal/ipcbus/router.go:228-230 | an entry without its message is never sent and stays pending |
| `Backpressure.Client.HandleMessage` | sdk/channel/client.go:255-269 | refines the numbered throttle of the protocol: slow_down installs a fresh gate, resume closes the current one and panics exactly when it is already closed, other kinds change nothing |
| `Backpressure.SendWaitsIff` | sdk/channel/client.go:152-167 | a Send waits exactly while its client is throttled, on the gate in place, and goes on exactly when cancelled or that gate is closed |
| `Backpressure.ResumeFrees` | sdk/channel/client.go:255-269 | the next resume frees every Send that waits on the gate in place |
| `Backpressure.Occupancy` | internal/ipcbus/router.go:116-160 | under any interleaving the ring holds in-flight handlers plus refused sends, less spills, plus pops that found it empty; so at most the first two |
| `Backpressure.TooFewNeverResume` | internal/ipcbus/router.go:136-160 | with fewer connections than counts from the low mark up to the high one, no run ever leaves slow mode or sends a resume, spills included |
| `Backpressure.ResumeIff` | internal/ipcbus/router.go:143-160 | a resume can be sent if and only if there is a connection and at least that many of them |
| `Backpressure.DefaultsNeedManyConnections` | internal/ipcbus/router.go:12-15 | with the default size and marks that is 513 connections |
| `Backpressure.RunAgreed` | internal/ipcbus/router.go:121-160 | with one connection, signals in flight always take the client's flag to the ring's mode |
| `Backpressure.ClientFollowsRing` | sdk/channel/client.go:255-269 | with one connection, after everything in flight arrives the client is throttled exactly when the ring is in slow mode; no gate is closed twice; every waiting Send waits on the gate the next resume closes; such a resume can exist only when the marks are at most one count apart |
| `Backpressure.AgreementIff` | internal/ipcbus/router.go:121-160 | in all runs every client ends up following the ring if and only if there is at most one connection |
| `Backpressure.DoubleCloseIff` | sdk/channel/client.go:255-269 | a client can close a closed gate if and only if there are two connections and a resume can be sent |
| `DeadLetters.DLQ.EvictOldest` | internal/ipcbus/dlq.go:207-229 | removes the entry least in CreatedAt as a string, the first key among equals |
| `DeadLetters.DLQ.Put` | internal/ipcbus/dlq.go:64-93 | evicts exactly that entry when at capacity, then stores under the id |
| `DeadLetters.DLQ.CollectExpired` | internal/ipcbus/dlq.go:170-187 | the expired keys once each, or an error exactly when some CreatedAt does not parse |
| `DeadLetters.DLQ.PurgeExpired` | internal/ipcbus/dlq.go:162-199 | removes exactly the entries before the cutoff and returns their number; on an error changes nothing |
| `DeadLetters.OldestUnique` | internal/ipcbus/dlq.go:207-229 | the entry to evict is unique |
| `DeadLetters.PutSize` | internal/ipcbus/dlq.go:78-92 | the exact size after a Put, which at capacity never grows |
| `DeadLetters.CapacityIff` | internal/ipcbus/dlq.go:82-86 | every Put respects the capacity if and only if it is at least one |
| `DeadLetters.KeepsNewest` | internal/ipcbus/dlq.go:64-93 | after Puts with distinct ids and ascending CreatedAt exactly the last maxSize entries remain |
| `DeadLetters.StampsSortIff` | internal/ipcbus/dlq.go:69 | two times written with trailing zeros dropped sort chronologically as text if and only if they differ in the second or neither fraction extends the other |
| `DeadLetters.EvictsEarliestIff` | internal/ipcbus/dlq.go:207-229 | of any bucket the chronologically first entry is evicted if and only if no other entry of its second extends its fraction |
| `Framing.Uint32RoundTrip` | internal/ipcbus/framing.go:25-40 | every 32-bit length survives its big-endian header |
| `Framing.WriteMessage` | internal/ipcbus/framing.go:15-32 | writes one whole frame, or nothing when marshalling fails or the body exceeds 16 MiB |
| `Framing.ReadMessage` | internal/ipcbus/framing.go:34-55 | consumes and answers as the pure parser, error kinds included |
| `Framing.TooLargeIff` | internal/ipcbus/framing.go:40-44 | a frame is refused for its size exactly when its header announces more than 16 MiB |
| `Framing.CutAnywhere` | sdk/channel/message.go:70-105 | cut anywhere, a stream of frames from either side yields exactly the whole messages before the cut, then an error that tells a cut between frames from one inside |
| `Framing.StreamRoundTrip` | sdk/channel/message.go:87-105 | the uncut stream yields every message and a clean end |
| `Framing.LooksCleanIff` | sdk/channel/client.go:234-246 | the client reads a cut as a clean disconnect exactly between frames or right behind a header |
| `Semver.CmpOrder` | internal/registry/resolver.go:242-247 | version precedence is a total order |
| `Semver.CmpIsPrecedence` | internal/registry/resolver.go:242-247 | the comparison is the order worded in section 11 of Semantic Versioning 2.0.0 |
| `Semver.AboveIff` | internal/registry/resolver.go:242-244 | a version counts as an upgrade exactly when no parsable version runs or the running one precedes it |
| `Semver.BestIndex` | internal/registry/resolver.go:230-248 | the first of the highest eligible tags, or none exactly when none is eligible |
| `Semver.ResolveBestVersion` | internal/registry/resolver.go:214-254 | finds a tag exactly when one parses, satisfies the constraint, has not failed and is above the running version, and then the highest |
| `AutoUpdate.ExtractRoundTrip` | internal/controller/autoupdate_controller.go:416-427 | the tag comes back from any image reference built from it |
| `AutoUpdate.BuiltIsNotPinned` | internal/controller/autoupdate_controller.go:107-112 | an image reference built from a repository and a tag never passes for a pinned digest |
| `AutoUpdate.PinnedIff` | internal/controller/autoupdate_controller.go:107-112 | an image counts as pinned exactly when the digest marker occurs in it |
| `AutoUpdate.ContainsString` | internal/controller/autoupdate_controller.go:437-444 | membership |
| `AutoUpdate.ClawObject.TrimVersionHistory` | internal/controller/autoupdate_controller.go:430-434 | the history becomes its last fifty entries |
| `AutoUpdate.ClawObject.RollBack` | internal/controller/autoupdate_controller.go:317-380 | the whole state after a rollback: version failed once, count raised, breaker opened at the threshold, annotations cleared |
| `AutoUpdate.ClawObject.ReconcileHealthCheck` | internal/controller/autoupdate_controller.go:220-315 | the whole state and event of a health-check reconcile |
| `AutoUpdate.VerdictIff` | internal/controller/autoupdate_controller.go:226-314 | promoted if and only if the start parses and every desired replica is updated and ready; rolled back if and only if the start does not parse or, the set being readable and not ready, the timeout has passed; otherwise nothing changes |
| `AutoUpdate.VerdictEffects` | internal/controller/autoupdate_controller.go:257-380 | the whole object after each verdict: running version, rollbacks, breaker at the configured or default threshold, failed list and history |
| `AutoUpdate.ClawObject.ReconcileObject` | internal/controller/autoupdate_controller.go:81-218 | the whole state and event of a reconcile |
| `AutoUpdate.InitiatedIff` | internal/controller/autoupdate_controller.go:81-218 | exactly when a version is initiated, which one, and the whole object then |
| `AutoUpdate.PromotedWereReady` | internal/controller/autoupdate_controller.go:257-314 | over every run, whatever is promoted was seen with all replicas updated and ready and whatever is rolled back was not |
| `AutoUpdate.StepInv` | internal/controller/autoupdate_controller.go:102-217 | in the health-check phase the target image carries a version above the running one that has not failed; what each event does to versions, whether its status write lands or not |
| `AutoUpdate.NoTagTwiceVersionsRise` | internal/controller/autoupdate_controller.go:81-380 | no tag is initiated twice and the versions promoted strictly rise in precedence, in every run that loses no status write of a verdict nor of an initiation whose trial is rolled back |
| `AutoUpdate.LandedTrialNamed` | internal/controller/autoupdate_controller.go:180-215 | a trial whose initiation landed is the version the status names, so a rollback blames the right one |
| `AutoUpdate.BreakerHolds` | internal/controller/autoupdate_controller.go:329-352 | with a fixed threshold and no verdict lost, the breaker is open exactly when the count has reached it, the count never passes it, and an open breaker excludes the health-check phase |
| `AutoUpdate.OpenForever` | internal/controller/autoupdate_controller.go:160-174 | once open, no later reconcile changes image, phase, running version, failed list or count |
| `AutoUpdate.HistoryIsLastFifty` | internal/controller/autoupdate_controller.go:430-434 | when no verdict is lost the history is the last fifty of the earlier history and all attempts, in order |
| `AutoUpdate.LostStatusWriteRepeatsIff` | internal/controller/autoupdate_controller.go:201-215 | over one trial, a tag is initiated twice exactly when the write after the verdict is lost, or the one after the initiation is lost and the verdict is a rollback |
| `Decimal.IntRoundTrip` | internal/controller/claw_ops_intent_consumer.go:73-93 | a generation written to the annotation is read back |
| `Decimal.ReadBackIff` | internal/controller/claw_ops_intent_consumer.go:73-93 | a written number is read back within 32 or 64 signed bits and refused outside them |
| `Resources.OverlayOrderedIff` | internal/controller/claw_ops_intent_consumer.go:335-348 | an overlay keeps requests within limits if and only if every resource given by half fits the inherited half; paired overlays always do |
| `Resources.BumpPaired` | internal/controller/claw_ops_intent_consumer.go:251-279 | a bump keeps resources paired, sets the limit, and leaves a request that fits alone |
| `Resources.MergeList` | internal/controller/claw_ops_intent_consumer.go:339-347 | in any order, source entries replace and the others stay |
| `Resources.ApplyResourceOverrides` | internal/controller/claw_ops_intent_consumer.go:315-323 | only the first container called runtime is overlaid |
| `OpsIntent.ValidateIntent` | internal/controller/clawops_intent.go:34-46 | an intent passes, as decoded, exactly when it decodes and its action is allowed |
| `OpsIntent.BuildIntentPatch` | internal/controller/claw_ops_intent_consumer.go:97-148 | a patch is built exactly when the action's parameters are present and well-formed; replicas are within 1..10 |
| `OpsIntent.PatchMeans` | internal/controller/claw_ops_intent_consumer.go:97-148 | the patch carries the parameters' values |
| `OpsIntent.ClawObject.CurrentIntentGen` | internal/controller/claw_ops_intent_consumer.go:81-94 | the mark, zero when missing or malformed |
| `OpsIntent.MarkIs` | internal/controller/claw_ops_intent_consumer.go:81-94 | the mark is the number written in the annotation, zero when missing, malformed or out of range |
| `OpsIntent.ClawObject.ClearOpsIntentAnnotations` | internal/controller/claw_ops_intent_consumer.go:69-77 | removes the intent, raises the mark if higher, and returns the mark then in force |
| `OpsIntent.ClawObject.ApplyIntentPatch` | internal/controller/claw_ops_intent_consumer.go:249-300 | the whole spec after each kind of patch |
| `OpsIntent.ClawObject.ConsumeAndExecute` | internal/controller/claw_ops_intent_consumer.go:158-232 | the whole object and outcome of a consume on every path |
| `OpsIntent.ConsumeAnswers` | internal/controller/claw_ops_intent_consumer.go:34-62 | from the annotation: nothing if and only if it is missing or empty; malformed, and then exactly the intent removed, if and only if it does not decode or its action is not allowed; stale, and nothing changed, if and only if it is valid and not above the mark |
| `OpsIntent.IntentTakesEffect` | internal/controller/claw_ops_intent_consumer.go:186-222 | a fresh valid intent is executed exactly when its parameters are good and the restart works; the whole object then differs exactly in what its action names, the intent and the mark; otherwise only in the intent and the mark |
| `OpsIntent.ConsumeMark` | internal/controller/claw_ops_intent_consumer.go:158-232 | the mark moves exactly when a generation is used, and up to it; malformed and stale intents leave it; only an execution changes the spec |
| `OpsIntent.ConsumeTwice` | internal/controller/claw_ops_intent_consumer.go:158-232 | consuming twice in a row equals consuming once |
| `OpsIntent.PatchFresh` | internal/controller/claw_ops_intent_consumer.go:161-224 | applied to an object that differs at most in its intent, the merge patch gives exactly what the consume computed |
| `OpsIntent.CommitIsConsume` | internal/controller/claw_ops_intent_consumer.go:158-224 | when reads that use a generation see the current mark, read and commit behave as one step whatever is written in between |
| `OpsIntent.ClimbsIff` | internal/controller/claw_ops_intent_consumer.go:35-94 | over a whole run the generations used up strictly increase, ending at the mark, if and only if every read whose use landed used one above the mark of its moment |
| `OpsIntent.ReplaySafe` | internal/controller/claw_ops_intent_consumer.go:35-94 | in every such run the mark never falls and committed executions have strictly increasing generations |
| `OpsIntent.TrustedIsAhead` | internal/controller/claw_ops_intent_consumer.go:52-58 | a read that sees the current mark is ahead of it; so is a stale read of a newer intent |
| `OpsIntent.StaleReadExecutesTwice` | internal/controller/claw_ops_intent_consumer.go:158-224 | for every executable intent, a read older than the commit executes it twice |
| `OpsIntent.WriteSurvivesIff` | internal/controller/claw_ops_intent_consumer.go:158-224 | in every state, an intent written meanwhile survives exactly when nothing is in flight or the patch fails; otherwise the object ends as if it had not been written |
| `OpsIntent.RestartsOnce` | internal/controller/claw_ops_intent_consumer.go:292-295 | pod restarts too happen once per generation when reads that use one are ahead of the mark and the patches that follow a restart land |
| `OpsIntent.RestartRepeatsIff` | internal/controller/claw_ops_intent_consumer.go:205-224 | after a restart, the next read of that version or a later one restarts for the same generation if and only if it finds that version again, whether the patch landed or not |
| `OpsIntent.RunSpecOk` | internal/controller/claw_ops_intent_consumer.go:249-348 | every run with such reads keeps resources paired and replicas untouched or within 1..10, and the runtime container's requests within its limits |
| `OpsIntent.LimitOnlySpecUndercuts` | internal/controller/claw_ops_intent_consumer.go:335-348 | the pairing is needed |
| `Escalation.WritesRaise` | api/v1alpha1/clawopsescalation_types.go:27-35 | every write a guard permits raises the phase rank |
| `Escalation.DocumentedLife` | api/v1alpha1/clawopsescalation_types.go:14-35 | every stored version of every run follows from the one before by one of eight transitions, spelled out field by field |
| `Escalation.CallDoes` | cmd/claw4k8s/watcher.go:167-225 | a report on the newest version writes the pipeline's result, Failed on a hard error; a stale write writes nothing; an intent is written exactly when its patch goes through |
| `Escalation.HardErrorsProposeNothing` | cmd/claw4k8s/watcher.go:168-175 | while every analysis fails hard, nothing is ever proposed, approved or written to the Claw |
| `Escalation.CarriedOutRun` | internal/controller/clawops_controller.go:333-363 | for every action, a run that ends executed with exactly that action written once |
| `Escalation.NextSafe` | cmd/claw4k8s/watcher.go:152-225 | every API call of every program keeps the protocol's invariant |
| `Escalation.ProtocolSafe` | internal/controller/clawops_controller.go:333-392 | on arbitrarily stale snapshots: at most five status writes of rising rank, terminal phases last, only terminal objects deleted, every intent of the approval path the one approved non-empty proposal |
| `Escalation.RecordsTruthful` | internal/controller/clawops_controller.go:314-362 | Executed is recorded only after its proposal was written to the Claw, AutoExecuted only with its creator's rule and intent |
| `Escalation.TerminalAbsorbs` | api/v1alpha1/clawopsescalation_types.go:27-35 | no continuation changes a terminal object |
| `Escalation.RejectedYetCarriedOut` | internal/controller/clawops_controller.go:348-363 | a run that ends rejected with the intent written |
| `Escalation.NoApprovalNoIntent` | internal/controller/clawops_controller.go:333-363 | a run without an approved version has written no intent on the approval path |
| `Escalation.CarriedOutRejectionIff` | internal/controller/clawops_controller.go:348-363 | a rejection can follow the execution if and only if it lands on an approved object |
| `Escalation.KeepsFinishedTtlIff` | internal/controller/clawops_controller.go:383-391 | a collector holding a terminal object keeps the documented time to live after the finish, whenever it runs, if and only if that time is already over or the object finished when it was created |
| `Escalation.DeletedAtOnce` | internal/controller/clawops_controller.go:383-391 | for every time to live, a run whose object finishes later than that and is deleted the moment it finishes |
| `Escalation.RunApprove` | cmd/kubectl-claw/main.go:104-131 | succeeds exactly on an object awaiting approval with a proposal, and then only approves it |
| `Escalation.RunReject` | cmd/kubectl-claw/main.go:133-170 | succeeds exactly on a non-terminal object |
| `Escalation.ProcessEscalation` | cmd/claw4k8s/watcher.go:152-225 | a lost claim writes nothing; a won one writes Analyzing and then, on a hard error, Failed with the reason, else the analysis and proposal awaiting approval |
| `Rules.FirstMatchMeans` | internal/rules/engine.go:74-84 | the first matching rule, or none exactly when none matches |
| `Rules.FiresAtTheEdge` | internal/rules/engine.go:122-142 | another kind never fires; exactly the minimum severity and count do once the cooldown is over; below either never |
| `Rules.SeveritiesInOrder` | api/v1alpha1/common_types.go:33-48 | the four severities in order, anything else below them |
| `Rules.Pick` | internal/rules/engine.go:87-109 | the earliest matching signal of maximal severity, or none exactly when none matches |
| `Rules.ForemostUnique` | internal/rules/engine.go:95-107 | there is at most one such signal, ties going to the earlier |
| `Rules.Engine.Fires` | internal/rules/engine.go:122-142 | a rule fires exactly when kind, severity, count and cooldown all allow it |
| `Rules.Engine.Match` | internal/rules/engine.go:74-84 | answers with the first matching rule |
| `Rules.Engine.MatchHighestPriority` | internal/rules/engine.go:87-109 | succeeds exactly when some signal matches some rule, with the one foremost signal and the rule Match gives for it |
| `Rules.Engine.RecordExecution` | internal/rules/engine.go:112-120 | the time is recorded for that claw and rule and no other |
| `ClawOps.Controller.IsRateLimited` | internal/controller/clawops_controller.go:196-209 | prunes to the last hour and compares with the limit |
| `ClawOps.Controller.RecordAction` | internal/controller/clawops_controller.go:211-215 | appends one action to that claw's list |
| `ClawOps.Controller.Reconcile` | internal/controller/clawops_controller.go:120-153 | the whole new state and what became of each signal, telling an execution that failed before its intent was written from one that failed after |
| `ClawOps.ActsIff` | internal/controller/clawops_controller.go:120-142 | an intent is written if and only if fewer actions than the limit are younger than an hour, a signal matches a rule and the patch goes through, and then for the foremost signal; it is recorded if and only if the audit record is |
| `ClawOps.EveryKindHandled` | internal/controller/clawops_controller.go:120-150 | every signal is escalated or shares its kind with the one acted on, and nothing else is; one whose intent was written and not recorded is escalated as well |
| `ClawOps.WindowLimit` | internal/controller/clawops_controller.go:196-215 | no window of one hour (open at its start) holds more recorded actions of one claw than the limit, although the list is pruned |
| `ClawOps.CooldownRespected` | internal/rules/engine.go:112-141 | recorded executions of one rule on one claw are at least the cooldown apart, whatever rules are in force |
| `ClawOps.CountedOrLoose` | internal/controller/clawops_controller.go:271-325 | a reconcile that writes an intent counts it and starts the cooldown, or records neither, exactly as the audit record succeeds |
| `ClawOps.LooseUnbounded` | internal/controller/clawops_controller.go:271-325 | for every limit and every number, a run at one instant that writes that many intents while audit records fail |
| `DeepMerge.MergedLeaves` | internal/controller/claw_configmap.go:118-138 | a leaf is in the merged tree exactly when the source has it, or the destination has it and the source is silent about that path |
| `DeepMerge.MergeIdempotent` | internal/controller/claw_configmap.go:121-138 | merging the same source again changes nothing |
| `DeepMerge.MergeChild` | internal/controller/claw_configmap.go:129-132 | merging into a submap in place keeps the destination a tree and changes only that branch |
| `DeepMerge.MergeKey` | internal/controller/claw_configmap.go:122-136 | one turn of the loop, in place |
| `DeepMerge.MergeInto` | internal/controller/claw_configmap.go:121-138 | for disjoint trees and every iteration order, the in-place loop equals the functional merge |

## Left out

- Sockets, HTTP and WebSocket bridges, Kubernetes client caches, metrics, logging, notifiers, the LLM client and the channel sidecars: input and output around the modelled logic.
- JSON, cron, quantity, time and semver parsing: parameters. A tag that parses is taken to hold no colon and no slash, a decoded generation to fit 64 bits, and the messages of a framed stream to be ones its reader decodes back.
- Wal.WAL.Rename: a rename counts as durable, although the code does not sync the directory; after a power loss the old file could be back.
- Wal.WAL.Compact: the same for a finished compaction.
- Wal.CrashRecoversAnEarlierMoment: lifetimes, and the router's runs, keep whole records at a crash; what a torn line does is stated separately. A log write that fails inside an operation, and the sharing of a message by reference inside a log entry, are not modelled.
- Router.RunAccounted: the concurrent machine always has a log; without one nothing is durable. The outbound direction is left out.
- Dispatch.HandleInbound: one clock reading stands for the several the code makes; the heartbeat's acknowledgement is not among the signals.
- Float rounding of the fill ratio.
- The listing of the dead letter queue and its index bucket; a bucket's cursor is taken to visit keys in byte order.
- The SDK's reconnect path, its local buffer and read loop: conservation does not hold there.
- Liveness: that a resume arrives, that an escalation left in Analyzing by a dead watcher is picked up, that an Executed intent is consumed.
- OpsIntent.RunSpecOk: other writers change intents only; users editing resources or replicas between read and commit are not modelled.
- The choice of the oldest pod to restart, signal extraction and deduplication, and signing: easy to settle by reading.
- Rules.Engine.MatchHighestPriority: one clock reading per evaluation.
- ClawOps.WindowLimit: reconciles are serial, as the controller runs one worker.
- DeepMerge.MergeInto: after a merge the destination shares the source's submaps; a second merge of the very same objects is covered on values only.
- Builders of pods, services, RBAC, network policies and budgets, webhook validators and deep copies: record construction.
