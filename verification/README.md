# NMOS node, client and registry: a verified model

This project models seven parts of a C++ implementation of AMWA NMOS IS-04 (discovery and
registration) and IS-05 (connection management), and proves what they promise.

* **MD5** (`Rfc1321`, `Md5Transform`, `Md5`). The streaming engine behind every resource id, over its
  64-byte buffer and two 32-bit counter words, against the one-shot hash of sections 3.1 to 3.5 of
  RFC 1321. The unrolled compression is proved separately and the streaming proof never looks inside it.
* **IS-05 staging and activation** (`Json`, `TransportParams`, `ReceiverParams`, `StreamParams`,
  `Constraints`, `Connection`, `Activator`, `Staging`, `Races`, `NodeApi`). A patch is applied to a copy, checked
  against schema, constraints and lock, staged, and activated now or by worker threads that serve a time-ordered
  table.
  `Activator` gives the interleaved view of that table, one mutex section a step; `Staging` the runs of requests,
  cancellations and firings over many senders, section by section; `Races` runs in which they go wrong; `NodeApi`
  the classes, each method tied to a function of `Staging`.
* **TAI times** (`Text`, `TaiTime`). Printing and reading instants, on which the cancelling of an activation
  depends.
* **SDP** (`SdpReader`, `SdpWriter`, `SdpRoundTrip`, `SdpRefusals`). The description a raw audio sender writes,
  what a receiver reads back from it, and what it refuses.
* **Registry failover** (`Failover`, `NmosThread`). Finding a registry, registering, heartbeats, and moving on.
* **The client's cache** (`ClientCache`, `ClientApi`). Three tables and a mark-and-sweep refresh.
* **The in-memory registry** (`Registry`, `RegistryMemory`). Parent-checked registration and cascading
  garbage collection.
* **Commit bookkeeping and the thread pool** (`Commit`, `ResourceHolder`, `ThreadPool`).

`dafny verify dfyconfig.toml` checks the whole project.

## Conventions

What the source changes in place is a class whose methods are specified by a function of the old state; what
the source promises is proved about those functions. Protocols are state machines: `Enabled` says when an
event may happen, `Apply` what it does, and `Runs` relates two states by a sequence of events. Clock readings,
the answers of HTTP peers, the decisions of the application and thread scheduling are parameters or events.
Exceptions that the source does not catch are outcomes of their own (`Throws`, `Escaped`, `Exception`, `threw`).

Where a promise is false of the code, the code is kept and the exact condition is proved:

* The block loop of `update` computes `i + 64` in 32 bits. It ends exactly when `BlockLoopEnds` holds
  (`Md5.BlockLoopEndsExactly`), which every length below 2^32 - 64 meets and the longest does not
  (`Md5.LongestCallNeverEnds`).
* A cancellation overwrites the staged connection under the sender's mutex and removes the entry later, under the
  table's. A firing in between makes the cancelling request active, and the request is still answered 200
  (`Staging.CancellationMayFire`; `Races.CancellationIsOvertaken` is such a run from the start). So a pending entry
  is scheduled, and a firing activates what was scheduled, exactly when no cancellation of that sender is between
  the two (`Staging.PendingImpliesScheduled`, `Staging.FiresWhatWasScheduled`).
* `m_mmActivations` is declared as a `std::map` in spite of its `m_mm` name (node/include/activator.h:49). A
  scheduling request whose instant is taken is accepted and answered 202 but gets no entry, and its sender stays
  locked (`Staging.ScheduledIsPendingIffInstantIsFree`). When such a sender cancels while the instant is at the
  head, it takes the entry of another (`Staging.AnotherIsTakenExactly`, `Races.AnotherLosesItsEntry`).
* `Stage` overwrites the staged connection before it looks at the time, so a request answered with 500 for an
  invalid time leaves its sender staged and locked with nothing pending (`Staging.InvalidTimeIsStaged`,
  `Staging.InvalidTimeLocks`, `Races.UnreadableTimeLocks`). A 500 leaves the node as it was exactly when the
  application refused or the sender held the same connection already (`Staging.RefusedWith500Exactly`). Refusals
  with 400, with 423 and by the application change nothing (`Staging.RefusedChangesNothing`).
* A worker takes its deadline and the head in separate sections, so an activation can fire before its time. A
  waiting worker can fire the head early exactly when the head is due later than now and later than the worker's
  deadline (`Activator.WaitingFiresEarlyExactly`), and it only comes to that when the entry the worker last saw
  was withdrawn or fired by another (`Activator.EarlyNeedsLoss`). It happens when the head is withdrawn as it falls
  due (`Activator.WithdrawalFiresEarly`), or when two workers wait for the same head
  (`Activator.TwoWorkersFireEarly`), and never while one worker at a time is alive and no head is withdrawn under
  it (`Activator.AloneFiresOnTime`).
* An address that ends in a dot is accepted by the writer and refused by the reader, since the reader keeps the
  carriage return of each line (`SdpRoundTrip.TrailingDotIsRefused`).
* The reader refuses two lines the writer makes: that for RTCP, of whose address it demands a second field other
  than "IN" (`SdpRefusals.RtcpIsRefused`), and the origin line of a multicast source
  (`SdpRefusals.MulticastOriginIsRefused`). The round trip asks for RTCP off and unicast sources.
* A relative time has the 37 leap seconds taken off when it is read, and the table is served another 37 s before its
  instants (`TaiTime.RelativeIsShifted`).
* A node that was using a registry counts as registered at the next one it finds. In a run from the start every
  heartbeat comes after a registration exactly when there is no registry, the first registration succeeds, or it
  fails and leaves none to go on with (`Failover.HeartbeatsAreAnnouncedExactly`); otherwise a node that is registered
  nowhere keeps up its heartbeats as long as they are answered 200 (`Failover.HeartbeatsWithoutRegistration`).
* A heartbeat answered with 503 ends a round without marking the registry bad, so failover may go on for ever
  (`Failover.UnavailableIsRetried`). So may a registration: how often it starts again is how often the node POST
  is answered 200, each time after a DELETE (`Failover.RegistrationIsBounded`, `Failover.KnownNodeIsRetried`). When
  no POST of the node right after its DELETE is answered 200, every registration, round and run is bounded
  whatever the script of answers (`Failover.RequestsAreBounded`, `Failover.FailoverEnds`).
* The client's sweep never empties its stored set, so an id that leaves a reply and comes back is dropped again
  (`ClientCache.RefreshIsRightExactly`, `ClientCache.ReappearingIsSwept`).
* A registry whose clock is set back collects nodes it has just heard of (`Registry.SilentExactly`); updates and
  deletions keep the forest only under `Registry.Harmless`.
* Two stamps taken at the same instant can lose a change (`Commit.ChangeIsSeenExactly`).

## Model

| member | source | states |
|---|---|---|
| Md5.BlockLoopEndsExactly | external/uuid/md5.cpp:262-275 | the loop over whole blocks ends exactly when the call is short or its last 32-bit index is below 2^32 - 64 |
| Md5.ShortCallsEnd | external/uuid/md5.cpp:262-275 | every call shorter than 2^32 - 64 bytes ends |
| Md5.LongestCallNeverEnds | external/uuid/md5.cpp:274-275 | on a fresh engine the guard holds at every index of a call of 2^32 - 1 bytes |
| Md5.GuardIsExact | external/uuid/md5.cpp:274-275 | while it ends, the wrapping guard compares the true index, so every access is in range |
| Md5.CarryIsAddition | external/uuid/md5.cpp:256-259 | the two-word counter with its carry is addition of 8 times the length modulo 2^64 |
| Md5.IndexOfCount | external/uuid/md5.cpp:253-254 | `count[0]/8%64` is the number of bytes in the buffer |
| Md5.CountBytes | external/uuid/md5.cpp:307-309 | the stored counter is the 8-byte little-endian bit length that RFC 1321 appends |
| Md5.PaddingLength | external/uuid/md5.cpp:311-314 | the two-way padding length is the least one that reaches 56 modulo 64 |
| Md5.DecodeUndoesEncode | external/uuid/md5.cpp:136-157 | decoding undoes encoding on every list of words |
| Md5.EncodeUndoesDecode | external/uuid/md5.cpp:136-157 | encoding undoes decoding on every length that is a multiple of 4 |
| Md5Transform.FourSteps | external/uuid/md5.cpp:167-237 | four assignments with rotated registers are four steps of the indexed loop of RFC 1321 |
| Md5Transform.Unrolled | external/uuid/md5.cpp:161-237 | the unrolled 64 steps equal the indexed loop of section 3.4 for every state and block |
| Md5.Md5.Decode | external/uuid/md5.cpp:137-143 | fills the output words from the bytes, little-endian, and nothing else |
| Md5.Md5.Encode | external/uuid/md5.cpp:148-157 | fills the output bytes from the words, little-endian, and nothing else |
| Md5.Md5.Transform | external/uuid/md5.cpp:161-245 | the registers become the RFC 1321 compression of the old ones and the block |
| Md5.Md5.Tally | external/uuid/md5.cpp:256-259 | after the call the counter stands for `length` more bytes, modulo 2^64 |
| Md5.Md5.AbsorbBlocks | external/uuid/md5.cpp:266-278 | the registers have absorbed every whole block of what was fed so far, and fewer than 64 bytes are left |
| Md5.Md5.Update | external/uuid/md5.cpp:251-284 | the bytes fed grow by the input, with registers, buffer and counter in step, however the input is cut |
| Md5.Md5.PadOut | external/uuid/md5.cpp:306-317 | what was fed becomes the padded message of sections 3.1 and 3.2, all of it absorbed |
| Md5.Md5.Finalize | external/uuid/md5.cpp:298-330 | the digest is that of the padded message; the buffer and counter are cleared; a second call changes nothing |
| Md5.Md5.OfText | external/uuid/md5.cpp:111-117 | the digest is the RFC 1321 hash of the text up to its length modulo 2^32, which is what the 32-bit length argument keeps |
| Md5.HashPieces | external/uuid/md5.cpp:251-330 | for every way of cutting the input into calls that return, the digest is the RFC 1321 hash of the concatenation |
| Text.StolReadsDec | base/src/sdp.cpp:356-358 | `stol` reads back a printed number, whatever follows its digits, exactly when it fits 64 bits, and throws otherwise |
| Text.StoulReadsDec | base/src/utils.cpp:359-380 | `stoul` reads a printed number back modulo 2^64, sign included, exactly when its magnitude is below 2^64, and throws otherwise |
| Text.SplitString | base/src/utils.cpp:33-45 | the loop over `getline` gives the non-empty fields in order |
| TaiTime.ReadsWhatItPrints | base/src/utils.cpp:359-380 | a printed time reads back as the same instant, for every 64-bit nanosecond count, though the nanoseconds are not padded |
| TaiTime.PrintingIsInjective | base/src/utils.cpp:94-104 | so no two instants print alike |
| TaiTime.PrintsSecondsAndNanos | base/src/utils.cpp:94-104 | an instant is printed as its seconds, a colon and the nanoseconds left, unpadded |
| TaiTime.NumbersAreReadExactly | base/src/utils.cpp:359-402 | two numbers with a colon read as the 64-bit instant they make, absolute or relative, and throw exactly when one does not fit 64 bits |
| TaiTime.WithoutColonIsNoTime | base/src/utils.cpp:359-402 | a text without a colon does not read as a time |
| TaiTime.LettersAreNoTime | base/src/utils.cpp:359-402 | nor does one with letters for its seconds |
| TaiTime.RelativeIsShifted | base/src/utils.cpp:383-402 | a relative time d read at tp gives the instant tp + d less 37 s |
| Json.CheckJsonAllowed | base/src/utils.cpp:192-209 | says yes exactly when every member is in the table with one of its kinds |
| Json.PatchJson | base/src/utils.cpp:176-185 | every member that is there already takes the patch's value if the patch has one and keeps its own otherwise; none is added |
| TransportParams.NewSenderIsWellFormed | base/src/transportparams.cpp:138-157 | a new sender's parameters have the kinds of the type table and FEC block sizes in 4..200 |
| TransportParams.JudgeExactly | base/src/transportparams.cpp:336-394 | a patch is accepted exactly when it is null or an object and each member by itself has a kind of its own, belongs to a group that is there, and is one of the FEC types or a block size in 4..200 |
| TransportParams.JudgeThrowsExactly | base/src/transportparams.cpp:336-394 | the patch of an object throws exactly when nothing but a block size is wrong with it and the first wrong size does not fit an int |
| TransportParams.PatchKeepsWellFormed | base/src/transportparams.cpp:336-394 | any patch, accepted or not, keeps the key set, the kinds and the block sizes |
| TransportParams.ActualizeSettles | base/src/transportparams.cpp:223-265 | for every object an accessor throws exactly when a derived group is enabled over a base port that is no unsigned number; what was written by then is settled and everything else is as it was |
| TransportParams.ActualizedIsSettled | base/src/transportparams.cpp:397-419 | every parameter afterwards is a function of the parameters before, key by key |
| TransportParams.ExplicitValuesAreKept | base/src/transportparams.cpp:223-246 | an explicit non-zero port and an address other than "auto" are kept |
| TransportParams.DerivedPorts | base/src/transportparams.cpp:248-265 | an "auto" or zero port of an enabled group becomes its base port plus 1, 2 or 4 modulo 65536 |
| TransportParams.ActualizeIsIdempotent | base/src/transportparams.cpp:397-419 | a second `Actualize` with the same addresses changes nothing |
| TransportParams.SettlesLiterally | base/src/transportparams.cpp:223-246 | what becomes of an explicit number, a text, "auto" and a flag, value by value |
| TransportParams.NewSenderGoesLive | base/src/transportparams.cpp:138-157 | a new sender with FEC and RTCP enabled goes live on the given addresses, port 5004 and the ports 5005, 5006 and 5008 |
| ReceiverParams.ReceiverSettles | base/src/transportparams.cpp:546-576 | a receiver's accessor throws exactly when a derived port has no number or a derived address no text; what was written by then is settled and everything else is as it was |
| ReceiverParams.ReceiverIsSettled | base/src/transportparams.cpp:546-576 | every parameter of a receiver afterwards is a function of the parameters before, key by key |
| ReceiverParams.ReceiverIsIdempotent | base/src/transportparams.cpp:546-576 | a second `Actualize` with the same interface changes nothing |
| StreamParams.Stream.PatchSender | base/src/transportparams.cpp:360-394 | the tests in their order accept, refuse or throw as `TransportParams.Judge` says; an accepted patch overwrites the entries that are there, another one nothing |
| StreamParams.Stream.ActualizePort | base/src/transportparams.cpp:223-230 | replaces a missing, zero or non-numeric port by the base plus the offset modulo 65536, and nothing else |
| StreamParams.Stream.ActualizeSender | base/src/transportparams.cpp:397-419 | the steps on the object do what the specification says, up to the first accessor that throws |
| StreamParams.Stream.ActualizeReceiver | base/src/transportparams.cpp:546-576 | likewise for a receiver |
| Constraints.CheckMeans | base/src/ioresource.cpp:81-113 | the check says yes exactly when every parameter of every stream meets its constraint |
| Constraints.MeetsExactly | base/src/constraint.cpp:117-208 | a value meets a constraint exactly when it is null or "auto", or its number is within the bounds there are and its text is in the list there is |
| Constraints.MeetsThrowsExactly | base/src/constraint.cpp:117-208 | the check throws exactly for a number that does not fit an int, be it text that has bounds to keep, and for an array or an object |
| Constraints.FirstFailureDecides | base/src/ioresource.cpp:81-113 | the first parameter that does not meet its constraint, by stream and then by name, decides between no and an exception |
| Constraints.ApplyMeans | base/src/ioresource.cpp:28-79 | a registration changes just the constraint on its parameter, of the stream it names, or of every stream up to the first without the parameter |
| Constraints.CheckConstraints | base/src/ioresource.cpp:81-113 | the nested loops with their early return decide as the specification does, exceptions included |
| Constraints.MeetsText | base/src/constraint.cpp:117-171 | the flags gathered bound by bound decide as the specification does; text that overflows an int escapes |
| Constraints.MeetsNumber | base/src/constraint.cpp:173-208 | a number meets a constraint exactly when it is within the bounds and printed in the list |
| Connection.PatchConnection | base/src/connection.cpp:113-152 | the step-by-step patch of the copy is accepted exactly when the patch is null or an object of acceptable members, and then follows it as in `Connection.PatchFollows` |
| Connection.AcceptedExactly | base/src/connection.cpp:113-152 | a patch is accepted exactly when each of its members has its kind, an activation names a mode, there is an element for each stream, and each of these is accepted for its stream |
| Connection.EscapesExactly | base/src/connection.cpp:113-152 | a patch escapes exactly when its kinds are right but the first element that is not accepted for its stream throws |
| Connection.PatchFollows | base/src/connection.cpp:113-152 | after an accepted patch each parameter of each stream, the receiver and the master enable have the value that was sent, or their old one; an activation sets mode and requested time, null when not sent, and leaves the activation time |
| Connection.ModeIsRead | base/src/activation.cpp:90-105 | each mode is read from just its one text |
| Connection.StagedTimeIsRead | node/src/nodeapiprivate.cpp:1448-1455 | the staged activation time is no instant when it is null, and otherwise the one that was printed |
| Connection.StreamsAreWritten | base/src/connection.cpp:170-179 | actualizing throws exactly when some stream cannot be actualized; the streams up to the first such one are written and the rest are left alone |
| Connection.ActualizedStreamsSettle | base/src/connection.cpp:170-179 | when nothing throws, every parameter of every stream is settled on the addresses of that stream |
| Json.CheckJsonNotAllowed | base/src/utils.cpp:244-254 | the loop says yes exactly when none of the names is a member |
| Connection.PatchEach | base/src/connection.cpp:139-145 | the objects of the streams are patched in order up to the first that refuses |
| NodeApi.ActualizeEach | base/src/connection.cpp:170-179 | the objects of the streams are actualized in order up to the first that throws |
| Connection.NewConnectionIsWellFormed | base/src/connection.cpp:46-62 | every new connection is well formed, disabled, without receiver or activation, with the parameters of a new sender in each stream |
| Connection.PatchKeepsShape | base/src/connection.cpp:113-152 | an accepted patch keeps the number of streams, the key set of each and the kinds |
| Activator.Activator.AddActivation | node/src/activator.cpp:29-57 | the entry goes in unless its instant is taken; a thread starts exactly when the table was empty; a waiter is told exactly when the head moved forward |
| Activator.Activator.RemoveActivation | node/src/activator.cpp:59-84 | the head goes by instant alone, any other entry only with its own resource; a waiter is told exactly when the head went |
| Activator.Activator.PrimeWait | node/src/activator.cpp:106-110 | sets the wait flag and nothing else |
| Activator.Activator.Activate | node/src/activator.cpp:141-154 | the head is taken out and what it held is what fires |
| Activator.RunKeepsServed | node/src/activator.cpp:9-84 | over every interleaving some worker will look at the table, or stop waiting, no later than the head is due |
| Activator.NobodyOversleeps | node/src/activator.cpp:112-125 | when every live worker is blocked and something is pending, one of them waits for a deadline no later than the earliest instant |
| Activator.CoveringWorkerFires | node/src/activator.cpp:9-27 | once the head is due the covering worker alone takes out exactly the head, within seven steps |
| Activator.DueEntryCanFire | node/src/activator.cpp:9-27 | so in every reachable state a due entry can fire in seven steps of one worker |
| Activator.AloneFiresOnTime | node/src/activator.cpp:112-154 | over every run in which no second worker is alive at the same time and no head is withdrawn while a worker counts on it, a worker that is about to activate finds a due head |
| Activator.WaitingFiresEarlyExactly | node/src/activator.cpp:112-125 | through time and wake-ups alone a waiting worker can come to take a head that is not due exactly when the head is due later than now and later than the worker's deadline |
| Activator.EarlyNeedsLoss | node/src/activator.cpp:112-154 | with any number of workers, one that is about to take a head that is not due has lost the entry it last saw: some event since withdrew it, or another worker fired it |
| Activator.WithdrawalFiresEarly | node/src/activator.cpp:59-84 | one worker and one withdrawal are enough to fire an entry any time early |
| Activator.TwoWorkersFireEarly | node/src/activator.cpp:29-57 | so are two workers without a withdrawal |
| Activator.RunKeepsAccounted | node/src/activator.cpp:29-84 | over every run each accepted activation was withdrawn once, fired once, or is pending |
| Staging.ServedAlone | node/src/is05server.cpp:409-483 | a request whose two sections nothing comes between does what `Finish` says |
| Staging.FiredAlone | node/src/activator.cpp:141-154 | a firing whose two sections nothing comes between does what `Fire` says |
| Staging.ActivatedMakesActive | base/src/senderbase.cpp:253-300 | an activation throws exactly when there are addresses for each stream and some stream cannot be actualized; otherwise the active json is the staged one, every stream is settled on its addresses, the given source standing in for a missing one, and the subscription follows |
| Staging.ThrownActivationLeaves | base/src/senderbase.cpp:253-300 | an activation that throws has copied the staged connection and written its streams up to the first that cannot be actualized; the subscription is as it was |
| Staging.PendingOnce | node/src/nodeapiprivate.cpp:1443-1499 | no sender is pending twice |
| Staging.StepKeepsInv | node/src/is05server.cpp:409-483 | every section of a request or a firing, constraint and address changes keep: each pending entry is as planned, its sender holding the plan's connection or the cancelling request that has overwritten it |
| Staging.PendingImpliesScheduled | node/src/nodeapiprivate.cpp:1443-1499 | in every reachable state a pending entry belongs to a sender staged as planned, in a scheduled mode with exactly that activation time, exactly when no cancellation of that sender is between its overwriting and its removal; the entry is the sender's only one in either case |
| Staging.PendingSenderOnlyCancels | node/src/is05server.cpp:431-434 | over every run, a request that got past the lock while its sender has an entry cancels |
| Staging.LockRefusesExactly | node/src/is05server.cpp:414-434 | the reply is 423 exactly for a request that passes schema and constraints, would schedule or activate, and meets a locked sender |
| Staging.RefusalIsCaused | node/src/is05server.cpp:409-430 | a request that is refused, and not for the lock, is answered 400 or escapes as its patch or the first parameter that does not meet its constraint says |
| Staging.CancelledHasNoEntry | node/src/nodeapiprivate.cpp:1448-1455 | an accepted cancellation is always answered 200 and leaves its sender without an entry |
| Staging.CancellationMayFire | node/src/nodeapiprivate.cpp:1443-1455 | between the overwriting and the removal the entry can fire, which makes the cancelling request active; the answer is 200 all the same |
| Staging.ScheduledIsPendingIffInstantIsFree | node/src/nodeapiprivate.cpp:1461-1498 | an accepted absolute or relative request is answered 202 (200 without an application), locks its sender, and has an entry exactly when no entry had that instant |
| Staging.SchedulingTakesEffect | node/src/nodeapiprivate.cpp:1461-1498 | a scheduling request leaves its sender with just the connection it asked for and the time it is due |
| Staging.CancellingTakesEffect | node/src/nodeapiprivate.cpp:1448-1455 | a cancellation takes the activation time that is staged then, and nothing else |
| Staging.ImmediateTakesEffect | node/src/nodeapiprivate.cpp:1456-1460 | in a run an immediate request is answered 200 and makes its connection active, unless an accessor throws, which escapes; an application's commit clears the staged activation, and without one the mode stays with the time of the activation; no entry comes or goes |
| Staging.DirectingTakesEffect | base/src/senderbase.cpp:370-380 | the application's destinations replace the old ones exactly when there is one for each stream, and nothing else changes |
| Staging.ConstrainingTakesEffect | base/src/ioresource.cpp:28-79 | a registered constraint changes the tables of its sender as `Constraints.ApplyMeans` says, and nothing else |
| Staging.InvalidTimeIsStaged | node/src/nodeapiprivate.cpp:1461-1498 | a scheduling request whose time does not read is answered 500, is staged, locks its sender and leaves the table alone |
| Staging.AnsweredWith500Exactly | node/src/is05server.cpp:435-466 | a request that passed is answered 500 exactly when the application refused it or it schedules for a time that does not read |
| Staging.FinishEscapesExactly | node/src/nodeapiprivate.cpp:1443-1499 | a request the application agreed to escapes exactly when its activation throws or its time overflows |
| Staging.RefusedWith500Exactly | node/src/is05server.cpp:444-480 | a 500 leaves the node as it was exactly when the application refused or the sender held the request already |
| Staging.InvalidTimeLocks | node/src/is05server.cpp:444-466 | in a run an invalid time always changes the node and leaves its sender locked without an entry |
| Staging.EntryLeavesExactly | node/src/activator.cpp:59-84 | no step changes an entry, and one goes exactly when it is the head and has fired, or a cancellation finds its time staged and it is that sender's own or the head |
| Staging.AnotherIsTakenExactly | node/src/activator.cpp:64-76 | a request takes another sender's entry exactly when it cancels, finds the head's time staged and the head is not its own; the other sender stays locked |
| Staging.PlanOrigin | node/src/is05server.cpp:409-483 | whatever is pending has been in the table since the end of one earlier request, which the application accepted, which asked for that instant and made the entry |
| Staging.RequestWasSent | node/src/is05server.cpp:409-431 | over every run, what is being served is what was staged when some event sent it, with what the patch of that event sends |
| Staging.FiresWhatWasScheduled | base/src/senderbase.cpp:253-309 | each firing makes active the connection of the request that made the entry, settled stream by stream, unless a cancellation of the sender is between its overwriting and its removal; then the cancelling request's; either is what was staged when a named event of the run sent it, with what that event's patch sends |
| Staging.FiringIsUndisturbed | node/src/activator.cpp:141-154 | from the activating to the committing no step touches the head or the active connection of its sender |
| Staging.CommitUnlocks | base/src/senderbase.cpp:302-309 | the committing clears the staged activation of its sender and nothing else of it, and leaves it unlocked and without an entry |
| Staging.RefusedChangesNothing | node/src/is05server.cpp:414-444 | a request refused with 400, with 423 or by the application leaves staged, active and pending as they were |
| Staging.PassedMeetsConstraints | node/src/is05server.cpp:424-430 | a copy that passes meets every constraint registered at that moment |
| Staging.RunKeepsShaped | base/src/transportparams.cpp:336-394 | over every run staged connections, and that of the request being served, keep stream count, key set, kinds and block sizes |
| Races.CancellationExposes | node/src/is05server.cpp:409-483 | after any run, a cancellation of the head's sender, served with nothing in between, gets to where the entry can fire and has not been removed |
| Races.CancellationIsOvertaken | node/src/nodeapiprivate.cpp:1443-1455 | from every start and for every ready sender, instant and receiver there is a run in which the receiver that a cancelling request names becomes active, and the request is answered 200 |
| Races.UnreadableTimeLocks | node/src/nodeapiprivate.cpp:1461-1478 | from every such start a request whose time does not read is answered 500 and leaves its sender locked with nothing pending |
| Races.AnotherLosesItsEntry | node/src/activator.cpp:59-84 | from every start with two such senders there is a run in which the second's cancellation takes the entry of the first, which stays locked |
| Races.NewSendersAreReady | base/src/connection.cpp:46-62 | new senders of any kind make such a start |
| NodeApi.Sender.Stage | base/src/senderbase.cpp:412-421 | replaces the staged connection, nothing else, and reports its mode |
| NodeApi.Sender.Activate | base/src/senderbase.cpp:253-300 | fills in source addresses, copies staged to active, actualizes it and sets the subscription as in `Staging.ActivatedMakesActive`, or throws in just that case; nothing else changes |
| NodeApi.Sender.CommitActivation | base/src/senderbase.cpp:302-309 | mode, requested time and activation time of the staged connection become null, and nothing else changes |
| NodeApi.Sender.SetupActivation | base/src/senderbase.cpp:370-380 | takes the destinations exactly when there is one for each stream |
| NodeApi.Sender.Locked | base/src/senderbase.cpp:201-206 | says whether an absolute or relative activation is staged |
| NodeApi.Sender.ChangeConstraint | base/src/ioresource.cpp:28-79 | changes the constraint on one stream, or on every stream up to the first that lacks the parameter |
| NodeApi.NodeApi.StageSender | node/src/nodeapiprivate.cpp:1443-1499 | one sender and the table change as `Staging.Stage` says and every other sender stays |
| NodeApi.NodeApi.SettleSender | node/src/nodeapiprivate.cpp:1446-1499 | what follows the overwriting, by mode, is `Staging.Settled` |
| NodeApi.NodeApi.CancelSender | node/src/nodeapiprivate.cpp:1448-1455 | the null branch, with the table entry that goes |
| NodeApi.NodeApi.ActivateNow | node/src/nodeapiprivate.cpp:1456-1460 | the immediate branch |
| NodeApi.NodeApi.ScheduleSender | node/src/nodeapiprivate.cpp:1461-1498 | the two scheduled branches, with the table entry that comes |
| NodeApi.NodeApi.PatchSender | node/src/is05server.cpp:409-483 | the guarded sequence replies and changes the node exactly as `CheckRequest` and `Finish` say |
| NodeApi.NodeApi.CloseRequest | node/src/is05server.cpp:445-480 | the reply, and the commit of an immediate activation, are `Staging.Closed` |
| NodeApi.NodeApi.ActivateHead | node/src/activator.cpp:148-151 | the head's sender is activated and nothing leaves the table yet |
| NodeApi.NodeApi.CommitHead | node/src/activator.cpp:148-152 | it is committed and its entry leaves the table |
| NodeApi.NodeApi.FireHead | node/src/activator.cpp:141-154 | the head's sender is activated and committed and its entry leaves the table |
| SdpReader.ValidateIp4 | base/src/sdp.cpp:196-247 | the loop over the four parts decides as the specification does, first bad part first |
| SdpReader.SdpToTransportParams | base/src/sdp.cpp:17-75 | the line loop, with its early returns and its break, reads as the specification does |
| SdpWriter.Create | base/src/sdp.cpp:373-410 | the text built stream by stream is the header, the group line and the streams' lines, each ended by CRLF |
| SdpWriter.CreateGroup | base/src/sdp.cpp:379-391 | the group names every stream from S1 on |
| SdpRoundTrip.AddressIgnoresReturn | base/src/sdp.cpp:196-247 | a carriage return after an address that does not end in a dot does not change what it is |
| SdpRoundTrip.TrailingDotIsRefused | base/src/sdp.cpp:196-247 | one after an address that ends in a dot always makes it invalid |
| SdpRoundTrip.DottedIsAnAddress | base/src/sdp.cpp:196-247 | every dotted decimal address is plain, and multicast exactly for a first part in 224..239 |
| SdpRoundTrip.OriginIsRead | base/src/sdp.cpp:412-434 | the written origin line gives every receiver the source of stream 0 |
| SdpRoundTrip.MediaIsRead | base/src/sdp.cpp:347-370 | a written media line gives its port to the next receiver, or is only counted beyond the last |
| SdpRoundTrip.MulticastIsRead | base/src/sdp.cpp:95-129 | a written multicast connection line gives the address without its TTL |
| SdpRoundTrip.UnicastIsRead | base/src/sdp.cpp:95-129 | a written unicast connection line clears the multicast address |
| SdpRoundTrip.FilterIsRead | base/src/sdp.cpp:274-300 | a written source filter gives the stream's source up to the carriage return |
| SdpRoundTrip.AttributeIsSkipped | base/src/sdp.cpp:255-272 | an attribute with a single "a=" that is neither of the two known ones is passed over |
| SdpRoundTrip.StreamIsRead | base/src/sdp.cpp:394-408 | reading one stream's lines changes exactly its receiver, or ends the reading when there is none |
| SdpRoundTrip.SdpRoundTrip | base/src/sdp.cpp:17-75 | for every raw audio sender with IPv4 destinations, unicast sources, RTCP off and a one-line label, and any number of receivers, the text is written, reading it succeeds, and each receiver has the number at its stream's `destination_port` (5004 for "auto", zero or none), its multicast address, and its source followed by the carriage return |
| SdpRoundTrip.WrittenIsRead | base/src/sdp.cpp:17-75 | what the writer's accessors give comes back from the reader |
| SdpRoundTrip.HeaderIsSpelled | base/src/sdp.cpp:412-450 | the lines before the streams, text by text |
| SdpRoundTrip.StreamIsSpelled | base/src/sdp.cpp:394-408 | the lines of one stream, text by text |
| SdpRoundTrip.GroupIsSpelled | base/src/sdp.cpp:379-391 | the fields of the group line are the labels S1 to Sn in order |
| SdpRefusals.DottedIsAnAddressExactly | base/src/sdp.cpp:196-247 | four decimal parts are an address exactly when each is at most 255, and multicast exactly when the first is in 224..239 |
| SdpRefusals.PartsHaveBases | base/src/sdp.cpp:196-247 | a leading 0 makes a part octal and 0x hexadecimal |
| SdpRefusals.MediaIsReadExactly | base/src/sdp.cpp:347-370 | a media line is accepted exactly when its port is in 1..65535 |
| SdpRefusals.ConnectionIsReadExactly | base/src/sdp.cpp:95-129 | a connection line is accepted exactly when its address is valid |
| SdpRefusals.FilterIsReadExactly | base/src/sdp.cpp:274-300 | a source filter is accepted exactly for a multicast address and a unicast source |
| SdpRefusals.EnabledExactly | base/src/sdp.cpp:17-75 | whatever the text, all receivers are enabled when it is accepted and all are disabled when it is not |
| SdpRefusals.MulticastOriginIsRefused | base/src/sdp.cpp:412-434 | the origin line of a multicast source is written and refused |
| SdpRefusals.InvalidOriginIsRefused | base/src/sdp.cpp:412-434 | so is that of a source that is no IPv4 address, written without a version of IP |
| SdpRefusals.RtcpIsWritten | base/src/sdp.cpp:489-511 | the writer's line of an enabled RTCP group with a number and an IPv4 address |
| SdpRefusals.RtcpIsRefused | base/src/sdp.cpp:302-345 | the reader takes the port from just that line and then refuses it |
| Failover.ScanFindsBest | node/src/nodeapiprivate.cpp:757-768 | the scan of the table finds the least eligible registry, the first among equals |
| Failover.FindPicksBest | node/src/nodeapiprivate.cpp:753-804 | a round uses a good registry of least number below 200, the first among equals, and none exactly when none is eligible; the status is REG_FAILED without one, REG_START when none was in use before, and REG_DONE otherwise |
| Failover.RegistrationIsExact | node/src/nodeapiprivate.cpp:624-661 | registration ends in REG_DONE exactly when none of its answers failed, whatever the retries, and marks the registry exactly when an answer was 500 or below 100 |
| Failover.RegistrationAsksExactly | node/src/nodeapiprivate.cpp:624-632 | a registration asks for nothing exactly when the node counts as registered, which it stays, or there is no registry, which is REG_FAILED |
| Failover.RegistrationPostsAll | node/src/nodeapiprivate.cpp:633-657 | a registration that ends in REG_DONE ended with the node answered 201 and then every resource of the holders accepted |
| Failover.HeartbeatIsExact | node/src/nmosthread.cpp:110-152 | the registry stays in use after a heartbeat exactly when neither its answer nor one to a registration it led to failed |
| Failover.ForgottenIsRegisteredAgain | node/src/nmosthread.cpp:120-143 | after a 404 or a 409 the registry stays in use only once the node and all its resources were registered again |
| Failover.RoundIsExact | node/src/nmosthread.cpp:68-108 | a round fails exactly when an answer fails or the registry is lost, and takes the registry out of the good ones exactly when an answer was bad or it was lost |
| Failover.RoundMakesProgress | node/src/nmosthread.cpp:68-108 | every round uses up an answer while there are any, and without answers takes its registry out at once |
| Failover.RoundBegins | node/src/nmosthread.cpp:68-108 | a round asks a heartbeat first exactly when the node counts as registered, and posts the node otherwise |
| Failover.FirstRoundRegisters | node/src/nmosthread.cpp:68-108 | a first round posts the node and all its resources before any heartbeat, and one that ends clean has registered them |
| Failover.HeartbeatsAreAnnouncedExactly | node/src/nmosthread.cpp:48-66 | in a run from the start every heartbeat comes after a complete registration exactly when there is no registry, the first registration succeeds, or it fails and leaves none to go on with |
| Failover.HeartbeatsWithoutRegistration | node/src/nodeapiprivate.cpp:784-793 | a run of any length in which a node whose first registry refused it keeps up heartbeats with a second one and is registered nowhere |
| Failover.RunEndsWithDelete | node/src/nmosthread.cpp:48-66 | a run that ends with a registry in use ends with the DELETE of the node |
| Failover.TableFollowsEvents | node/src/nmosthread.cpp:68-108 | while the node serves, the registries it knows follow from what was discovered, whatever is asked and answered |
| Failover.NewRegistryIsGood | node/src/nodeapiprivate.cpp:690-712 | a registry that is discovered and was not known is good and has its priority; a known one stays as it was |
| Failover.RegistrationIsBounded | node/src/nodeapiprivate.cpp:624-661 | a registration whose node POST is answered 200 just k times in a row makes at least 2k + 1 requests and at most twice more than 2k plus the resources |
| Failover.KnownSoManyTimes | node/src/nodeapiprivate.cpp:633-638 | for every script of answers there is such a k |
| Failover.RegistrationWithoutRevival | node/src/nodeapiprivate.cpp:633-638 | when no POST of the node right after its DELETE is answered 200, a registration makes at most four requests more than there are resources |
| Failover.HeartbeatIsBounded | node/src/nmosthread.cpp:110-152 | under the same condition a heartbeat and all it leads to make at most six more |
| Failover.RoundIsBounded | node/src/nmosthread.cpp:68-108 | under the same condition the requests of a round are bounded by the events it uses and the resources |
| Failover.RequestsAreBounded | node/src/nmosthread.cpp:48-66 | under the same condition those of a run are bounded by its events, its failed rounds and the resources, whatever the answers |
| Failover.FailoverEnds | node/src/nmosthread.cpp:48-66 | when nothing new appears and every failing answer is 500 or below 100, no registry fails twice, so there are at most as many failed rounds as good registries; under the same condition the requests are bounded by events, good registries and resources |
| Failover.UnavailableIsRetried | node/src/nmosthread.cpp:110-119 | a registry that answers 503 n times is given up and chosen again n + 1 times |
| Failover.KnownNodeIsRetried | node/src/nodeapiprivate.cpp:633-638 | a registry that answers 200 to everything keeps one registration going through all its answers |
| NmosThread.RegistrationThread.FindRegistrationNode | node/src/nodeapiprivate.cpp:753-804 | the loop over the table chooses as `Failover.Find` says; the status is REG_FAILED without a choice, REG_START when none was in use before, and REG_DONE otherwise |
| NmosThread.RegistrationThread.RegisterSimple | node/src/nodeapiprivate.cpp:624-661 | the recursive registration over the five holders does what `Failover.RegisterSimple` says |
| NmosThread.RegistrationThread.RegisteredOperation | node/src/nmosthread.cpp:68-108 | one round over the events of its waits ends as `Failover.RegisteredOperation` says |
| NmosThread.RegistrationThread.HandleHeartbeatResponse | node/src/nmosthread.cpp:110-152 | every class of answer leads where `Failover.HandleHeartbeatResponse` says |
| NmosThread.RegistrationThread.FindRegisterNode | node/src/nmosthread.cpp:48-66 | the retry loop ends, in the state, with the events and after the failed rounds of `Failover.FindRegisterNode` |
| ClientCache.AddAgrees | client/src/clientholder.cpp:24-33 | adding keeps the tables in agreement and puts a new id under its address only |
| ClientCache.RemoveAgrees | client/src/clientholder.cpp:44-69 | removing an id keeps them in agreement and takes it from its address only |
| ClientCache.RemoveAddressAgrees | client/src/clientholder.cpp:71-89 | removing an address keeps them in agreement and takes out exactly its ids |
| ClientCache.SweepAgrees | client/src/clientholder.cpp:169-177 | the sweep keeps them in agreement and takes out exactly the stored ids, which stay stored |
| ClientCache.RunKeepsAgree | client/src/clientholder.cpp:24-177 | every run of the operations keeps the tables in agreement |
| ClientCache.EveryIdHasOneAddress | client/src/clientholder.cpp:24-97 | in every reachable state the three tables have the same ids, each under exactly one address, and the two multimaps are inverse |
| ClientCache.AddDevicesMeans | client/src/clientprivate.cpp:949-998 | a reply adds what it could parse under its address and confirms what was held |
| ClientCache.AddDeviceMeans | client/src/clientprivate.cpp:974-998 | one element confirms its id if it is held, and otherwise adds it if it parses |
| ClientCache.ReportIsExact | client/src/clientprivate.cpp:949-998 | one added pointer is reported for each id that came to be held, and every reported pointer is held afterwards |
| ClientCache.ConfirmedMeans | client/src/clientholder.cpp:129-147 | an id is confirmed exactly when an element names it while it is held, or added by an earlier element |
| ClientCache.RefreshMeans | client/src/clientprivate.cpp:169-179 | what one refresh leaves, stores and reports, for any holder and whatever earlier refreshes left stored |
| ClientCache.RefreshIsRightExactly | client/src/clientprivate.cpp:169-179 | it leaves what it should exactly when every left-over id that should be held is confirmed by the reply |
| ClientCache.RefreshFromEmpty | client/src/clientprivate.cpp:169-179 | with nothing left over it leaves the ids of other addresses and every reply id held or parsed, and reports exactly the ids formerly at the address and absent from the reply |
| ClientCache.ReappearingIsSwept | client/src/clientholder.cpp:161-177 | an id missing from one reply and back once in the next is dropped again |
| ClientApi.ClientHolder.RemoveResource | client/src/clientholder.cpp:44-69 | the loop over the address's entries removes as `ClientCache.Remove` says and returns what was held |
| ClientApi.ClientHolder.RemoveResources | client/src/clientholder.cpp:71-89 | the loop removes the whole address and reports each held pointer once |
| ClientApi.ClientHolder.RemoveStaleResources | client/src/clientholder.cpp:169-177 | the sweep loop removes and reports in order, one pointer or null for each stored id |
| ClientApi.ClientHolder.StoreResources | client/src/clientholder.cpp:161-167 | the stored set grows by exactly the ids of the address |
| ClientApi.ClientHolder.AddResource | client/src/clientholder.cpp:24-33 | an id that is held already changes nothing |
| ClientApi.ClientApi.AddDevices | client/src/clientprivate.cpp:949-972 | the loop over the reply changes the holder and gathers the two lists as specified, passing over malformed elements |
| ClientApi.ClientApi.BrowseDevices | client/src/clientprivate.cpp:169-179 | store, add and sweep in this order are one refresh |
| Registry.GarbageMeans | common/src/registrymemory.cpp:81-114 | a resource of a forest is garbage exactly when the node at its root is silent |
| Registry.CollectsSilentTrees | common/src/registrymemory.cpp:81-148 | a collection deletes exactly the trees of the silent nodes and touches nothing else |
| Registry.CollectionKeepsForest | common/src/registrymemory.cpp:81-148 | so it keeps the forest |
| Registry.AnswersAreExact | common/src/registryapi.cpp:152-411 | 201, 200 and 400 each mean exactly one thing about the registry and the body, and nothing but the named resource changes |
| Registry.UpdateKeepsForestExactly | common/src/registryapi.cpp:152-167 | an update keeps the forest exactly when the parent it names is registered |
| Registry.DeleteKeepsForestExactly | common/src/registrymemory.cpp:21-29 | a deletion keeps it exactly when nothing hangs on the resource |
| Registry.RunKeepsForestExactly | common/src/registryapi.cpp:152-281 | over every run the forest holds at all times exactly when every update and deletion was harmless; registrations, heartbeats and collections always are |
| Registry.HeartbeatIsLastContact | common/src/registrymemory.cpp:31-44 | over every run a node's stored time is that of its last heartbeat or first registration; registering again does not count |
| Registry.SilenceIsMeasured | common/src/registrymemory.cpp:88-99 | with a clock that never goes back a node is collected exactly after more than 30 s without contact |
| Registry.SilentExactly | common/src/registrymemory.cpp:95-98 | whatever the clock does, the wrapping difference exceeds 30 exactly in that case or when the clock is behind the heartbeat by less than 2^64 - 30 |
| RegistryMemory.RegistryMemory.Heartbeat | common/src/registrymemory.cpp:31-44 | stamps a registered node and returns the time, or 0 |
| RegistryMemory.RegistryMemory.GarbageCheck | common/src/registrymemory.cpp:116-135 | the nested loops list exactly the children of the given parents |
| RegistryMemory.RegistryMemory.GarbageCollection | common/src/registrymemory.cpp:81-114 | the lists and deletions in their order take out exactly the garbage, and the result says whether a node went |
| RegistryMemory.RegistryApi.AddResource | common/src/registryapi.cpp:177-411 | a new resource is added, and a node stamped, exactly when its body and its parent are acceptable, with the right code |
| RegistryMemory.RegistryApi.AddUpdateResource | common/src/registryapi.cpp:152-175 | a known resource is overwritten unchecked, a new one is registered, with the right code |
| Commit.ListingMeans | node/src/resourceholder.cpp:77-85 | the list has exactly the changed resources of the table, each once |
| Commit.StepKeepsInv | base/src/resource.cpp:110-157 | with an advancing clock a resource counts as changed exactly when it was created or stamped since its last commit |
| Commit.CommitListsTouched | node/src/resourceholder.cpp:68-92 | after any run a commit returns exactly the staged resources touched since their last commit, each once, makes committed equal staged, and moves the 8-bit counter by one exactly when the list is not empty |
| ResourceHolder.ResourceHolder.CommitVersions | node/src/resourceholder.cpp:73-86 | the loop over any positive number of API versions returns the list and leaves the resources of one pass |
| Commit.CommittedTwice | base/src/resource.cpp:112-115 | a second pass finds nothing and changes nothing |
| Commit.FirstAddedStays | node/src/resourceholder.cpp:46-53 | of any number of objects added under one id the first stays staged, and one that was staged already does |
| Commit.ChangeIsSeenExactly | base/src/resource.cpp:152-157 | whatever the clock does, a stamped resource is listed exactly when its last stamp differs from the one before |
| ResourceHolder.Resource.UpdateVersionTime | base/src/resource.cpp:152-157 | the old stamp becomes the last one and the new stamp is the clock's |
| ResourceHolder.Resource.Commit | base/src/resource.cpp:110-137 | reports whether the resource changed and makes it clean |
| ResourceHolder.ResourceHolder.RemoveResources | node/src/resourceholder.cpp:178-191 | erasing while iterating takes out exactly the picked resources |
| ResourceHolder.ResourceHolder.Commit | node/src/resourceholder.cpp:68-92 | the loops over versions and resources commit as `Commit.Committed` says, list, tables and counter |
| ThreadPool.RunKeepsInv | base/src/threadpool.cpp:55-75 | over every interleaving tasks leave in push order and, while anyone sleeps, ready workers and outstanding notices are at least as many as queued tasks |
| ThreadPool.TakenInOrder | base/include/threadpool.h:17-25 | in every reachable state the tasks taken are a prefix of those submitted and the rest is the queue |
| ThreadPool.NobodyOversleeps | base/src/threadpool.cpp:61-69 | when a queue that is not empty meets a pool with every push notified, somebody is awake exactly when there is a worker at all |
| ThreadPool.FrontCanBeTaken | base/src/threadpool.cpp:55-75 | once there is a worker, the first queued task can be taken within two further steps, provided tasks end |
| ThreadPool.NoWorkerTakesNothing | base/src/threadpool.cpp:29-43 | a pool that got no thread takes nothing, and has no worker exactly as long as none is added |
| ThreadPool.ThreadPool.Take | base/src/threadpool.cpp:64-68 | the worker's section takes the front of the queue, or nothing from an empty one |
| ThreadPool.ThreadPool.AddWorkers | base/src/threadpool.cpp:29-43 | as many threads start as were asked for, or as the system still gives before it throws |
| ThreadPool.ThreadPool.CreateWorkers | base/src/threadpool.cpp:19-27 | the pool grows to the larger of the least number and what machine and maximum allow, and never shrinks |

## Left out

- HTTP servers and clients, WebSockets, mDNS, sockets and interface enumeration: their replies and discoveries are parameters or events.
- Logging, event posters, user interfaces and build files.
- The hexadecimal form of a digest and the memory layout of a GUID.
- JSON numbers with a fraction are never converted: no type table that guards a conversion lists them.
- Member names that no table mentions are one constructor of `Json.Key`, and the order in which parameters are checked against constraints is fixed by a list.
- Regular expressions in constraints: the code that would match a pattern decides nothing.
- Signed overflow of a time is taken as two's complement.
- The destructor of the activator, the shutdown of the pool and the stopping of services: a running flag never changes.
- Receivers: their patches, their staging and IS-04 target subscription, which activates outside the lock.
- Staging.EntryLeavesExactly, Staging.AnotherIsTakenExactly and Staging.ScheduledIsPendingIffInstantIsFree speak of a table of senders alone: the code puts receivers into the same table, so a receiver's entry can hold a sender's instant, and a receiver's cancellation can take a sender's head.
- Connection, activation and constraint objects are values inside a sender: the source copies a connection for each patch and assigns the copy back.
- Creating the transport file, the version stamp and the node commit that follow an activation, and setting destination details outside a patch.
- A second request that arrives while one is served: the connection server answers one at a time.
- What a request does after its overwriting is one step: a sender that is being served has no entry by then unless the request cancels, and a cancellation reads the staged time twice, which a firing in between would clear.
- An exception on a worker thread ends the process; runs end before it.
- IPv6 addresses and flows other than raw audio.
- The choice of the clock of a source and of the interface whose port its line prints: the clock is a parameter of each stream.
- SdpRoundTrip.SdpRoundTrip: RTCP and multicast sources, whose lines the reader refuses, are excluded; so are addresses with a space, a slash, a line feed or a final dot, which the validator lets pass but RFC 4566 does not know, and clock texts with an equals sign.
- Failover.FailoverEnds: discoveries happen while the node waits for its next heartbeat, and an unanswered request counts as the answer 0.
- The API version of a registry and the order of equal URLs beyond that of the table.
- What a cached or registered resource says: the cache keeps pointers, and a refused update is taken to store at most the parent id.
- A registration is one step, although the source looks up and inserts in two sections.
- Queries on the client's changes: every query is currently met.
- The JSON text that a commit builds.
- The lines that print field by field for sources, flows, devices and the node itself.
