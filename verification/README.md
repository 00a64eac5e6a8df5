# simplestChat in Dafny

This project models the parts of simplestChat whose correctness rests on a protocol or on
arithmetic rather than on one branch, and proves what they promise:

- the **diagnostic recorder**: many producers, a one-way close bit, a bounded queue and one
  writer, as a system of single atomic steps in every interleaving (`Recorder`,
  `RecorderRace`), with the cause of every count (`RecorderCauses`), as whole calls that are paths of that system (`RecorderCalls`) and as
  the object that makes them (`RecorderProgram`);
- the **chat delivery oracle** of the load test: what five totals say about every message
  and every peer, over all runs, and what an observation must carry to be counted
  (`ChatPlan`, `ChatOracle`, `ChatRun`, `ChatEvidence`, `ChatWitness`, `ChatProgram`);
- the **push queue**: rows, leases, generations and retries, one row at a time and for the
  whole table (`PushQueue`, `PushTable`);
- the **browser workload**: rotating speakers, the layer chooser with hysteresis, and the
  incrementally kept video grid (`Rotation`, `LayerChoice`, `BrowserGrid`,
  `BrowserProgram`);
- **attachments**: the upload quota under concurrent transactions, upload admission, the PNG
  animation test and the download file name (`AttachmentQuota`, `AttachmentProgram`,
  `AttachmentSlots`, `AttachmentFiles`);
- **account renewal** of the load client (`AccountSession`, `AccountProgram`);
- the **latency histogram** scraped without a lock (`Histogram`).

`Wrappers`, `Collections` and `Arithmetic` hold what several modules share. Where the source updates an
object in place there is a class whose methods are proved against functions on values, and
the theorems are about those functions and the runs they make. A run is a sequence of
states and the actions between them, of any length and in any order; histories that the
program does not keep are marked as such in the code.

Four things the source or its comments suggest do not hold of every run, and the model
says what does:

- The recorder's `written` can exceed `accepted` while a producer is between its enqueue and
  its accounting (`RecorderRace.WrittenCanRunAhead`); `Recorder.WrittenWithinAccepted` gives
  the exact condition.
- A push subscription can be claimed more than five times per enqueue. The excess is at most
  the number of claims taken while another was outstanding (`PushQueue.ClaimsPerEnqueue`).
  The bound is reached for every number of enqueues and of such claims
  (`PushQueue.BoundIsReached`), and deliveries that keep to their lease have none of them
  (`PushQueue.LeasesAreSerial`).
- A wider video tile can get a lower layer (`LayerChoice.NotMonotone`);
  `LayerChoice.MonotoneExactly` says exactly when.
- A chat schedule can fail its bound check; `ChatRun.OverrunsExactly` says when, and
  `ChatRun.JoiningLateOverruns` gives a run. The only caller
  (load_tests/src/main.rs:3685-3699) drops a schedule after any error, so that run needs the
  interface rather than the program.

Clocks, network replies, fresh identifiers, I/O results and the choice of what runs next are
inputs. `dafny verify dfyconfig.toml` checks everything.

## Model

| member | source | states |
|---|---|---|
| Recorder.RunKeepsInv | src/diagnostics.rs:174-191 | One inductive invariant ties gate, reservations, queue, timers, file and counters together in every interleaving |
| Recorder.GateIsExact | src/diagnostics.rs:199-259 | The producer word is the close bit plus the number of live sections, the count stays below the close bit, and the bit is set exactly when something closed the gate |
| Recorder.ReservationsAreExact | src/diagnostics.rs:267-273 | Reserved equals accepted plus the sections holding an unresolved reservation, so accepted <= reserved <= max_records although refunds race with reservations |
| Recorder.Freeze | src/diagnostics.rs:515-529 | Once the word reads exactly CLOSED no section runs again and every producer counter and the accepted sequence stay fixed |
| Recorder.ConservationAtClose | src/diagnostics.rs:428-463 | After the terminal snapshot accepted + dropped + expired + unfinished is the number of begins that passed the gate; finalized never exceeds started, so the subtraction never saturates |
| Recorder.ExactOutput | src/diagnostics.rs:472-561 | If shutdown answers true the file is the accepted records in queue order and one summary with written = accepted |
| Recorder.WriterIsSticky | src/diagnostics.rs:531-561 | A write failure is never forgotten and a finished writer never changes |
| Recorder.FinishOnce | src/diagnostics.rs:581-675 | Every accepted record comes from a timer that was started, is no longer open and contributed no other record |
| Recorder.WrittenWithinAccepted | src/diagnostics.rs:444-463 | written <= accepted holds exactly when the producers between enqueue and accounting do not outnumber the records queued, in hand or discarded; always behind the gate; and written never exceeds what was enqueued |
| Recorder.DrainIsBounded | src/diagnostics.rs:511-561 | Once the word reads CLOSED the writer finishes within 4 |queue| + 18 of its own steps, whatever the sink does and whatever else happens |
| Recorder.CloseIsBounded | src/diagnostics.rs:199-259 | After close the live sections take at most seven steps each; then the word reads CLOSED and the writer finishes within 4 * 256 + 18 of its own steps, so the whole way from close to finished is bounded |
| RecorderCauses.GateAdmits | src/diagnostics.rs:246-254 | In every run a call gets into a section exactly while nothing has closed the gate and fewer than 2^63 - 1 sections are live; a refused record loses its timer, and an admitted one holds the timer and outcome it was called with |
| RecorderCauses.CausesAreCounted | src/diagnostics.rs:428-463 | Expired counts the looks at a clock past the duration, dropped those at a used-up limit or a full or closed queue of 256, started and accepted those that found room, but for the threads about to count theirs; exactly once no section is live |
| RecorderCauses.RecordsAreAuthentic | src/diagnostics.rs:444-456 | Every record ever accepted carries the timer and outcome that some call reported |
| RecorderCauses.FailureCloses | src/diagnostics.rs:531-540 | After a failed write the gate is closed or about to be, and no further record counts as written |
| RecorderCauses.ShutdownIsHonest | src/diagnostics.rs:472-560 | Shutdown answers true exactly when the writer finished and the sink failed none of its writes and flushes |
| RecorderRace.WrittenCanRunAhead | src/diagnostics.rs:453-455 | A run reaches a state in which the writer has counted a record its producer has not |
| RecorderCalls.BeginLeads | src/diagnostics.rs:428-442 | An uninterrupted begin is the calling thread's own steps in the interleaved system |
| RecorderCalls.RecordLeads | src/diagnostics.rs:444-463 | So is an uninterrupted record of a timer the thread holds |
| RecorderCalls.TurnLeads | src/diagnostics.rs:515-549 | An iteration of the writer's loop, sealing and a failed write included, is the writer's own steps |
| RecorderCalls.ConcludedLeads | src/diagnostics.rs:550-560 | So are the flush, the summary and the end |
| RecorderCalls.TurnTakes | src/diagnostics.rs:515-549 | Behind the gate an iteration takes one record or ends the loop; it fails exactly when it had failed or its write does |
| RecorderCalls.ReachableIsSound | src/diagnostics.rs:174-191 | Whatever calls lead to, the invariant holds, a sealed state accounts for every begin and a finished one without a failure has the exact file |
| RecorderProgram.DiagnosticRecorder.constructor | src/diagnostics.rs:396-426 | A new recorder is an initial state of the interleaved system |
| RecorderProgram.DiagnosticRecorder.Close | src/diagnostics.rs:256-259 | Sets the close bit once, keeps the count and leads to a reachable state |
| RecorderProgram.DiagnosticRecorder.BeginRecord | src/diagnostics.rs:428-442 | A timer comes back, and is a new one, exactly while the gate is open, the duration has not passed and the limit is not used up; else an admitted begin counts one expiry or one drop, and a refused one nothing |
| RecorderProgram.DiagnosticRecorder.Account | src/diagnostics.rs:451-461 | A record is accepted, dropped or expired, each counted once, and a failed enqueue returns its reservation |
| RecorderProgram.DiagnosticRecorder.Record | src/diagnostics.rs:444-463 | A record inside the gate is finalized once whatever becomes of it; behind the gate nothing changes |
| RecorderProgram.DiagnosticRecorder.Finish | src/diagnostics.rs:581-601 | The timer is consumed; its record is enqueued exactly while the gate is open, the duration has not passed, a reservation is left and the queue has room, and else the timer is gone |
| RecorderProgram.DiagnosticRecorder.WriterTurn | src/diagnostics.rs:515-549 | One iteration takes the head of the queue and writes it, discards it after a failure and closes the gate on one; with nothing queued it ends the loop behind the gate, closes the gate if every sender is gone, or waits |
| RecorderProgram.DiagnosticRecorder.WriteRecords | src/diagnostics.rs:511-561 | However many iterations the writer gets, the result is a state of a run; behind the gate one more than the queue is long finishes it; it fails if it had failed and does not if every write succeeds |
| RecorderProgram.DiagnosticRecorder.Conclude | src/diagnostics.rs:550-560 | Flush, summary and flush again end the writer, and a failure of any of them is remembered |
| RecorderProgram.DiagnosticRecorder.Shutdown | src/diagnostics.rs:472-492 | Called wherever the writer stands: true exactly when the writer finished without a failure, and then the file is exact and the totals account for every begin; with no section left it finishes once the budget allows one iteration more than the queue is long after the one in progress |
| RecorderProgram.DiagnosticRecorder.TakeStep | src/diagnostics.rs:511-561 | One atomic step of the writer from any place, the same as the step of the interleaved system |
| RecorderProgram.DiagnosticRecorder.Resume | src/diagnostics.rs:511-561 | An iteration of the writer that is under way always completes, whatever the sink does, without adding to the queue or reopening the gate |
| PushQueue.RetryDelayBounds | src/push.rs:353-355 | A claim's back-off is 60, 120, 240, 480 or 960 seconds for its first to fifth attempt |
| PushQueue.StatusDecides | src/push.rs:333-363 | 404 and 410 delete the row, 408, 429 and 5xx back it off while attempts remain, everything else settles it unless a newer message arrived |
| PushQueue.FinishedExactly | src/push.rs:342-363 | With k attempts a retry is due 60, 120, 240 or 480 seconds after the finish and changes nothing else; any other answer but a gone endpoint settles the row for exactly 15 seconds, unless a newer message arrived |
| PushQueue.RunKeepsInv | src/push.rs:258-363 | In every run of one row's statements attempts stay within 0..5, the generation counts the enqueues, no held claim is newer, and the row is not due within 15 seconds of its last claim or 3 of becoming pending |
| PushQueue.ClaimSpacing | src/push.rs:277-287 | Two claims of a subscription are at least 15 seconds apart in every interleaving |
| PushQueue.CoalescingWindow | src/push.rs:258-267 | The first claim after a row becomes pending comes at least 3 seconds later |
| PushQueue.RetryIsSpaced | src/push.rs:342-363 | In runs with serial claims the next claim after a finished delivery comes at least 60, 120, 240 or 480 seconds after a retry, by its attempts, and 15 seconds after any other answer |
| PushQueue.NeverFarOff | src/push.rs:258-363 | No statement of any run puts a row off for more than eight minutes |
| PushQueue.NoLostNotification | src/push.rs:258-363 | After an enqueue the row stays pending until a terminal finish by a claim taken after it, or until it is deleted, with any number of stale claims around |
| PushQueue.LeaseExcludes | src/push.rs:277-287 | If every finish comes within its 60-second lease no row is held twice |
| PushQueue.ClaimsPerEnqueue | src/push.rs:258-363 | In every run a subscription gets at most five claims per enqueue plus one for each claim taken while another was outstanding |
| PushQueue.BoundedRetries | src/push.rs:342-434 | With each claim finished before the next one of that row, E enqueues lead to at most 5 E claims |
| PushQueue.LeasesAreSerial | src/push.rs:273-287 | Deliveries that finish within the 60-second lease are serial, so the bound of five per enqueue holds for them |
| PushQueue.EveryDeliveryRetried | src/push.rs:342-363 | For every E a serial run reaches exactly 5 E claims |
| PushQueue.AbandonedClaims | src/push.rs:277-287 | For every n one enqueue can lead to n claims of which all but the first overlap |
| PushQueue.BoundIsReached | src/push.rs:258-363 | For every E >= 1 and every K a run with E enqueues and K overlapping claims reaches exactly 5 E + K claims, so the bound cannot be lowered |
| PushTable.StatementsActOnRows | src/push.rs:258-363 | A table statement acts on the rows as its SQL says |
| PushTable.TableRunGrows | src/push.rs:258-363 | Whatever statement comes next extends a run of the table, so runs leave nothing out |
| PushTable.TableRunProjects | src/push.rs:258-363 | Each row's part of a run of table statements is a run of the single-row system, so the row theorems hold in the table |
| PushTable.TableKeepsInv | migrations/030_push_subscriptions.sql:8-19 | Every row of every table run keeps the row invariant |
| PushTable.SubscriberStays | src/push.rs:213-216 | A row belongs to the user it was created for in every table run |
| PushTable.TurnApproaches | src/push.rs:277-287 | A statement that leaves a due row waiting puts no row ahead of it, and a batch that passes it over takes four rows out of its way |
| PushTable.NoStarvation | src/push.rs:277-434 | A due row that nobody locks is passed over by at most a quarter as many batches as there were rows ahead of it, whatever else happens |
| PushTable.Subscriptions.EnqueuePush | src/push.rs:258-267 | Every row of the recipient, and no other, gets a new generation; one that was not pending becomes so with no attempts, due in three seconds or when it was due anyway |
| PushTable.Subscriptions.LongestDue | src/push.rs:279-281 | Finds an unlocked due row with the earliest time, or there is none |
| PushTable.Subscriptions.ClaimPending | src/push.rs:277-287 | Leases at most four of the longest-due unlocked rows, all of them if fewer, for sixty seconds with one attempt more up to five, changes no other row and reports each leased row once |
| PushTable.Subscriptions.FinishDelivery | src/push.rs:342-363 | Deletes the row, backs it off by one to eight minutes by its attempts, or settles it for fifteen seconds; a newer generation stays pending, a missing row stays missing and no other row changes |
| ChatPlan.RoomSizeCounts | load_tests/src/chat_load.rs:179-182 | The closed form of room_size is the number of clients with the same remainder |
| ChatPlan.FirstSendInInterval | load_tests/src/chat_load.rs:184-190 | Every first send falls within one interval of the start, and strictly inside it exactly when the interval's nanoseconds can seat the rest of the room |
| ChatPlan.FirstSendIsNearest | load_tests/src/chat_load.rs:184-190 | A first send is the nanosecond nearest to the share of the interval that the client's seat has in its room |
| ChatPlan.KeyInjective | load_tests/src/chat_load.rs:411-414 | A client message id determines its sender and sequence number |
| ChatPlan.DecimalRoundTrip | load_tests/src/chat_load.rs:411-414 | The numbers in an id are read back as written |
| ChatPlan.ContentShape | load_tests/src/chat_load.rs:415-422 | A message is its text filled up with x to 128 bytes |
| ChatPlan.ValidateIsExact | load_tests/src/chat_load.rs:85-129 | validate accepts exactly the workloads that meet its bounds in unlimited arithmetic: no saturated or wrapped product changes the answer |
| ChatPlan.ValidatedRun | load_tests/src/chat_load.rs:85-129 | A configuration that validate accepts owes at most 1,000,000 deliveries, stays within five messages a second per room and gives everybody a message, saturating and wrapping arithmetic included |
| ChatOracle.RegisterKeepsInv | load_tests/src/chat_load.rs:266-276 | Registering keeps the oracle's invariant |
| ChatOracle.ObserveKeepsInv | load_tests/src/chat_load.rs:288-396 | So does observing any message: receivers stay within the room without the sender and a server identity is known exactly once something was counted |
| ChatOracle.PrepareKeepsInv | load_tests/src/chat_load.rs:406-453 | So does sending: every message on record is a planned one of a registered sender |
| ChatOracle.OracleIsExact | load_tests/src/chat_load.rs:203-262 | The five totals agree exactly when everybody registered, every planned message and no other was sent, acknowledged and received by each room mate, and nothing was rejected |
| ChatRun.ReportIsExact | load_tests/src/chat_load.rs:203-262 | The same for the report at any point of any run of joins, schedules, sends and observations |
| ChatRun.NeverOverruns | load_tests/src/chat_load.rs:406-433 | A sender that never tried before joining never fails the bound check |
| ChatRun.OverrunsExactly | load_tests/src/chat_load.rs:406-433 | The bound check refuses exactly when the slot is open, the sender has joined and the schedule has made at least as many attempts, sent or refused, as messages are owed |
| ChatRun.JoiningLateOverruns | load_tests/src/chat_load.rs:410-433 | For every plan a run in which attempts before joining use up all sequence numbers and the check then refuses, with nothing ever sent |
| ChatRun.SendsAreSpaced | load_tests/src/chat_load.rs:406-446 | Two sends of a schedule are at least one interval apart |
| ChatRun.InvalidCountsRejections | load_tests/src/chat_load.rs:288-300 | The invalid count is the number of rejected observations of the run |
| ChatRun.ExactlyOnce | load_tests/src/chat_load.rs:203-396 | With one schedule per client the report passes exactly when everybody joined, every planned message was acknowledged once to its sender and to no other client, delivered once to each room mate and to no other client of any room, and nothing was rejected |
| ChatRun.OneServerIdentity | load_tests/src/chat_load.rs:364-387 | All counted observations of a message carry the same server identity |
| ChatEvidence.CountedExactly | load_tests/src/chat_load.rs:302-396 | With one schedule per client an observation is counted exactly when an earlier prepare in the client's room handed out its id with its content at most two seconds ago, to a sender that joined under its participant id, it is an acknowledgement to the sender or a delivery to another, it is the first of its kind, no counted observation named another server id, and an acknowledgement repeats its id without recipient or reply |
| ChatEvidence.LatencyIsSinceSend | load_tests/src/chat_load.rs:371-395 | The latency of a counted observation is the whole milliseconds since the message was handed out |
| ChatEvidence.PassedDelivers | load_tests/src/chat_load.rs:203-396 | Behind a passing report every member of the sender's room saw every planned message word for word under the sender's name within two seconds, the sender as an acknowledgement and the others as a delivery |
| ChatEvidence.PreparesExactly | load_tests/src/chat_load.rs:406-453 | What prepare answers by the events before it: nothing outside the slots, which open at the first send and an interval after each send until the stop; an error before joining or after all attempts; else the next message of the sequence |
| ChatWitness.EveryPlanCanPass | load_tests/src/chat_load.rs:579-615 | Every usable configuration, of any number of clients and rooms, has a run with a clock that never goes back that passes |
| ChatProgram.ChatLoad.constructor | load_tests/src/chat_load.rs:132-148 | A new load has empty rooms and stops two seconds before the end |
| ChatProgram.ChatLoad.Register | load_tests/src/chat_load.rs:266-276 | Registers a client once; a second attempt changes nothing |
| ChatProgram.ChatLoad.ObserveInner | load_tests/src/chat_load.rs:302-396 | Applies the checks in order, marks the send on success and changes nothing on failure |
| ChatProgram.ChatLoad.Observe | load_tests/src/chat_load.rs:288-300 | A rejected observation raises the invalid count by one |
| ChatProgram.ChatLoad.ExpectedTotals | load_tests/src/chat_load.rs:192-216 | The two expected totals are the sums of the plan |
| ChatProgram.ChatLoad.ReceivedTotal | load_tests/src/chat_load.rs:225-229 | The received total of a room is its number of message and receiver pairs |
| ChatProgram.ChatLoad.ReportTotals | load_tests/src/chat_load.rs:203-262 | All report fields; it passes exactly when no total disagrees, which is the verdict the oracle theorem is about |
| ChatProgram.ChatLoad.Inventory | load_tests/src/chat_load.rs:157-177 | Lists exactly the messages with a known server identity, one entry each with that identity, the sender's name, the id and the digest, in ascending order |
| ChatProgram.PassedInventory | load_tests/src/chat_load.rs:157-177 | After a passing report the inventory covers the whole plan |
| ChatProgram.ChatSchedule.constructor | load_tests/src/chat_load.rs:278-284 | A schedule starts at the client's first send |
| ChatProgram.ChatSchedule.Next | load_tests/src/chat_load.rs:400-402 | The earliest time a message may be prepared, if there is one |
| ChatProgram.ChatSchedule.Prepare | load_tests/src/chat_load.rs:406-453 | Sends the next planned message in its window, or reports why not, and changes nothing else |
| Rotation.SlotLoad | load_tests/src/browser_profile.rs:335-344 | In every slot exactly min(speakers, publishers) publishers talk |
| Rotation.OneHandsOver | load_tests/src/browser_profile.rs:335-344 | From slot to slot the first talker stops and the publisher after the last one starts, and nobody else changes |
| Rotation.SlotsInTime | load_tests/src/browser_profile.rs:325-331 | Slot k lasts from k to k + 1 slot lengths after the epoch |
| Rotation.InstantLoad | load_tests/src/browser_profile.rs:325-331 | The same at every instant, before the epoch too |
| Rotation.FairRotation | load_tests/src/browser_profile.rs:335-344 | Over any `publishers` consecutive slots each publisher talks min(speakers, publishers) times |
| Rotation.SecondsAddUp | load_tests/src/browser_profile.rs:348-360 | The speaking seconds of all publishers add up to window times min(speakers, publishers) |
| Rotation.SecondsAreSpoken | load_tests/src/browser_profile.rs:348-360 | A second is counted exactly when is_speaking answers yes in it, with ten-second slots |
| LayerChoice.Target | load_tests/src/browser_profile.rs:120-125 | The lowest layer that covers the tile, or the top one |
| LayerChoice.NeededScales | load_tests/src/browser_profile.rs:113-119 | The needed width is the tile's times the pixel ratio if that is above one, and never negative |
| LayerChoice.HysteresisIsExact | load_tests/src/browser_profile.rs:120-146 | A tile moves up exactly when it exceeds 1.15 times its layer's width, and down exactly when it is below 0.85 times the width of the lower layer it needs; either way to the layer it needs |
| LayerChoice.FirstLayer | load_tests/src/browser_profile.rs:126-128 | A tile without a layer, or with an unknown one, gets the layer it needs |
| LayerChoice.LayerSuffices | load_tests/src/browser_profile.rs:113-146 | After a layout the layer covers the tile up to the margin or is the top one, and exceeds the need only while the tile is not clearly smaller |
| LayerChoice.NoReversal | load_tests/src/browser_profile.rs:103-146 | Over any sequence of layouts pairwise within 20/17 the layer never reverses direction |
| LayerChoice.AtMostTwoChanges | load_tests/src/browser_profile.rs:103-146 | So it changes at most twice |
| LayerChoice.FactorIsTight | load_tests/src/browser_profile.rs:103-146 | Any factor above 20/17 allows a reversal |
| LayerChoice.MonotoneExactly | load_tests/src/browser_profile.rs:113-146 | A wider tile gets no lower layer, unless the top layer is current, the lowest layer just covers the narrower tile and the middle one covers the wider tile with room to spare: exactly then it does |
| BrowserGrid.AutoFit | load_tests/src/browser_profile.rs:275-289 | From seven tiles on there are as many columns of at least 280 pixels as fit, within one and the number of tiles |
| BrowserGrid.FewTiles | load_tests/src/browser_profile.rs:279-282 | Up to six tiles have one, two or three columns |
| BrowserGrid.TilesFill | load_tests/src/browser_profile.rs:274-289 | Columns, gaps, padding and side panels add up to the viewport, unless no room is left, when the width is zero |
| BrowserGrid.NeededByTiles | load_tests/src/browser_profile.rs:208-209 | A grid is laid out for one tile per remote participant and the viewer's own |
| BrowserGrid.LaysOut | load_tests/src/browser_profile.rs:210-229 | A layout gives a layer to every video that had one or arrives and to nothing else: the lowest in data-saver mode, else by hysteresis or, for a new one, as needed |
| BrowserGrid.ConsumeAgrees | load_tests/src/browser_profile.rs:203-207 | A layout keeps participants equal to the owners of consumed producers exactly when every participant that loses a medium to a reused consumer id keeps another |
| BrowserGrid.FreshBatchAgrees | load_tests/src/browser_profile.rs:203-207 | Fresh consumer ids are enough for that |
| BrowserGrid.AnnounceAgrees | load_tests/src/browser_profile.rs:195-198 | An announcement keeps it exactly when the producer is not consumed, keeps its owner, or moves between two participants drawn anyway |
| BrowserGrid.DepartAgrees | load_tests/src/browser_profile.rs:233-251 | A departure always keeps it |
| BrowserGrid.DepartRemoves | load_tests/src/browser_profile.rs:233-251 | A departure removes the producer, its consumers and their layers, and its owner's tile exactly when no other medium of the owner is consumed; nothing else |
| BrowserGrid.OwnersFollow | load_tests/src/browser_profile.rs:187-198 | In every run a producer belongs to whoever it was last announced for, or to itself |
| BrowserGrid.GridAgrees | load_tests/src/browser_profile.rs:187-251 | After any orderly run participants are exactly the owners of consumed producers |
| BrowserGrid.GridTidy | load_tests/src/browser_profile.rs:203-251 | In every run only consumed videos have layers, and they exist; in data-saver mode all are the lowest |
| BrowserGrid.ReannouncedDrifts | load_tests/src/browser_profile.rs:195-198 | A producer that changes hands while consumed leaves a stale tile |
| BrowserGrid.TilesDoNotFlap | load_tests/src/browser_profile.rs:148-230 | No tile of the grid reverses or changes more than twice while the layouts stay within 20/17, whatever is announced or departs in between |
| BrowserGrid.DiffApplies | load_tests/src/browser_profile.rs:200-230 | Applying a layout's requests to the old layers gives the new ones |
| BrowserProgram.VideoGrid.constructor | load_tests/src/browser_profile.rs:170-185 | A new grid is empty |
| BrowserProgram.VideoGrid.Seat | load_tests/src/browser_profile.rs:204-207 | Adds every producer's owner and records every consumer, later entries winning |
| BrowserProgram.VideoGrid.Relayout | load_tests/src/browser_profile.rs:211-219 | Re-evaluates every tile once in ascending order and asks only for the layers that change |
| BrowserProgram.VideoGrid.AddTiles | load_tests/src/browser_profile.rs:220-228 | Gives each new video a fresh layer and asks for it once, in the order of arrival |
| BrowserProgram.VideoGrid.ConsumeBatch | load_tests/src/browser_profile.rs:203-230 | The requests are the exact, redundancy-free difference of the layer maps, relaid tiles first in ascending order, then the new ones as they arrived |
| BrowserProgram.VideoGrid.DepartProducer | load_tests/src/browser_profile.rs:233-251 | Removes the producer's consumers and layers, and its owner's tile with the last of the owner's media |
| BrowserProgram.VideoGrid.AnyOwnedBy | load_tests/src/browser_profile.rs:244-248 | Whether some consumed producer has this owner |
| AttachmentQuota.InsertWithin | src/attachments.rs:188-197 | A row may be added within the four limits exactly when the atomic upload is not refused |
| AttachmentQuota.DeleteKeepsWithin | src/attachments.rs:283-284 | Deleting any rows keeps the limits |
| AttachmentQuota.CommitIsAtomic | src/attachments.rs:162-208 | A commit does what the atomic upload would do at that moment |
| AttachmentQuota.RefusalIsAtomic | src/attachments.rs:182-197 | A refusal is the one the atomic upload would have given on the table the sums were read from, and there is none if that would have accepted |
| AttachmentQuota.ReadWasCommitted | src/attachments.rs:176-185 | That table was the committed one at a moment the transaction held the lock |
| AttachmentQuota.QuotaHolds | src/attachments.rs:162-208 | In every interleaving of uploads, aborts, updates and deletions the table stays within 1 GiB and 20,000 files, every account within 64 MiB and 1,000 files, and every file within 5 MiB |
| AttachmentQuota.LockIsReleased | src/attachments.rs:162-208 | The quota lock is held exactly by a transaction between taking it and its commit, refusal or abort |
| AttachmentProgram.AttachmentStore.ReadSums | src/attachments.rs:182-185 | The four sums of one pass over the rows |
| AttachmentProgram.AttachmentStore.Store | src/attachments.rs:162-208 | Stores or refuses as the atomic upload does, each refusal exactly by its limit and an identifier in use included; the limits are kept |
| AttachmentProgram.AttachmentStore.DeletePending | src/attachments.rs:269-287 | Removes only the owner's own file that no message uses |
| AttachmentProgram.AttachmentStore.OldestExpired | src/attachments.rs:601-604 | Finds a longest-expired file, or there is none |
| AttachmentProgram.AttachmentStore.Cleanup | src/attachments.rs:601-604 | One pass removes only expired files, the longest-expired first, and leaves an expired one only after a thousand; the limits are kept |
| AttachmentSlots.SlotsHold | src/attachments.rs:210-267 | Never five bodies at once or two of one account; an account is busy exactly while it has a handler; nothing leaks when handlers end |
| AttachmentSlots.AdmitsExactly | src/attachments.rs:223-250 | A reservation succeeds exactly when no upload of the account is in flight, and a body is accepted exactly when fewer than four are being read |
| AttachmentFiles.PngIsAnimated | src/attachments.rs:121-142 | The walk terminates within bounds on any bytes and answers as its recursive definition |
| AttachmentFiles.ChunkTypesDecide | src/attachments.rs:114-142 | For every serialized chunk list the chunk types alone decide, whatever payloads and checksums hold and whatever follows |
| AttachmentFiles.DecidesIff | src/attachments.rs:114-142 | They decide for animation exactly when an acTL precedes the first IEND |
| AttachmentFiles.CutOffChunk | src/attachments.rs:114-142 | A chunk whose body runs past the end means animated exactly when it is an acTL |
| AttachmentFiles.EncodeName | src/attachments.rs:527-535 | The loop escapes byte by byte as RFC 8187 asks |
| AttachmentFiles.NameRoundTrip | src/attachments.rs:513-541 | Decoding the encoded name gives the stored name |
| AttachmentFiles.EncodedIsSafe | src/attachments.rs:526-535 | The encoded name holds letters, digits, percent signs and the twelve marks only: no control, space, quote, separator or byte from 0x80 up |
| AttachmentFiles.PlainNames | src/attachments.rs:526-535 | A name of letters, digits and those marks is sent as it is |
| AttachmentFiles.EscapesAreWhole | src/attachments.rs:526-535 | Every percent sign is followed by two upper-case hexadecimal digits |
| AccountSession.RunKeepsInv | load_tests/src/account_session.rs:243-364 | The invariant of refreshes, renewals, expiries, attempts and deferrals over every run |
| AccountSession.RenewalsKeepUp | load_tests/src/account_session.rs:251-364 | Without failures refreshes are renewals plus the pending one, and the socket's expiry equals the token's exactly when nothing is pending |
| AccountSession.RetriesAreBounded | load_tests/src/account_session.rs:251-267 | The retry bound never fires and there are at most three deferrals per refresh |
| AccountSession.StepRotates | load_tests/src/account_session.rs:272-303 | The cookie changes exactly when an HTTP refresh completes, and then the expiry grows |
| AccountSession.RefreshTakesOver | load_tests/src/account_session.rs:268-303 | With nothing pending a refresh takes over token, cookie and expiry of the reply exactly when it is for this account and session, with a new cookie, a later expiry and the usual lifetime, and fewer than eight came before; the renewal carries that token, and the next refresh is due a minute before its expiry |
| AccountSession.RetryRepeats | load_tests/src/account_session.rs:252-267 | A pending renewal is sent again exactly when its deferral has run out and it has had fewer than four attempts, with the session's token and a new request id |
| AccountSession.AcknowledgesExactly | load_tests/src/account_session.rs:315-330 | An acknowledgement is accepted exactly when it names the pending request and the latest expiry |
| AccountSession.DefersExactly | load_tests/src/account_session.rs:334-360 | A deferral is accepted exactly when it names the pending request and the socket's expiry, is the first of its attempt, leaves one more and is safe |
| AccountSession.AcknowledgementsAnswer | load_tests/src/account_session.rs:251-330 | In a run without failures every accepted acknowledgement answers a message that went out before with the token the session has now |
| AccountSession.DeferralsKeepCredentials | load_tests/src/account_session.rs:313-364 | Between two completed refreshes nothing touches cookie, token or expiry |
| AccountSession.PassedMeans | load_tests/src/account_session.rs:366-389 | A pass means the socket carries the latest expiry, later than the original by at least the number of refreshes |
| AccountSession.DeferralIsSafe | load_tests/src/account_session.rs:335-360 | An accepted retry and the wait for its answer end before the socket's credential does, at whatever millisecond the deferral arrived |
| AccountProgram.AccountClient.constructor | load_tests/src/account_session.rs:161-208 | A session after login has nothing pending and three equal expiries |
| AccountProgram.AccountClient.RetryPending | load_tests/src/account_session.rs:252-267 | The pending branch of a refresh |
| AccountProgram.AccountClient.RefreshOnce | load_tests/src/account_session.rs:251-303 | What goes out carries the token the session now has under the request id it waits for, both from the reply after a completed refresh; a due retry counts as an attempt and clears the retry flag even if its message is not built, and an unbuilt first message leaves the new credential without a pending renewal; anything else changes nothing |
| AccountProgram.AccountClient.RefreshCredential | load_tests/src/account_session.rs:237-249 | Counts failures, keeps the invariant, never reaches the retry bound, leaves a pending renewal alone before its time and each message fifteen seconds |
| AccountProgram.AccountClient.ObserveOnce | load_tests/src/account_session.rs:313-364 | Acknowledges, defers or rejects; a rejected message changes nothing |
| AccountProgram.AccountClient.ObserveMessage | load_tests/src/account_session.rs:305-311 | Counts failures and keeps the invariant |
| AccountProgram.AccountClient.ReportSession | load_tests/src/account_session.rs:366-389 | The report's fields and what its verdict lets a reader conclude |
| AccountProgram.DriveSession | load_tests/src/account_session.rs:161-389 | A login and any sequence of refreshes and messages drive the object through a run of the protocol, and the report at the end means what the run's theorems say |
| Histogram.BucketIndex | src/metrics.rs:44-48 | An observation is up to a bound exactly when its bucket is not above the bound's |
| Histogram.Scrape | src/metrics.rs:54-60 | Entry i is the sum of the first i + 1 bucket reads, each at its own time |
| Histogram.ScrapeIsBracketed | src/metrics.rs:23-27 | Every value lies between the true counts at the scrape's start and end |
| Histogram.ScrapeIsMonotone | src/metrics.rs:51-60 | Values never decrease from bound to bound up to +Inf, which is the count |
| Histogram.LaterScrapesGrow | src/metrics.rs:54-86 | A scrape that reads every bucket no earlier than another reports no less at any bound, overlapping or not |
| Histogram.Buckets.constructor | src/metrics.rs:36-41 | A new histogram has counted nothing |
| Histogram.Buckets.BucketFor | src/metrics.rs:46 | The scan finds the partition point of the bounds |
| Histogram.Buckets.Observe | src/metrics.rs:44-49 | One observation raises its own bucket and no other |
| Histogram.Buckets.Read | src/metrics.rs:72 | A bucket holds the number of past observations in its interval |

## Left out

- Thread parking, wake-ups and the 200 ms shutdown budget of the recorder: the budget is a number of the writer's iterations.
- Memory orderings weaker than sequential consistency; the recorder's and the histogram's atomics are single steps of one interleaving.
- The recorder's `next_id`, the JSON text of its lines and the 1024-byte line bound: a write either succeeds or fails.
- Wrap-around of 64-bit counters (recorder, histogram, latencies), which no run reaches.
- RecorderProgram.DiagnosticRecorder.Record: describes a call that no other thread interrupts; the interleaved behaviour is in `Recorder`, and `RecorderCalls` ties the two together.
- ChatPlan.FirstSendInInterval: the phase of a client is the nearest nanosecond of an exact quotient; binary floating-point rounding is not modelled.
- ChatProgram.ChatLoad.Inventory: the SHA-256 digest is a parameter and message ids are numbers in the order of their text.
- ChatPlan.ValidatedRun: the loopback test of the URL is a parameter, and the wrapping product stands for a release build; a debug build panics there.
- The latency histograms that the chat load feeds.
- HTTP delivery, VAPID signing and the `still_unread` query of the push worker: the delivery outcome is an input; time is one clock that never runs backwards.
- PostgreSQL itself: statements are atomic, a statement sees what is committed when it starts, and the advisory lock is held until the transaction ends.
- Capture profiles, consumer budgets and DTX audio of the browser workload: one comparison or one counter each.
- LayerChoice.LayerSuffices: widths and ratios are reals; NaN and rounding are not modelled.
- Authentication, file-name sanitising, image dimensions, grants and download streaming of attachments.
- AttachmentFiles.EncodeName: the quoted ASCII fallback of the header is not modelled.
- Credentials files, tickets, the decoding of tokens and the search for the refresh cookie in the account client: their results are inputs.
- The histogram's `_sum`, which is read apart from the buckets, and the text format.
- Process wiring, configuration, rooms, signaling and media.
