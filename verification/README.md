# Log Courier: delivery, verified

Log Courier reads log files and ships their lines to Logstash. Its promise is at-least-once delivery: a crash
never loses an event (the repository's README.md:50-51). This project models the code that carries that promise and proves, for
every input and every run, what the code does keep and exactly where it falls short.

| files | what they hold |
|---|---|
| `Payloads`, `Delivery` | the acknowledgement protocol on values: payloads, publisher, sink and endpoints, with their history |
| `DeliveryInvariant`, `DeliveryBook`, `DeliverySteps` | the invariant, and the proof that every step keeps it |
| `DeliveryRuns`, `DeliveryHistory`, `DeliveryCounters` | what follows for whole runs |
| `DeliveryClashes`, `DeliveryLimits` | payloads that meet under one nonce; runs in which the protocol falls short |
| `Publishing` | the same routines on objects updated in place, each proved to do what its function in `Delivery` does, and one iteration of the publisher put together from them |
| `Registrar`, `AtLeastOnce` | resume offsets, and what a stored offset has passed |
| `Prospector` | files followed through renames, and what the registrar is told of them |
| `LineReader`, `Harvester` | lines out of a file in any portions, with their offsets, sent on or given up |
| `LineDelivery` | a line's way from the file through publisher and registrar to a restart |
| `MultilineTrace`, `Multiline` | lines joined to events and cut to size, and which text each event is made of |
| `RingList`, `TimeoutList`, `Spooler`, `JsonComments` | the ring list, timeouts, batching, and comments in the configuration |
| `Sequences` | sequences without duplicates, concatenation, longest prefixes |

The protocol is modelled twice. `Delivery` gives every routine as a function on values, on which the invariant and
all theorems about runs are proved. `Publishing` has the classes with their fields, in which the same routines
change objects. `Publishing.Publisher.Iterate` ties the two together: whatever happens in an iteration, the
objects keep the invariant, and the registrar has been given exactly what the theorems say.

A run starts from a publisher without endpoints and takes any steps in any order: spools arrive, acknowledgements
(stale, partial, repeated, too large, out of order, or with an unknown nonce), endpoints start, fail, finish, back
off and time out, are added and closed, and the publisher shuts down. What the program leaves to chance is an
argument of the step: the endpoint preferred for a payload, the nonces generated until one is free on that endpoint,
and the order in which a Go map is iterated. In a run no payload is sent again to an endpoint on which another is
pending under its nonce; `DeliveryClashes` proves that every other step keeps the invariant and that such a one
breaks it. A trace (`DeliveryRuns.IsTrace`) may have such steps as well.

## Model

| member | source | states |
|---|---|---|
| Payloads.AckFollowsWire | lc-lib/payload/payload.go:74-92 | while a payload is incomplete, stale sequence numbers change nothing, those past the end act as exactly the end, and the line count reported is the number of events newly covered, as docs/Protocol.md:126-132 asks |
| Payloads.AckOfCompletePayload | lc-lib/payload/payload.go:74-92 | of the method alone: a complete payload stays complete, and the count reported for it is right if and only if the number is stale or none ever went past the end; no run asks it of a payload that has events (DeliveryCounters.PendingAckCounts) |
| DeliveryCounters.PendingAckCounts | lc-lib/endpoint/endpoint.go:228-283 | in every state of every run, the count reported for anything pending is the number of events newly acknowledged; of what is pending, only a payload without events can be complete, and its count is zero |
| Payloads.SequenceArithmetic | lc-lib/payload/payload.go:74-101 | an incomplete payload has as many sequence numbers left as events left, and at least one |
| Payloads.CompleteMeansAcked | lc-lib/payload/payload.go:104-111 | Complete says that every event of the spool is acknowledged; Events and Rollup cut the spool where the acknowledgements end |
| Payloads.ResendRenumbers | lc-lib/payload/payload.go:66-101 | a resend carries exactly the unacknowledged events, numbered from one |
| Payloads.RollupAdvances | lc-lib/payload/payload.go:113-121 | a rollup hands over exactly the events acknowledged since the last one, and leaves what is to be sent as it was |
| Payloads.RunConserves | lc-lib/payload/payload.go:74-121 | over any interleaving of acknowledgements, rollups and resends, the counts add up to the events newly acknowledged, and what is handed over is one unbroken stretch of the spool |
| Payloads.CompleteRunReleasesSpool | lc-lib/payload/payload.go:42-121 | a payload acknowledged and rolled up completely has handed over its spool, no more and no less |
| Publishing.Payload.Ack | lc-lib/payload/payload.go:74-92 | the object takes an acknowledgement as the payload of RunConserves does, in all three branches |
| Publishing.Payload.ResetSequence | lc-lib/payload/payload.go:98-101 | renumbers as the payload of RunConserves does |
| Publishing.Payload.Rollup | lc-lib/payload/payload.go:115-121 | rolls up as the payload of RunConserves does, and returns what that hands over |
| DeliverySteps.StepKeeps | lc-lib/publisher/publisher.go:161-212 | every step of the publisher that sends no payload again to an endpoint on which another is pending under its nonce keeps the invariant: the payload list is in order, every undelivered payload is in one place, nonces name what is pending, counters and history agree with the payloads, and the front holds nothing back |
| DeliveryClashes.ClearExactly | lc-lib/endpoint/endpoint.go:120-163 | a step keeps the invariant, and already the counts of pending payloads, if and only if it sends no payload again to an endpoint on which another is pending under its nonce |
| DeliveryClashes.ClashLoses | lc-lib/publisher/publisher.go:427-441 | the payload so replaced is unacknowledged, in part or in whole, or without events; it is pending nowhere and not to be sent again |
| DeliveryRuns.RunKeeps | lc-lib/publisher/publisher.go:140-158 | the invariant holds in every state of every run |
| DeliveryHistory.RegistrarSeesAckedPrefix | lc-lib/publisher/publisher.go:300-386 | in every state of every run in which no spool is empty, the events given to the registrar are exactly the longest fully acknowledged prefix of the events accepted |
| DeliveryRuns.ReleasedIsAckedPrefix | lc-lib/publisher/publisher.go:325-368 | with empty spools as well: they are the longest prefix of the accepted events that is acknowledged and does not go past an empty spool |
| DeliveryHistory.EmptySpoolBlocks | lc-lib/publisher/publisher.go:337-366 | once an empty spool is accepted, nothing behind it ever reaches the registrar, whatever is acknowledged, and its payload stays on the list for good |
| DeliveryLimits.EmptySpoolExample | lc-lib/publisher/publisher.go:337-344 | a run of five steps after which an event is acknowledged and never given to the registrar |
| DeliveryRuns.ReceivedIsConserved | lc-lib/publisher/publisher.go:172-187 | every event received is in one place, in order: given to the registrar, in a payload on the list, held, or given up at shutdown |
| DeliveryRuns.PayloadInOnePlace | lc-lib/publisher/publisher.go:285-297 | a payload is never in two places; until shutdown, one with unacknowledged events is on the resend list or pending on exactly one endpoint; one that has events, all acknowledged, is in neither place; Resending says which are on the list |
| DeliveryRuns.PendingIsListed | lc-lib/endpoint/endpoint.go:120-163 | what is pending on an endpoint is a payload on the list, under its own nonce, and numPayloads is how many there are |
| DeliveryRuns.InsertedIsOnNoList | lc-lib/internallist/list.go:96-107 | in every state of every run, whatever is about to be put on the ready, failed, resend or payload list is not on it, as the ring list demands |
| DeliveryHistory.RunExtends | lc-lib/publisher/publisher.go:161-212 | nothing accepted, acknowledged or given to the registrar is ever taken back |
| DeliveryHistory.EndpointLifecycle | lc-lib/endpoint/sink_status.go:20-97 | in every state of every run, an endpoint is on the ready list if and only if active and on the failed list if and only if failed; the endpoint picked for a payload is active; a transport is shut down at most once, when closing and with nothing pending |
| DeliveryHistory.ClosingIsNeverLeft | lc-lib/endpoint/sink_list.go:156-184 | an endpoint that is closing stays so until it finishes |
| DeliveryCounters.CountersCount | lc-lib/publisher/publisher.go:370-380 | numPayloads is the length of the payload list and never passes the limit that the run started with; lineCount counts every acknowledged event once, however often it was sent |
| DeliveryCounters.OutOfSyncDrift | lc-lib/publisher/publisher.go:335-368 | outOfSync moves against what it counts by one when a payload behind the front is first acknowledged for no event, and by one when the acknowledgement completes the front and the payloads behind it up to one acknowledged in part; otherwise it counts precisely; both cases are told from the state before the step |
| DeliveryCounters.OutOfSyncCounts | lc-lib/publisher/publisher.go:300-368 | in every run, outOfSync is the number of payloads behind the front that hold acknowledged events plus the number of such steps so far |
| DeliveryLimits.OutOfSyncExample | lc-lib/publisher/publisher.go:369-373 | a run after which outOfSync is one and no payload behind the front holds an acknowledged event |
| DeliveryClashes.NonceCollision | lc-lib/endpoint/endpoint.go:139-163 | queueing under a nonce keeps the count right and everything pending if and only if nothing was pending under it |
| DeliveryLimits.CollisionExample | lc-lib/endpoint/endpoint.go:120-163 | a run from the start: two spools go to two endpoints under the same nonce, each new on its own; the first endpoint fails; its payload, sent again, takes the other's place, and the other, unacknowledged, is pending nowhere and not to be sent again |
| Publishing.Publisher.Iterate | lc-lib/publisher/publisher.go:161-212 | an iteration on the objects is a step of the state machine, keeps the invariant, and leaves the registrar's spool as exactly the longest prefix that can be released |
| Publishing.Publisher.OnAck | lc-lib/publisher/publisher.go:304-386 | does to the objects what the function in Delivery does to their values, resend list, roll-up, counters and resumption included |
| Publishing.Publisher.Drain | lc-lib/publisher/publisher.go:335-368 | the loop goes on exactly as far as the front payloads are acknowledged, and returns how many left the list |
| Publishing.Publisher.TryQueueHeld | lc-lib/publisher/publisher.go:416-451 | sends the whole resend list, or else the held spool, and reads the channel again, if and only if there is something to send and an endpoint that is ready; returns whether anything was sent |
| Publishing.Publisher.SpoolArrives | lc-lib/publisher/publisher.go:172-187 | a spool is sent, or held with the channel no longer read |
| Publishing.Publisher.SendPayload | lc-lib/publisher/publisher.go:465-485 | the payload ends up pending on the preferred ready endpoint, and nowhere else |
| Publishing.Publisher.PullBackPending | lc-lib/publisher/publisher.go:285-297 | every payload goes onto the resend list, renumbered, and is sent again if it can be |
| Publishing.Publisher.Started | lc-lib/publisher/publisher.go:235-254 | a failed endpoint recovers to idle; any other becomes ready, and what is held is sent |
| Publishing.Publisher.EndpointFailed | lc-lib/publisher/publisher.go:274-281 | a failing endpoint loses its payloads to the resend list |
| Publishing.Publisher.EndpointFinished | lc-lib/publisher/publisher.go:259-271 | a finished endpoint is removed, its payloads are pulled back, and it is added again if the method says so |
| Publishing.Publisher.Shutdown | lc-lib/publisher/publisher.go:189-201 | every endpoint is closed and the held spool given up |
| Publishing.Endpoint.QueuePayload | lc-lib/endpoint/endpoint.go:120-163 | a payload without a nonce gets the first drawn that is not pending here; it is then pending under its nonce, and counted; only an active endpoint is ever asked |
| Publishing.Endpoint.ProcessAck | lc-lib/endpoint/endpoint.go:228-283 | the payload named takes the acknowledgement, and leaves the endpoint when that completes it; an unknown nonce changes nothing and yields no payload |
| Publishing.Endpoint.PullBackPending | lc-lib/endpoint/endpoint.go:309-330 | returns each pending payload once, in some order, and leaves the endpoint with none |
| Publishing.Endpoint.ShutdownTransport | lc-lib/endpoint/endpoint.go:103-110 | the transport of a closing endpoint is shut down |
| Publishing.Sink.QueuePayload | lc-lib/endpoint/sink_endpoint.go:33-75 | the preferred ready endpoint takes the payload; with none ready, nothing changes and no endpoint is returned |
| Publishing.Sink.Activate | lc-lib/endpoint/sink_status.go:20-35 | an idle endpoint goes onto the ready list; in any other status nothing happens |
| Publishing.Sink.MoveFailed | lc-lib/endpoint/sink_status.go:39-71 | an active endpoint goes from the ready list to the failed list, unless it has failed or is closing |
| Publishing.Sink.RecoverFailed | lc-lib/endpoint/sink_status.go:74-97 | a failed endpoint leaves the failed list and is idle |
| Publishing.Sink.Register | lc-lib/endpoint/sink_list.go:35-75 | a new endpoint is idle, with nothing pending |
| Publishing.Sink.RemoveEndpoint | lc-lib/endpoint/sink_list.go:123-152 | the endpoint leaves the map and the list it is on; a server that is not in the map changes nothing |
| Publishing.Sink.ShutdownEndpoint | lc-lib/endpoint/sink_list.go:156-184 | an endpoint leaves its list and is closing; its transport is shut down at once if nothing is pending |
| Publishing.Sink.Shutdown | lc-lib/endpoint/sink.go:80-84 | every endpoint is shut down, in some order |
| Publishing.Sink.FinishClosing | lc-lib/endpoint/sink_process.go:100-114 | a closing endpoint whose last payload is acknowledged has its transport shut down |
| Registrar.AckAllKeeps | lc-lib/registrar/event_ack.go:37-57 | acknowledgements neither add, remove nor rename entries, and leave each at the offset of its last event |
| Registrar.StoredOffset | lc-lib/registrar/event_ack.go:37-57 | after any batches that neither discover nor delete a known stream, its stored offset is that of its last acknowledged event |
| Registrar.StoredFrom | lc-lib/registrar/registrar.go:146-171 | after any batches at all, a stored offset is exactly one at which the stream was known or discovered, or that of an acknowledged event of it |
| Registrar.AcksKeepSources | lc-lib/registrar/event_renamed.go:35-46 | which streams are saved, and under which names, does not depend on the acknowledgements in between |
| Registrar.Registrar.ProcessAck | lc-lib/registrar/event_ack.go:37-57 | the loop leaves the state that AckAllKeeps describes |
| Registrar.Registrar.ProcessSpool | lc-lib/registrar/registrar.go:146-171 | applies a batch event by event: acknowledgements, discoveries, renames and deletions |
| Registrar.Registrar.ToCanonical | lc-lib/registrar/registrar.go:134-144 | every name maps to a state that has it, no name is left out, and a conflict is noticed if and only if two streams share a name |
| AtLeastOnce.NothingUnacknowledgedIsSkipped | README.md:50-51 | at-least-once for offsets that increase: in every state of every run, after any part of the batches, an event at or below its stream's stored offset is acknowledged and released, and the offset of every other one lies above the stored one; the stream may be known before or be discovered on the way |
| AtLeastOnce.NothingUnacknowledgedIsPassed | README.md:50-51 | the same where events share offsets, as those of a multiline codec may: an unacknowledged one lies above the stored offset, or at it when the stream was started there or an event with that offset was acknowledged |
| LineDelivery.FileIncreases | lc-lib/harvester/harvester.go:247-252 | the events that a harvester sends on with the plain codec have increasing offsets, whichever lines it gives up |
| LineDelivery.LineAfterRestart | lc-lib/harvester/harvester.go:482-513 | a restart from the end of a line that was recorded reads a line again if and only if it lies behind, that is, unless it or a later one was recorded |
| LineDelivery.LostForGood | lc-lib/harvester/harvester.go:407-480 | end to end, in every run: a line behind the offset stored is read again; one that was sent on and is not read again is acknowledged; one that was given up is not read again if and only if a later line of its file is recorded as acknowledged |
| LineDelivery.LostLineExample | lc-lib/harvester/harvester.go:466-477 | of two lines, the first is given up by a measurement while it waits and the second acknowledged: a restart reads nothing |
| Prospector.Prospector.constructor | lc-lib/prospector/prospector.go:84-106 | entry by entry, what was saved is in the index and with the registrar, under the same name and at the same offset, so that the two agree after a restart |
| Prospector.Prospector.RunOnce | lc-lib/prospector/prospector.go:137-200 | after an iteration the index holds exactly the names scanned, each leading to the file found there; a known file keeps its entry under any permutation of names; no two entries are one file; the registrar has the present name of every file it follows, and follows all in the index but those known and given up before; an entry not found stays while it is being read |
| Prospector.Prospector.ProcessFile | lc-lib/prospector/prospector.go:219-378 | a name that matched leads to the entry of the file that is there now, whether new, renamed, rotated in or unchanged, and no other name is touched but the one that file had |
| Prospector.Prospector.Find | lc-lib/prospector/prospector.go:427-455 | finds the entry with an identity under whatever name, tells whether this scan has seen it already, and finds none only if there is none but the one compared before |
| Prospector.Prospector.Create | lc-lib/prospector/prospector.go:291-309 | a new file is announced to the registrar at the offset it is then harvested from: its beginning or its end; or, when old and not rotated in, it is announced as read to its end and not harvested |
| Prospector.Prospector.Resume | lc-lib/prospector/prospector.go:347-375 | a harvester that has stopped is started again, where it stopped, if and only if it failed, the file was saved and is not old and read to its end, or it was modified since |
| Prospector.Prospector.Rename | lc-lib/prospector/prospector.go:285-290 | the entry is found under its new name only, and the registrar is told |
| Prospector.Prospector.CleanOne | lc-lib/prospector/prospector.go:153-172 | an entry not seen is given up; exactly then its deletion, not reported before, goes to the registrar; it is forgotten only when orphaned before and no longer read |
| Prospector.Prospector.AgreementLost | lc-lib/prospector/prospector.go:153-175 | the registrar follows every file in the index if and only if no file scanned was known and already given up |
| Prospector.ReturningFile | lc-lib/prospector/prospector.go:153-172 | a file found, then not found, then found again: it is in the index, and the registrar does not know it |
| Prospector.RunAndRegister | lc-lib/registrar/registrar.go:134-171 | with acknowledgements around the batch, what is written down names each file followed once, with its state, and never two alike |
| LineReader.SplitIsProper | lc-lib/harvester/linereader.go:80-127 | a stream is split into whole lines and pieces of exactly maxLine bytes, losing nothing, and what is left is neither |
| LineReader.SplitIsUnique | lc-lib/harvester/linereader.go:80-127 | there is only one such split |
| LineReader.SplitContinues | lc-lib/harvester/linereader.go:80-127 | splitting a longer stream goes on where the shorter one stopped |
| LineReader.LineReader.ReadSlice | lc-lib/harvester/linereader.go:80-127 | returns the next piece of the split, whatever the size of the buffer and of the reads, and wherever reads met the end of the file; if none is complete, nothing is lost |
| LineReader.LineReader.Fill | lc-lib/harvester/linereader.go:129-142 | what is read goes behind what was buffered |
| Harvester.Harvester.Readline | lc-lib/harvester/harvester.go:518-557 | a line loses its terminator, LF or CR LF, and nothing else; the bytes read are those of the piece |
| Harvester.Harvester.EventCallback | lc-lib/harvester/harvester.go:407-480 | the event is sent on, unless it cannot be encoded or, before the pipeline takes it, a stop comes or a measurement wants one; the tag for a split line is used up either way |
| Harvester.Harvester.PerformRead | lc-lib/harvester/harvester.go:233-288 | a line read moves the offset and is sent on or given up as its callback ends; when a measurement stops the loop first, the offset stays before the line; nothing else is lost |
| Harvester.Harvester.Harvest | lc-lib/harvester/harvester.go:182-230 | when harvesting stops, for any buffer, reads, measurements and stops, the lines read are the first of the file's split, and the offset reported is behind them; what was sent on is exactly them if and only if none was given up; undisturbed, the whole file is read |
| Harvester.EventsTile | lc-lib/harvester/harvester.go:247-252 | the events' offsets tile the file from where harvesting began |
| Harvester.EventHolds | lc-lib/harvester/harvester.go:518-540 | between its offsets the file holds an event's text and a terminator, which only a split line lacks |
| Harvester.ResumeAnywhere | lc-lib/harvester/harvester.go:482-515 | stopping behind any line and starting again at its offset yields exactly the events that were still to come |
| Multiline.GroupsCover | lc-lib/codecs/multiline.go:147-214 | every line goes into one group, in order, and no group is empty |
| Multiline.ChunksCover | lc-lib/codecs/multiline.go:170-202 | the pieces of a text make it up; all have the maximum length but the last, which is shorter and may be empty |
| Multiline.Run | lc-lib/codecs/multiline.go:147-231 | over a whole run, deadlines included, what is sent on, with what is buffered, is for each group the pieces of its joined lines; the intervals sent on are in order and do not overlap; and all of it is made of the lines read |
| Multiline.Multiline.Event | lc-lib/codecs/multiline.go:147-214 | a line joins or closes a group as its match says; the cutting loop ends and never cuts at a negative place |
| Multiline.Multiline.Deadline | lc-lib/codecs/multiline.go:247-277 | a deadline is one more boundary between groups |
| Multiline.Multiline.Flush | lc-lib/codecs/multiline.go:217-231 | what is buffered is sent on as one text, from where it starts to where it ends, which Teardown then reports |
| Multiline.Multiline.OffsetsDoNotDecrease | lc-lib/codecs/multiline.go:217-231 | the offsets sent on do not decrease, and two are the same only if the later event takes up nothing of the file |
| Multiline.Multiline.RestartFromEvent | lc-lib/codecs/multiline.go:170-202 | a restart from an event's offset reads exactly the text not sent on by then if and only if the event stopped at the end of a line's text or that line had no terminator; otherwise as many bytes are missing as the terminator has, or as were left |
| Multiline.Multiline.RestartAfterTeardown | lc-lib/codecs/multiline.go:126-134 | a restart from what Teardown reports reads exactly the text still buffered, under the same condition |
| Multiline.CutExample | lc-lib/codecs/multiline.go:170-202 | with a maximum of 4 and the line "abcdef", "abcd" is sent on with offset 5, and a restart there reads "f": "e" is lost |
| MultilineTrace.RestartFrom | lc-lib/codecs/multiline.go:181-190 | for any lines and any events made of them, the same law on values |
| RingList.List.Insert | lc-lib/internallist/list.go:96-107 | an element that is on no list goes where it should, all links hold, and the rest keeps its order |
| RingList.List.Unlink | lc-lib/internallist/list.go:109-118 | the element leaves, all links hold, and it is on no list |
| RingList.List.Remove | lc-lib/internallist/list.go:120-129 | takes the element off, and does nothing to one of another list |
| RingList.List.PushFront | lc-lib/internallist/list.go:131-135 | also on a list never used before |
| RingList.List.PushBack | lc-lib/internallist/list.go:137-141 | also on a list never used before |
| RingList.List.InsertBefore | lc-lib/internallist/list.go:143-151 | before the mark, or nothing when the mark is not on this list |
| RingList.List.InsertAfter | lc-lib/internallist/list.go:153-161 | behind the mark, or nothing when the mark is not on this list |
| RingList.List.MoveToFront | lc-lib/internallist/list.go:163-171 | to the front, the others in order; nothing for an element of another list |
| RingList.List.MoveToBack | lc-lib/internallist/list.go:173-181 | to the back, likewise |
| RingList.List.MoveBefore | lc-lib/internallist/list.go:183-190 | before the mark, unless one of the two is not on this list or they are the same |
| RingList.List.MoveAfter | lc-lib/internallist/list.go:192-199 | behind the mark, likewise |
| RingList.ListsApart | lc-lib/internallist/list.go:52-55 | two lists share no element, so that what is done to one leaves the other alone |
| RingList.List.Traverse | lc-lib/internallist/list.go:37-50 | going from the front by Next meets the elements in order, and ends |
| RingList.Transfer | lc-lib/internallist/list.go:120-141 | an element taken off one list and put at the back of another: both lists stay what they should be |
| TimeoutList.Sink.RegisterTimeout | lc-lib/endpoint/sink_timeout.go:61-85 | a timeout, new or registered again, goes behind exactly those due no later; the list stays sorted with ties in order of registration, holds none twice, and each on it has a callback; the timer is set for the first |
| TimeoutList.Sink.ClearTimeout | lc-lib/endpoint/sink_timeout.go:88-95 | the timeout is off the list, and the others keep their order |
| TimeoutList.Sink.ProcessTimeouts | lc-lib/endpoint/sink_timeout.go:98-119 | for callbacks that register and clear what they like, the list stays valid and the timer is set; with callbacks that do nothing, the timeouts fired are the first and then exactly the leading ones due |
| Spooler.Run | lc-lib/spooler/spooler.go:68-159 | over a whole run, all batches with the spool are the events in order; every batch is within the limits, or has two events when the spool size is below two; with a fixed configuration none is empty and all are sent |
| Spooler.Spooler.Step | lc-lib/spooler/spooler.go:68-141 | which batches an input has sent, what is left, and when the loop ends |
| Spooler.Spooler.SendSpool | lc-lib/spooler/spooler.go:144-159 | what becomes of a batch while configurations arrive and the publisher does not take it |
| Spooler.FateDiscards | lc-lib/spooler/spooler.go:144-159 | a batch is discarded if and only if, before the publisher takes it, a configuration arrives under which it is neither overdue nor full |
| Spooler.DiscardExample | lc-lib/spooler/spooler.go:144-156 | one event is spooled and, while the publisher is waited for, the same configuration arrives again: the batch is discarded |
| Spooler.Spooler.EmptyBatches | lc-lib/spooler/spooler.go:173-189 | an empty batch is sent only for a new configuration that finds nothing spooled, and the timeout passed or a spool size of zero; and then it is, if the publisher takes it |
| JsonComments.StripComments | lc-lib/config/json.go:56-131 | the loop over the bytes computes what the automaton of the theorems below does |
| JsonComments.StripRemovesComments | lc-lib/config/json.go:56-131 | a file of body text, strings and closed comments loses exactly its comments; markers inside strings stay |
| JsonComments.StripAnything | lc-lib/config/json.go:56-131 | any file is such text with an unfinished piece behind it; that piece comes out although it is a comment if and only if the file ends inside a comment; body text comes out twice if and only if, besides, there is some between that comment and the one before, or the beginning |
| JsonComments.OpenCommentExample | lc-lib/config/json.go:130 | `#x` comes out as it is, and `{}#x` as `{}{}#x` |

## Findings

Where the code does not do what it is for. Each has the exact condition and a lemma at a concrete case.

| what happens | condition | member |
|---|---|---|
| A line is lost for good although later ones are delivered (lc-lib/harvester/harvester.go:461-478) | if and only if its callback gave it up (for a stop, for a measurement that wants one while the pipeline is blocked, or because it could not be encoded), and a later line of its file is recorded as acknowledged | LineDelivery.LostForGood, Harvester.Harvester.Harvest, LineDelivery.LostLineExample |
| Events are acknowledged and never reach the registrar, and the publisher fills up (lc-lib/publisher/publisher.go:337-344) | exactly those behind an accepted empty spool; the spooler sends one for a new configuration that finds nothing spooled, and the timeout passed or a spool size of zero | DeliveryRuns.ReleasedIsAckedPrefix, DeliveryHistory.EmptySpoolBlocks, DeliveryLimits.EmptySpoolExample, Spooler.Spooler.EmptyBatches |
| A restart skips bytes of a line that the multiline codec cut (lc-lib/codecs/multiline.go:181) | if and only if the last event stopped inside a line's text, and that line has a terminator; as many bytes as it has, or as were left | Multiline.Multiline.RestartFromEvent, Multiline.Multiline.RestartAfterTeardown, Multiline.CutExample |
| A file that comes back is read, but its offset is not recorded (lc-lib/prospector/prospector.go:153-172) | if and only if its entry was still known, and its deletion already reported | Prospector.Prospector.AgreementLost, Prospector.ReturningFile |
| An unterminated comment comes out (lc-lib/config/json.go:130) | if and only if the file ends inside a comment | JsonComments.StripAnything, JsonComments.OpenCommentExample |
| Body text comes out twice (lc-lib/config/json.go:130) | if and only if the file ends inside a comment and there is body text between it and the comment before, or the beginning of the file | JsonComments.StripAnything, JsonComments.OpenCommentExample |
| A spool is forgotten, and with it its events (lc-lib/spooler/spooler.go:144-156) | if and only if, while the publisher is waited for, a configuration arrives under which it is neither overdue nor full | Spooler.FateDiscards, Spooler.DiscardExample |
| outOfSync says more than there is (lc-lib/publisher/publisher.go:335-368) | by exactly the number of steps in which a payload behind the front is first acknowledged for no event, or the front is completed and moves on to a payload acknowledged in part | DeliveryCounters.OutOfSyncCounts, DeliveryLimits.OutOfSyncExample |
| A payload is lost from sight (lc-lib/endpoint/endpoint.go:120-163) | if and only if another is sent again, under the same nonce, to the endpoint it is pending on; a nonce newly drawn never meets one pending there | DeliveryClashes.ClearExactly, DeliveryClashes.ClashLoses, DeliveryLimits.CollisionExample |

Where code and documentation differ, the model follows the code. docs/Protocol.md:126-132 wants a number out of
range treated as the number of events, and a lower one than before ignored; the code does so until the payload is
complete, and then compares with the number received rather than the number of events (Payloads.AckOfCompletePayload),
which no run brings about (DeliveryCounters.PendingAckCounts).
A block comment is closed by a slash behind an odd number of stars, so that `/* **/` is still open
(lc-lib/config/json.go:119-126).

## Left out

- Publishing.Publisher.SendPayload: a transport that refuses a payload; writing always succeeds. On an error the code keeps the payload and holds the spool as well (lc-lib/publisher/publisher.go:178-186).
- Publishing.Sink.QueuePayload: how long deliveries are expected to take; which ready endpoint is preferred is an argument (lc-lib/endpoint/sink_endpoint.go:46-72).
- Publishing.Publisher.Iterate: steps that DeliveryClashes.ClearExactly shows to break the invariant are excluded by a precondition; drawing a nonce ends, as some draw is free.
- Publishing.Publisher.OnAck: the timeouts it registers; a timeout may come at any time as a step of its own. So may the end of a backoff.
- Publishing.Publisher.ForceFailure: nothing is pulled back at that point, as in the code, so that progress after a timeout is not claimed.
- Publishing.Publisher.Shutdown: reconnecting, measurements, keepalives and pings, and shutting down only once everything is acknowledged.
- Publishing.Sink.Register: the order of endpoints, and the failover method that changes it (lc-lib/endpoint/sink_list.go:80-119).
- Publishing.Publisher.RemoveEndpoint: reloading the configuration of the sink (lc-lib/endpoint/sink.go:64-77).
- RingList.List: the program's lists are rings everywhere; Publishing and TimeoutList keep sequences in their place. That what is inserted is on no list is DeliveryRuns.InsertedIsOnNoList.
- RingList.List.MoveBefore: Go does not say whether mark.prev is read before the element is removed; the model reads it afterwards, as the call order suggests.
- RingList.List.Remove: the value an element carries.
- Registrar.Registrar.ProcessSpool: writing the file, and file states that share memory with the program's other parts; a file state is a value here.
- Prospector.Prospector.ProcessFile: files that cannot be examined, the stubs kept for them, and two paths of one scan that lead to the same file (lc-lib/prospector/prospector.go:219-280, 382-397).
- Prospector.Prospector.constructor: two saved names with the same identity are excluded, as no scan produces them.
- Prospector.Prospector.RunOnce: the iteration number does not wrap around; when harvesters stop is an argument.
- Harvester.Harvester.Harvest: truncation, where LineReader.Reset keeps the overflow (lc-lib/harvester/linereader.go:65-68), speeds and stale bytes, the clock that says when a measurement is due and when a file is dead (what it finds is an argument), and chains of codecs, of which Teardown reports the first offset only.
- LineReader.LineReader.ReadSlice: that the slice returned shares memory with the buffer; it is a value here. The same goes for the overflow.
- Harvester.Harvester.EventCallback: the fields added to an event; whether it can be encoded is an argument.
- LineDelivery.LostForGood: lines that a multiline codec joins; there the loss is that of the event given up.
- Multiline.Multiline.Event: matching itself, which comes with the line; a maximum that is not positive; Reset.
- Multiline.Run: deadlines in "next" mode, where Event takes no lock (lc-lib/codecs/multiline.go:158-166).
- JsonComments.StripComments: reading the file, and parsing what is left of it.
- Network, TLS, compression, name resolution, the administration interface, the command line, and file identities of operating systems: input and output only.
