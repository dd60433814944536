# Almanac, verified

A Dafny model of Almanac: a service that takes events from sources over HTTP, acknowledges
them only once they are in an append-only journal, and delivers them to Google calendars by
looking an event's key up and then creating or updating it. The project proves what the
service promises about its durable parts: what is never lost, what is never there twice, what
a restart or a compaction cannot change, and exactly where the code keeps less than its
comments say.

`dafny verify dfyconfig.toml` checks everything.

| file | what it holds |
|---|---|
| `Json.dfy`, `Utf8.dfy`, `Text.dfy` | printing and parsing of JSON values (RFC 8259), strict UTF-8, trimming |
| `Records.dfy`, `Compaction.dfy` | journal records, what a log means, what compaction may not change |
| `RecordFile.dfy`, `Journal.dfy`, `Cap.dfy` | the bytes of the journal, torn writes, the `Journal` object, the size cap |
| `Profile.dfy`, `Profiles.dfy`, `Request.dfy`, `Fields.dfy`, `Door.dfy`, `Ingest.dfy` | profiles, the profiles directory, mapping a request to an event, where each part of a request is read from, the guards, the handlers |
| `Remote.dfy`, `Delivery.dfy` | the calendars as an atomic store, the retry loop, delivery and deletion under a key |
| `Worker.dfy`, `Landings.dfy`, `Passes.dfy`, `LastWriter.dfy`, `Pacing.dfy`, `Ticks.dfy` | a pass of the worker, what it writes to the journal and to the calendars, whole runs of passes, the pacing between them, runs of the loop |
| `Protocol.dfy`, `Refinement.dfy` | the whole service as interleaved steps with power cuts, and the sequential parts as runs of it |
| `Samples.dfy`, `Runs.dfy`, `Incidents.dfy` | small concrete runs into what the promises exclude |
| `TokenStore.dfy`, `StoreLocks.dfy` | the token store, and its two locks under every interleaving |
| `Calendars.dfy` | the dashboard's calendars over a list that lags |

The outside world enters as parameters. A write to the disk is `Sound`, `Refused` or `Cut(n)`;
a request to Google takes effect or not and is answered or not, independently; the date
library is a record of functions over integer instants and days; a TOML file is the record the
TOML library makes of it; sealing is a pair of functions of which opening inverts sealing.
Methods are proved against functions over values, and the theorems are about those functions.

## Where the code and its comments differ

The model follows the code. In each case a theorem says exactly when the comment's promise
holds, and a run, or a step from any orderly state, shows it failing.

- The journal's comments treat a torn last line as harmless. Reading does skip it, but the
  next append is glued to it, and then the whole journal can no longer be read
  (`RecordFile.AppendIsReadable`, `Protocol.TornTailLoses`,
  `Incidents.TornTailHidesAccepted`). Only a compaction in between mends it
  (`Protocol.CompactionMends`). A line torn inside a character already makes the file
  unreadable (`RecordFile.TornWriteReads`).
- A create whose reply is lost is sent again without a new lookup, so one delivery can leave
  two events (`Remote.CreateUniqueExactlyWhen`, `Protocol.ResendDuplicates`,
  `Incidents.ResentCreateDuplicates`).
- The failure counter is called the number of consecutive permanent failures. A success whose
  marker could not be written, or a pass without a profile, does not reset it; only a
  transient failure does. `Passes.CounterIsConsecutiveExactlyWhen` says when the two agree,
  `Runs.UnmarkedSuccessStillCounts` shows an entry set aside after such a success.
- The latest accepted entry of a key does not always win. A pass leaves the last entry whose
  delivery got through (`LastWriter.PassWritesLastSent`, `LastWriter.LatestWinsExactlyWhen`),
  so an older entry can be written over a newer one after a passing failure
  (`Runs.OlderCanWin`) or after a synchronous delivery (`Runs.WorkerOvertakesSync`).
- When no marker fits under the cap, nothing is marked any more
  (`Landings.FullJournalIsStuck`), and a compaction helps only if there is something to drop
  (`Cap.CompactionFreesRoomExactlyWhen`). One long entry is enough
  (`Landings.OneEntryFillsTheCap`).
- The memory of a deleted calendar is dropped as soon as the list lacks it, also when the list
  has not shown it yet (`Calendars.TombstoneDroppedTooEarly`). A creation is silently skipped
  while the list still shows a deleted calendar of that name (`Calendars.CreateServesName`),
  and a failed share or a restart lets a second calendar be made
  (`Calendars.FailedShareDuplicates`, `Calendars.RestartDuplicates`).
- A change of the token store that is cancelled while it waits for the second lock stays in
  memory without being written until the next change is: the `stale` flag of
  `StoreLocks.NoLostUpdate`, reached in `StoreLocks.CancelledIssueIsUnwritten`.
- Revoking is said to answer whether there was a token. If its write fails and it is asked for
  again, memory no longer has one, so the answer is no and nothing is written, while the file
  still has it (`TokenStore.RevokedExactlyWhen`, `TokenStore.RetriedRevokeComesBack`).

## Model

| member | source | states |
|---|---|---|
| `Protocol.NothingAcknowledgedIsLost` | src/shell/journal.rs:52-140 | Over every interleaving of accepts, deliveries, deletions, marks, compactions and power cuts: the journal can be read, every acknowledged entry is pending, set aside with a reason, or was written to its calendar and its Done marker came into the journal, and no settled id is pending again; provided nothing is appended to a torn tail and no write is cut inside a character |
| `Protocol.TornTailLoses` | src/shell/journal.rs:91-115 | The proviso is exact: an acknowledged acceptance leaves a readable journal if and only if the file ended with a line feed |
| `Incidents.TornTailHidesAccepted` | src/shell/journal.rs:91-115 | From a first start: a line cut at any byte, a power cut, and an acknowledged acceptance end with an unreadable journal if and only if the cut lay after the first byte and before the line feed |
| `Protocol.CompactionMends` | src/shell/journal.rs:222-286 | A compaction restores the proviso: what it leaves ends with a line feed |
| `Protocol.AtMostOneEventPerKey` | src/shell/delivery.rs:31-53 | In every state a run can reach, with any number of tasks and power cuts, no calendar holds two events under one key, unless a create that took effect unheard is sent again |
| `Protocol.OneEventPerKey` | src/shell/delivery.rs:115-152 | The inductive form: locks exclusive, what a lock holder has looked up still true, ids fresh, keys unique, kept by every step |
| `Protocol.ResendDuplicates` | src/shell/calendar_client.rs:119-174 | Exactly when a request breaks uniqueness: it creates under a key that already has an event |
| `Incidents.ResentCreateDuplicates` | src/shell/calendar_client.rs:119-174 | From a first start: a delivery whose lost reply is sent again ends answered, with two events under its key; SampleDuplicates gives the entry and the calendars |
| `Protocol.AnsweredIsThere` | src/shell/delivery.rs:94-153 | When a delivery is answered, exactly one event carries its key and holds its content, under the id that was found if one was |
| `Protocol.AnsweredRemovalLeavesNone` | src/shell/ingest.rs:592-663 | When a deletion is answered, no event carries its key: no interleaved delivery left a copy |
| `Refinement.UninterruptedDelivery` | src/shell/delivery.rs:94-153 | A delivery nobody interleaves with, mappable or not, keyed or not, has exactly the effect, the result and the event id of the sequential delivery, for every behaviour of the network |
| `Refinement.UninterruptedRemoval` | src/shell/ingest.rs:592-663 | A deletion nobody interleaves with has exactly the effect of the sequential deletion |
| `Refinement.PassIsARun` | src/shell/worker.rs:103-231 | A whole pass of the worker, whatever the network and the disk do to each entry, is a run of the interleaved service with the same file and calendars at the end |
| `Protocol.KeptByCompaction` | src/shell/journal.rs:222-286 | What keeps acknowledged entries safe survives a compaction: it drops only entries that reached their calendar and whose Done marker came into the journal |
| `Compaction.PendingSurvivesCompaction` | src/shell/journal.rs:222-253 | Whatever is appended later, the same entries are pending in the same order after a compaction as without it, if later entries reuse no marked id |
| `Compaction.DeadSurvivesCompaction` | src/core/journal.rs:60-78 | The set-aside entries with their reasons agree as multisets if and only if nothing appended later sets aside an entry already delivered and dropped |
| `Compaction.CompactionIsIdempotent` | src/shell/journal.rs:222-253 | With nothing appended both readings are equal as sequences, and a second compaction changes nothing |
| `Compaction.CompactedIsPart` | src/shell/journal.rs:226-243 | The compacted log repeats no record and invents none |
| `Compaction.WaitingAndSetAside` | src/core/journal.rs:60-78 | An accepted entry waits if and only if no marker names it, and is set aside with a reason and moment if and only if they are those of the last dead marker of its id |
| `Records.RecordRoundTrip` | src/core/journal.rs:35-57 | Parsing a printed record gives it back |
| `Records.PrintedForm` | src/core/journal.rs:35-57 | The literal form of a line: one object whose kind entry, done or dead comes first, then its fields in order, each under its name, and no field for a missing idempotency key |
| `Records.PrintIsOneLine` | src/core/journal.rs:35-57 | No printed record contains a raw line break or other control character |
| `Records.JoinedParses` | src/shell/journal.rs:174-202 | A line made of pieces of printed records is a record only if it is one whole printed record |
| `Json.ParseUndoesPrint` | src/shell/journal.rs:55-60 | Parsing a printed JSON document gives it back (RFC 8259) |
| `Json.EscapesAreShort` | src/shell/journal.rs:55-60 | Each character is escaped as briefly as it can be (section 7 of RFC 8259), which with the round trip fixes the text |
| `Json.CutObjectIsNoDocument` | src/shell/journal.rs:151-157 | A printed object cut anywhere inside is no document, even with further pieces of records run on behind the cut |
| `Utf8.RoundTrip` | src/shell/journal.rs:159-160 | Strict UTF-8 decoding undoes encoding |
| `Utf8.CutText` | src/shell/journal.rs:159-160 | A cut of encoded text decodes exactly when it falls between characters, to the characters before it |
| `RecordFile.ShapeReads` | src/shell/journal.rs:158-205 | Reading a file of whole records and torn pieces gives the records, and the last piece only if nothing but its line feed is missing |
| `RecordFile.TornWriteReads` | src/shell/journal.rs:158-205 | The exact reading of a file after any prefix of one more line |
| `RecordFile.WriteLands` | src/shell/journal.rs:91-112 | The exact effect of a write of any length on any readable file: it keeps a readable shape, or the file can no longer be read |
| `RecordFile.AppendIsReadable` | src/shell/journal.rs:91-104 | An appended record can be read back if and only if the file ended with a line feed |
| `RecordFile.BadLineStays` | src/shell/journal.rs:178-200 | A terminated line that cannot be read is an error whatever is appended, never a skip |
| `RecordFile.DamageStays` | src/shell/journal.rs:158-205 | A file that cannot be read stays so under every append |
| `Journal.LinesRead` | src/shell/journal.rs:170-204 | The line-by-line loop reads what the specification of reading says |
| `Journal.FileReadExactly` | src/shell/journal.rs:158-205 | Reading succeeds if and only if the file is UTF-8 and no line but an unfinished last one is neither blank nor a record; it then gives every record in order, and otherwise the number of the first bad line |
| `Journal.Journal.Append` | src/shell/journal.rs:55-115 | The new bytes and the answer, for every outcome of the disk; refused over the cap |
| `Journal.Journal.Accept` | src/shell/journal.rs:119-121 | Appends the entry; acknowledged only when synced |
| `Journal.Journal.MarkDone` | src/shell/journal.rs:124-126 | Appends the marker; acknowledged only when synced |
| `Journal.Journal.MarkDead` | src/shell/journal.rs:133-140 | Appends the marker with its reason; acknowledged only when synced |
| `Journal.Journal.ReadRecords` | src/shell/journal.rs:158-205 | Returns exactly the specified reading of the bytes, or its error with its line number |
| `Journal.Journal.PendingEntries` | src/shell/journal.rs:209-215 | The unmarked entries in acceptance order, or the reading error |
| `Journal.Journal.DeadEntries` | src/shell/journal.rs:143-149 | The set-aside entries with their last reasons, or the reading error |
| `Journal.Journal.Compact` | src/shell/journal.rs:222-286 | Replaces the file by the printed compacted log, or leaves every byte |
| `Cap.NeverOverCap` | src/shell/journal.rs:76-89 | For any run of writes, cut or not, and compactions, with entry ids used once, the file never exceeds the cap |
| `Cap.CompactionIsSmaller` | src/shell/journal.rs:245-253 | The compacted log prints no longer than the log it was read from |
| `Landings.FullJournalIsStuck` | src/shell/journal.rs:76-89 | A pass in which everything is delivered and every accepted write is synced marks nothing if and only if no Done line of a pending entry fits under the cap |
| `Landings.PassLeavesFileExactlyWhen` | src/shell/journal.rs:76-104 | Any pass leaves the file as it is if and only if nothing of any marker it sets out to write can land |
| `Landings.OneEntryFillsTheCap` | src/shell/journal.rs:76-89 | One entry as long as the cap is accepted, and then no pass and no compaction changes a byte any more |
| `Cap.CompactionFreesRoomExactlyWhen` | src/shell/journal.rs:222-253 | A compaction frees room if and only if the log holds a delivered entry, a Done marker, an outdated reason, a marker without its entry, or a record twice |
| `Remote.CreateUniqueExactlyWhen` | src/shell/calendar_client.rs:119-174 | Creating an absent key keeps events unique if and only if at most one attempt of the retry loop takes effect |
| `Remote.CreateLoopAdds` | src/shell/calendar_client.rs:119-174 | The retry loop adds as many events under the key as attempts took effect, and touches no other key |
| `Remote.CreateLoopExactly` | src/shell/calendar_client.rs:119-174 | The loop appends one copy with a new id for each attempt that takes effect, touches no other calendar, and answers with what the attempt it stops at says, or with a transient failure if all were to be sent again |
| `Remote.EffectsUpToTheStop` | src/shell/calendar_client.rs:119-174 | The attempts that take effect are counted up to the first that is answered, and no further |
| `Delivery.KeyLocks.ForKey` | src/shell/delivery.rs:49-52 | The same lock for the same key every time, a new one for a new key, and never one lock for two keys |
| `Delivery.CalendarClient.CreateEvent` | src/shell/calendar_client.rs:184-194 | The retry loop's effect and result, for every sequence of attempts |
| `Delivery.CalendarClient.FindEventByProperty` | src/shell/calendar_client.rs:237-278 | The id found belongs to the first event in list order that carries the marker; none is found exactly if no event carries it |
| `Delivery.CalendarClient.UpdateEvent` | src/shell/calendar_client.rs:210-221 | Position by position: the events of that id get the new content, every other event and calendar stays, and after a request without effect everything does |
| `Delivery.CalendarClient.DeleteEvent` | src/shell/calendar_client.rs:223-232 | Afterwards exactly the events of other ids are left, every other calendar stays, and after a request without effect everything does |
| `Delivery.Deliver` | src/shell/delivery.rs:94-153 | The calendars and the result are those of the specified delivery, for every behaviour of the network; what that delivery leaves and answers is DeliveredAsAsked, DeliveryAnswers, DeliveryKeepsTheRest and UnkeyedIsAppended |
| `Delivery.DeleteBySource` | src/shell/ingest.rs:592-663 | The calendars and the reply are those of the specified deletion; what it answers and removes is DeletionAnswers and DeletionRemoves |
| `Delivery.DeletionAnswers` | src/shell/ingest.rs:603-663 | Deleted, with the id of the first event in list order that carries the key, if and only if both requests were answered and one carries it; not found if and only if the lookup was answered and none does, with every calendar as it was; otherwise the failure of the request that failed |
| `Delivery.DeletionRemoves` | src/shell/ingest.rs:603-663 | If keys are unique: unless a request had no effect exactly the event under the key is gone, every other event of every calendar stays, and after deleted or not found nothing carries the key |
| `Delivery.EventCarriesKey` | src/shell/delivery.rs:79-113 | The event written carries exactly the key it is looked up by |
| `Delivery.WrittenAsAsked` | src/shell/delivery.rs:101-113 | The event written shows what the request asks for, is keyed by its external id or else by the idempotency key under the source, and has that key as its only property |
| `Delivery.DeliveredAsAsked` | src/shell/delivery.rs:101-152 | After an answered keyed delivery the one event under the key equals the mapped payload in every field but its properties, its only property is the key, and it shows what the request asks for |
| `Delivery.DeliveryAnswers` | src/shell/delivery.rs:101-152 | A delivery succeeds if and only if the payload maps and every request it makes is answered; it reports created if and only if nothing carried the key; otherwise the failure is that of the first request that failed, and permanent for a payload that does not map |
| `Delivery.DeliveryKeepsTheRest` | src/shell/delivery.rs:94-153 | Every event on another calendar or not under the key, such as those people made, is there afterwards if and only if it was before, whatever the network does |
| `Delivery.UnkeyedIsAppended` | src/shell/delivery.rs:117-127 | Without a key every attempt that takes effect appends the mapped event under a new id; nothing else changes on any calendar, and the answer is created with the last id |
| `Delivery.DeliveryUpserts` | src/shell/delivery.rs:115-152 | After an answered delivery exactly one event carries the key, with this content; it was created only if none was there, and otherwise kept its id; events stay unique in any case |
| `Delivery.DeliveryTouchesOnlyItsKey` | src/shell/delivery.rs:94-153 | No delivery changes any other calendar or key, whatever the network does |
| `Delivery.DeliveryKeepsUnique` | src/shell/delivery.rs:94-153 | Uniqueness survives every delivery, with or without a key, whatever fails |
| `Delivery.RedeliveryConverges` | src/shell/delivery.rs:91-94 | Delivering the same entry again leaves the calendars exactly as they are, and answers with the same event |
| `Delivery.SourcesCannotCollide` | src/shell/ingest.rs:584-602 | No delivery and no deletion of one source changes an event keyed under another, on any calendar |
| `Delivery.KeyNamesTheSource` | src/shell/delivery.rs:79-89 | Every key of an entry's delivery is the source's own prefix with some id |
| `Worker.DrainOnceTracking` | src/shell/worker.rs:103-231 | Journal, calendars, counters and outcome are those of the specified pass; delivered counts the deliveries, failed the rest |
| `Worker.VisitEntry` | src/shell/worker.rs:131-226 | One entry of a pass: deliver, then mark, count, or set aside at the third permanent failure |
| `Worker.Loop.Tick` | src/shell/worker.rs:266-322 | A tick is one pass, then one compaction once 100 deliveries have passed since the last; its wait and reports, and the pacing state, are those of the pacing machine on what the pass showed; and what it keeps is what the runs of Ticks are made of |
| `Ticks.CompactionIsTriedExactlyWhen` | src/shell/worker.rs:311-322 | Over any run of ticks: a compaction is tried in a tick if and only if the deliveries since the last one, with this tick's, have reached 100; before the first the replay counts too |
| `Ticks.CompactsAtTheHundredth` | src/shell/worker.rs:311-322 | While every try would succeed, the next compaction is in the tick that brings the count to 100, and in no other |
| `Ticks.LoopCountsSo` | src/shell/worker.rs:259-322 | The loop's ticks are such a run, whatever happens to the journal and the calendars between them: it counts, tries to compact and compacts in exactly those ticks |
| `Ticks.BacklogIsReportedExactlyWhen` | src/shell/worker.rs:269-308 | Over any run of ticks: a backlog is reported in the first tick of an outage whose pass leaves the journal at half its cap or more, and in no other; the next wait is the ladder at the length of the outage so far, or 5 seconds |
| `Landings.PassAccounting` | src/shell/worker.rs:103-231 | For any network and disk and any readable journal: each pending entry is attempted once, in acceptance order; the file grows by exactly what landed of the markers; it stays readable if and only if no landing was cut inside a character and no whole line came after a torn one; and on a file that ended cleanly pending is then the starting sequence without exactly the entries whose marker can be read |
| `Landings.EachOnceInOrder` | src/shell/worker.rs:103-147 | Each pending entry is attempted once, in acceptance order, whatever fails |
| `Passes.WholePassAccounting` | src/shell/worker.rs:103-231 | If every write is synced or refused as a whole, pending is afterwards the starting sequence without exactly the entries whose marker was acknowledged |
| `Passes.CountersOverAnyRun` | src/shell/worker.rs:95-99 | Over any run of passes, acceptances, compactions and restarts every counter equals the permanent failures since the last transient one, and an entry is set aside only at a third or later |
| `Passes.CounterIsConsecutiveExactlyWhen` | src/shell/worker.rs:95-99 | The counter is the number of consecutive permanent failures if and only if no success left unmarked and no pass without a profile stands after a failure still counted |
| `Runs.UnmarkedSuccessStillCounts` | src/shell/worker.rs:147-172 | A run in which they differ: two failures, a delivery whose marker is refused, and one more failure set the entry aside |
| `Passes.SetAsideMeansThree` | src/shell/worker.rs:166-225 | Two earlier permanent failures of a set-aside entry exist, with no transient failure of it from the first of them on |
| `Passes.UntrackedNeverSetsAside` | src/shell/worker.rs:84-99 | A pass with counters of its own, as at startup and shutdown, sets nothing aside |
| `Passes.HealthyPass` | src/shell/worker.rs:131-226 | After a pass without outside trouble what is left was pending before and has one more counted failure, still below three |
| `Passes.PotentialFalls` | src/shell/worker.rs:166-225 | The sum of the failures still allowed falls by at least one per pending entry |
| `Passes.QueueDrains` | src/shell/worker.rs:31-31 | Three passes without outside trouble and without new entries leave nothing pending |
| `LastWriter.LastWriterWins` | src/shell/worker.rs:131-165 | A pass in which every delivery gets through leaves, under each calendar and key, exactly one event with the mapping of the last pending entry for it and the id it had; other keys are untouched |
| `LastWriter.PassWritesLastSent` | src/shell/worker.rs:131-225 | Whatever fails in a pass, if no request takes effect unheard: under each calendar and key stands the mapping of the last entry for it whose delivery got through, with the id it had, and nothing changes if there is none |
| `LastWriter.LatestWinsExactlyWhen` | src/shell/worker.rs:131-225 | The latest accepted entry of a key stands after a pass if and only if its delivery got through, or what stands there instead has the same content |
| `Runs.OlderCanWin` | src/shell/worker.rs:164-172 | Two entries, two passes: the older one fails for a moment, and is then written over the newer one |
| `Runs.WorkerOvertakesSync` | src/shell/ingest.rs:541-570 | Without any failure: the worker writes an older pending entry over a newer one delivered synchronously |
| `LastWriter.ReplayConverges` | src/shell/delivery.rs:91-94 | Replaying such a pass leaves the same events with the same ids under every key |
| `Pacing.Worker.After` | src/core/pacing.rs:60-95 | State and answer are those of one step of the pacing machine |
| `Pacing.AnswersOverAnyTrace` | src/core/pacing.rs:43-95 | At any point of any trace: the wait is the ladder at the number of stalled passes just before, or 5; recovery is reported on the first good pass after a stalled one; a backlog at the first filling pass of an outage and no other |
| `Pacing.OneReportPerOutage` | src/core/pacing.rs:37-48 | An outage that contains a filling pass reports its backlog exactly once |
| `Ingest.IngestEvent` | src/shell/ingest.rs:463-501 | File and answer of the asynchronous handler, error paths included |
| `Ingest.IngestSync` | src/shell/ingest.rs:505-571 | File, calendars and answer of the synchronous handler, error paths included |
| `Ingest.TakenIsPending` | src/shell/ingest.rs:463-501 | After 202, whose id is that of the entry, the entry is in the journal, pending behind everything accepted before, if and only if the journal ended with a line feed, and otherwise the journal cannot be read; 422 changes nothing, and is given exactly for what the two guards refuse; 202 is given exactly if the entry was synced |
| `Ingest.SyncDelivers` | src/shell/ingest.rs:541-570 | After 200 exactly one event carries the call's key, under the id answered, and shows what the request asks for; created is answered if and only if nothing carried the key before, and otherwise the id is the one it had; 502 is the failure of the delivery and never the payload's fault; any other answer left the calendars alone |
| `Ingest.AdmittedHasKey` | src/shell/ingest.rs:386-460 | The entry of an admitted call keeps its id, moment and payload, and delivery goes by the external id of the payload or else the trimmed header, under the source |
| `Ingest.SyncQueues` | src/shell/ingest.rs:541-570 | If the journal ended with a line feed: after 200 with its marker the queue is as before, and after 502 the entry is the last one queued; after a torn tail the journal cannot be read |
| `Door.AcceptedIsDeliverable` | src/shell/ingest.rs:386-460 | What both guards let through maps under the same profile, has a key of the source and a non-blank id, and its event carries exactly that key |
| `Door.RefusedExactlyWhenUnkeyed` | src/shell/ingest.rs:386-406 | For an object, the id guard refuses a mappable payload exactly when delivery would have no key for it |
| `Door.MarkerIsExternalId` | src/core/request.rs:222-229 | A mapped event carries a marker exactly when the request has an external id, and it is source and id |
| `Request.MappedIsWellFormed` | src/core/request.rs:145-247 | Every mapped event shows the title, description, location and status asked for; transparent exactly if busy is false; the palette id of the colour; boundaries of one shape in the zone of the request or else of the profile, end after start, an all-day event of exactly its days, end over duration over profile default over 60; the reminders asked for; and the marker exactly of the external id |
| `Request.MappedExactlyWhen` | src/core/request.rs:145-247 | A request is mapped if and only if title and external id are not blank, the zone is known, there is a window, the colour is in the palette, the status one of three, and the reminders are allowed |
| `Request.ColorsOfThePalette` | src/core/colors.rs:17-41 | A colour is resolved to the id of its palette pair, by name or id, whatever its case and the white space around it, and nothing else is |
| `Fields.ReadExactly` | src/core/request.rs:48-120 | A payload is read as a request if and only if it has no unknown member and each part of the request is what the member of its name says: absent or null is none for an option, a flag may be absent but not null, lists may be absent |
| `Fields.EventOfObject` | src/core/request.rs:60-247 | What an object becomes: every member has one of fourteen known names, and the event is what those members ask for |
| `Fields.ShownAsWritten` | src/core/request.rs:231-247 | Title, description, location and status of the event are the texts under those names, it is transparent exactly if busy is false, and it is marked exactly if there is an external id |
| `Fields.UnknownMembersAreRefused` | src/core/request.rs:67-70 | An object is read if and only if each of its members has one of the fourteen names |
| `Fields.GetIsLast` | src/core/request.rs:70-120 | Of members with one name the last one counts |
| `Fields.ArrayIsInOrder` | src/core/request.rs:69-120 | An array is read as the fields in their order, and refused if it has more items than there are fields |
| `Fields.IntegerExactly` | src/core/request.rs:50-120 | A number is read as n if and only if it is how n is written in decimal and n has 64 bits |
| `Request.RemindersAreKept` | src/core/request.rs:249-297 | At most five reminders, popups first, each exactly the minutes asked for and at most 40320: the cast loses nothing |
| `Request.RemindersExactly` | src/core/request.rs:249-297 | Reminders are accepted if and only if count, range and silence allow them |
| `Profile.ValidateUniqueSourceIds` | src/core/profile.rs:216-233 | Accepts exactly the lists without a shared id, and otherwise names the first pair met |
| `Profile.KeysAreInjective` | src/core/profile.rs:205-211 | Keys of sources with safe ids are equal only if source and id are |
| `Profile.ColonsWouldCollide` | src/core/profile.rs:205-211 | Without that rule two sources can share a key: one colon is enough |
| `Profiles.ProfilesDirectory.LoadAll` | src/shell/profiles.rs:62-150 | The loop over the sorted paths gives the specified loading, for any order of listing; DirectoryAccounts says what that is in terms of the fields of the files |
| `Profiles.DirectoryAccounts` | src/shell/profiles.rs:62-150 | Every `.toml` path is served or reported exactly once, with its reason; what is served is word for word the fields of a file that declares no version or version 2 and is valid; served ids are unique; of the paths that offer an id the first sorted one serves it |
| `Profile.Parse` | src/core/profile.rs:73-154 | A file is accepted if and only if it is a table, declares no version or version 2, its fields make a profile and that profile is valid; and then the profile is those fields, unchanged |
| `Profile.RefusedBecause` | src/core/profile.rs:73-154 | Every refusal names something that is wrong with the file |
| `Profile.SafeIds` | src/core/profile.rs:190-211 | A safe id is one segment of a path and one side of a key, and letters and digits are safe, with dots, hyphens and underscores after them |
| `Profiles.ListingOrderIsIrrelevant` | src/shell/profiles.rs:81-91 | The result does not depend on the order the directory is listed in |
| `Profiles.MapServesFirst` | src/shell/profiles.rs:155-161 | The running map serves an id from exactly the first path that offers it |
| `Profiles.ServedExactlyWhenOffered` | src/shell/profiles.rs:155-161 | An id is served if and only if some path offers it |
| `Profiles.ProfilesDirectory.SaveNew` | src/shell/profiles.rs:174-218 | The new directory and the answer, for every refusal |
| `Profiles.SavedIsServed` | src/shell/profiles.rs:174-218 | Saving makes exactly that source served, with exactly the fields of the contents saved, and changes no other |
| `Profiles.SavedExactlyWhen` | src/shell/profiles.rs:174-218 | A profile is saved if and only if its contents describe it, no served profile has its id, its file is not there and the disk agrees |
| `Profiles.BeforeIsLexicographic` | src/shell/profiles.rs:81-91 | Paths are visited in the order of their first difference, a proper prefix first |
| `Profiles.FileNamesDiffer` | src/shell/profiles.rs:174-218 | Two sources never share a file, and the file of a safe id is in the directory itself and is loaded |
| `Profiles.ProfilesDirectory.Delete` | src/shell/profiles.rs:234-260 | Removes the source's own file, or refuses and changes nothing |
| `Profiles.DeletedStaysGone` | src/shell/profiles.rs:234-260 | Deleting a source's file stops serving its id if and only if no other file offers it |
| `TokenStore.VerifiesExactlyLast` | src/shell/token_store.rs:208-223 | A token verifies if and only if it is the one last issued to that source and not revoked since |
| `TokenStore.IssueDecides` | src/shell/token_store.rs:173-188 | After an issue exactly the new token verifies, and no other source's answer changes |
| `TokenStore.LiveExactlyWhenPromised` | src/shell/token_store.rs:283-306 | Under a clock that does not run backwards a session is live if and only if it was started, not ended and not expired: pruning is invisible |
| `TokenStore.EndedStaysDead` | src/shell/token_store.rs:310-317 | An ended session stays dead until a login uses its id again |
| `TokenStore.WrittenExactlyWhen` | src/shell/token_store.rs:173-317 | Whatever an operation changes it writes; a revocation and a logout write exactly if they change something, and take away that source or session and nothing else |
| `TokenStore.RevokedExactlyWhen` | src/shell/token_store.rs:193-201 | An answered revocation leaves no token of the source in memory, and none in the file if and only if memory had one or the file had none |
| `TokenStore.RetriedRevokeComesBack` | src/shell/token_store.rs:193-201 | The case that shuts out: a revocation whose write failed, asked for again, is answered while the file keeps the token, which verifies after a restart |
| `TokenStore.EndedExactlyWhen` | src/shell/token_store.rs:310-317 | An answered logout leaves no such session in memory, and none in the file if and only if memory had it or the file did not |
| `TokenStore.TokenStore.IssueToken` | src/shell/token_store.rs:173-188 | Memory, file and answer of an issue |
| `TokenStore.TokenStore.RevokeToken` | src/shell/token_store.rs:193-201 | Memory, file and answer of a revocation; memory has no token of the source then, and when answered the file has none if and only if memory had one or the file had none |
| `TokenStore.TokenStore.VerifyToken` | src/shell/token_store.rs:208-223 | True exactly if the source's sealed token opens to the one presented |
| `TokenStore.TokenStore.BeginSession` | src/shell/token_store.rs:283-298 | Memory, file and answer of a login |
| `TokenStore.TokenStore.SessionLive` | src/shell/token_store.rs:302-306 | True exactly if the id names an unexpired session |
| `TokenStore.TokenStore.FinishSession` | src/shell/token_store.rs:310-317 | Memory, file and answer of a logout; memory has no such session then, and when answered the file has none if and only if memory had it or the file did not |
| `StoreLocks.NoLostUpdate` | src/shell/token_store.rs:118-201 | In every interleaving, with failed writes, cancellations and power cuts: memory is every change in order, the file a prefix of them that contains all answered ones, at most one task writes, and the file has every change if and only if none is under way and none was left unwritten |
| `StoreLocks.CancelledIssueIsUnwritten` | src/shell/token_store.rs:173-188 | A run in which one was: an issue cancelled while it waits for the sessions is in memory and not in the file |
| `StoreLocks.EveryoneFinishes` | src/shell/token_store.rs:56-72 | No deadlock and no livelock: tasks left to themselves make at most as many steps as they have before them, and when none is left all have finished |
| `StoreLocks.SomeoneCanStep` | src/shell/token_store.rs:56-72 | While a task is unfinished some task can take its next step |
| `Calendars.OneCalendarPerNameFromStart` | src/shell/dashboard.rs:112-162 | However late the list shows creations and deletions, and even if deletions go unheard, no two live calendars that Almanac made have names that differ at most in outer white space, if no creation takes effect unheard and a restart finds the list caught up on what was made |
| `Calendars.OuterSpaceIsIgnored` | src/shell/dashboard.rs:117-117 | White space typed around a name makes no difference to the step that is taken |
| `Calendars.CreatesExactlyWhen` | src/shell/dashboard.rs:112-162 | A calendar is made if and only if the name is not blank, there is an owner, the name trimmed is neither remembered nor listed, and Google does not refuse; it then has the trimmed name, and nothing else changes |
| `Calendars.RemovesExactlyWhen` | src/shell/dashboard.rs:167-199 | A deletion takes away the calendar it names, unless a source writes to it or Google refuses, and no other |
| `Text.TrimIsCore` | src/shell/dashboard.rs:117-117 | Trimming cuts white space at both ends, all of it and nothing else |
| `Calendars.FailedShareDuplicates` | src/shell/calendar_client.rs:299-318 | The proviso about creations is exact: after one whose share failed the next click makes a second calendar, unless the list caught up in between |
| `Calendars.RestartDuplicates` | src/shell/ingest.rs:236-253 | The proviso about restarts is exact: a creation after one makes a second calendar if and only if a live one of its name was remembered and the list does not show the name yet |
| `Calendars.CreateServesName` | src/shell/calendar_client.rs:375-385 | An answered creation leaves a live calendar of that name, except exactly when none was live and a deleted one was still listed, or remembered because its deletion went unheard |
| `Calendars.PageIsTruthInEveryRun` | src/shell/dashboard.rs:58-75 | If each deletion follows the first listing of its calendar, the page shows exactly the live calendars that Almanac made or the list ever showed, under their names |
| `Calendars.TombstoneDroppedTooEarly` | src/shell/ingest.rs:225-229 | A calendar deleted before the list showed it comes back on the page if and only if a page was rendered in between |
| `Calendars.AppState.WithCreatedCalendars` | src/shell/ingest.rs:274-298 | Adds what was made and is not listed, and forgets what is listed |
| `Calendars.AppState.WithoutDeletedCalendars` | src/shell/ingest.rs:214-234 | Removes what was deleted, and forgets what is no longer listed |
| `Calendars.AppState.ForgetCreatedCalendar` | src/shell/ingest.rs:261-266 | Afterwards the id is remembered under no name, and every memory of another id is as it was |
| `Calendars.AppState.RenderCalendars` | src/shell/dashboard.rs:58-75 | The page and the memories afterwards are those of the render step |
| `Calendars.AppState.CreateCalendar` | src/shell/dashboard.rs:112-162 | Google's side and the memories are those of the create step, which CreatesExactlyWhen and OuterSpaceIsIgnored say outright; true exactly if one was made and remembered |
| `Calendars.AppState.RemoveCalendar` | src/shell/dashboard.rs:167-199 | Google's side and the memories are those of the remove step; refused while a source writes to the calendar |

## Left out

- HTTP routing, authentication of callers, the dashboard's pages, metrics, notifications, logging and self-update: only the handlers' effects on the journal, the calendars and the memories are modelled.
- Access tokens for Google, the backoff times of the retry loop and the classification of HTTP statuses: an attempt either is worth repeating or is not.
- Cryptography, constant-time comparison and hashing: an abstract pair of functions stands for sealing and opening. Checking at startup that the key opens the store, and listing tokens, are not modelled.
- TOML, time zones and RFC 3339 (`chrono`, `chrono-tz`): parameters. A date sum beyond the library's range is an error here; the library would panic.
- `serde_json`'s recursion limit of 128 levels: the parser here has none. Numbers are kept as the text they were written with, and the members of a payload keep their order, where the library sorts them.
- A missing journal file is the empty file, and a missing token store the empty store. Creating the parent directory, the temporary files and syncing the directory are part of a write that succeeds or fails as a whole.
- A read of the journal while a line is being appended sees a prefix of that line: `RecordFile.TornWriteReads` says what it reads, but in `Protocol` reading is one step.
- The worker's select loop, its ticker and the shutdown drain: `Worker.Loop.Tick` is one tick. In `Protocol` the entries of a pass may also be delivered at the same time, which allows more interleavings than the worker's loop makes, and a permanent failure of a synchronous delivery may also be set aside, which the code does only from the worker.
- People who edit or copy events in Google Calendar: `Protocol` lets them delete events, nothing else. A request that is abandoned has no effect after its lock is released.
- Paging of Google's event list: a lookup sees every event of the calendar.
- The order of the calendar list, by name, and the cache of calendar names. The create handler of one name is one step, as its lock makes it; a deletion that interleaves with a creation is not modelled.
- Renaming a calendar, or deleting it outside the dashboard.
- Deleting an unusable profile by its file name; the reasons of the refusals are kept, their wording is not.
- `Pacing.JournalIsFilling` compares integers; the code compares the same numbers as floating point, which is exact below 2^53 bytes.
- Readers of the token store see a prefix of the changes, by `StoreLocks.NoLostUpdate` and `TokenStore.VerifiesExactlyLast`; their answers are not recorded in the states of `StoreLocks`.
