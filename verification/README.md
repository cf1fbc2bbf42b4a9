# myAQI ingestion pipeline: a verified model

This project models, in Dafny 4.11, the path of an air-quality reading from a CircuitPython sensor to the
downstream event that announces it, and proves the guarantees that path is built for: no reading is lost or
forgotten without being counted, none is stored twice or under another reading's number, device traffic never runs
into an idempotency conflict, an interrupted flash write brings back an older state only in one case that is
characterised exactly, concurrent uploads leave the database a serial execution would leave, every committed request
has exactly one outbox event, events are retried, claimed and published consistently, and from every state in which
the device has not refused to start there is a way to deliver all it has queued.

Check everything with `dafny verify dfyconfig.toml`.

| file | models |
|---|---|
| `Common.dfy`, `Alphabet.dfy`, `Json.dfy` | result types; letters and digits spelled out; decoded JSON documents |
| `DeviceState.dfy` | the device's state document and the checks made when it is read |
| `StateStore.dfy` | the three-file store: every file-system operation of a save, its failures and power loss |
| `UploadQueue.dfy`, `DeviceClient.dfy` | the firmware's queue and client: measuring, uploading, flushing |
| `ApiOrigin.dfy` | the base addresses the firmware accepts |
| `DeviceSecret.dfy` | the base64url text of device secrets (section 5 of RFC 4648) and both of its decoders |
| `IdempotencyKey.dfy`, `Wire.dfy` | idempotency keys; the request the firmware posts |
| `Validation.dfy` | the service's validation of a batch |
| `Ingestion.dfy` | the committed database and one ingestion transaction on it |
| `IngestionTransactions.dfy`, `LastSequence.dfy` | interleaved ingestion transactions; `devices.last_sequence` under them |
| `IngestionService.dfy` | the request handler |
| `Outbox.dfy`, `OutboxWorkers.dfy`, `OutboxDraining.dfy` | the outbox table and its operations; interleaved workers and administrator; how it can be emptied |
| `Pipeline.dfy` | ingestion transactions and outbox workers as one machine |
| `EndToEnd.dfy`, `LostReply.dfy` | device, flash, network and service as one machine; a run of it |
| `Recovery.dfy`, `Delivery.dfy` | how everything queued can be delivered; that machine and the outbox as one |
| `ClientRuns.dfy`, `PostedCalls.dfy` | the client's calls are runs of that machine; its posts pass the handler |
| `Audit.dfy` | the gap audit of stored sequences |
| `Trial.dfy`, `TrialRun.dfy` | the automated trial: batches, fault plan, accounting |

The device's files, the outbox table, the client, the service and the trial are classes whose methods work step by
step as the program does and are proved equal to functions of the old state; the theorems are lemmas about those
functions and about state machines built from them.

## Findings

Places where the code does not do what its documentation says, or does so only under a condition; each has the
exact condition as a lemma.

- **A failed save can roll the device back** (`AdafruitCode/myaqi_client.py:168-181`). `save` ends by renaming the
  backup over the primary when the new file could not be promoted. `StateStore.RollsBackExactly` says exactly when
  that brings back another state than the one before or the one being saved: renames replace existing files, the
  backup could not be removed, the primary could not be renamed away, and the backup holds a different readable
  state. CircuitPython renames do not replace.
- **Interrupted saves can leave nothing** (`AdafruitCode/myaqi_client.py:150-183`). `AdafruitCode/README.md:44` says an
  interrupted write can recover on the next boot, and `docs/architecture.md:27` that the device fails closed when no
  file is valid. `StateStore.LosesAllExactly` says exactly when a save turns the one into the other: only the temporary
  file is readable, and rewriting it is cut short. From a valid primary that takes three interrupted saves in a row
  (`StateStore.TwoInterruptionsSurvived`, `StateStore.ThirdInterruptionCanLoseAll`).
- **`last_sequence` can fall behind** (`backend/src/myaqi_backend/ingestion.py:232-236`). It is read and written without
  a lock. `LastSequence.CommitKeepsLast` says exactly which commits keep it right, `LastSequence.LostUpdate` gives two
  overlapping uploads after which it is wrong.
- **An HTTP status outside 100..599 makes the saved state unreadable** (`AdafruitCode/myaqi_client.py:121-127`,
  `AdafruitCode/myaqi_client.py:259-268`): `UploadQueue.FailureHealthy`, `UploadQueue.StrangeStatusUnreadable`. Once the
  next measurement is saved too, primary and backup are both unreadable, the device refuses to start, and what it had
  queued is lost without being counted; exactly then, by `DeviceClient.StatusDecidesLoad`.
- **A batch's body and key can change between retries** (`AdafruitCode/myaqi_client.py:279-292`,
  `AdafruitCode/myaqi_client.py:303-320`). `docs/architecture.md:6` says they stay stable. After another measurement they do
  exactly when the batch was full and the queue was not (`PostedCalls.RetryStableExactly`); that is harmless, as a changed
  batch has a new key (`EndToEnd.SameKeySameBody`).
- **The firmware does not bound its device id** (`AdafruitCode/myaqi_client.py:215-217`,
  `backend/src/myaqi_backend/ingestion.py:28`). The service accepts its idempotency keys exactly when id and bounds
  together have at most 114 characters (`IdempotencyKey.DeviceKeyAccepted`).
- **The trial's outbox check counts every event in the database** (`soak/run_software.py:228-235`,
  `soak/run_software.py:506-507`). A faultless trial passes it exactly when no request had been committed before
  (`TrialRun.OutboxCheckExactly`).

## Model

| member | source | states |
|---|---|---|
| EndToEnd.NoSilentLoss | AdafruitCode/myaqi_client.py:270-367 | over every run with lost, late and repeated deliveries, lost replies and power loss at any file operation: each sequence ever assigned, by the present state or any earlier one, is queued, stored, or one of exactly `dropped_readings` dropped ones, all below the queue |
| EndToEnd.NeverForgotten | AdafruitCode/myaqi_client.py:138-293 | a reading once queued is, at any later time and after any reboots, still queued as it was, stored as it was, or counted as dropped; its sequence is not assigned again |
| EndToEnd.NumberingNeverFalls | AdafruitCode/myaqi_client.py:270-293 | the next sequence never falls, across reboots and interrupted saves |
| EndToEnd.LossIsCounted | AdafruitCode/myaqi_client.py:279-292 | sequences ever assigned that are neither queued nor stored never outnumber the drop counter |
| EndToEnd.StoredOnceAsPosted | backend/src/myaqi_backend/models.py:79-83 | a device's sequence is stored at most once, as the one reading ever posted under it |
| EndToEnd.SameKeySameBody | AdafruitCode/myaqi_client.py:303-320 | two posts under one idempotency key carry the same body, across any number of reboots |
| EndToEnd.NeverConflicts | backend/src/myaqi_backend/ingestion.py:248-256 | the device's traffic is never answered with the idempotency conflict |
| EndToEnd.RepliesCover | AdafruitCode/myaqi_client.py:344-347 | a genuine positive reply always covers exactly the batch the device waits for |
| EndToEnd.NeverStartsOver | AdafruitCode/myaqi_client.py:138-152 | once anything was numbered or posted the device resumes above it or refuses to start; it never restarts at sequence 1 |
| EndToEnd.StepKeepsInv | AdafruitCode/myaqi_client.py:161-367 | every step of device, flash, network and service keeps the end-to-end invariant |
| LostReply.LostReplyIsRecovered | firmware_tests/test_end_to_end.py:60-110 | a run exists in which a reply is lost, the device reboots and reposts, the answer is replayed, and one row, one request and one event remain |
| Recovery.EverythingCanBeDelivered | AdafruitCode/myaqi_client.py:299-378 | from every reachable state in which the device runs or can start, whatever the service is doing, a continuation empties the queue, all of it stored as it was and nothing more dropped |
| Recovery.RecoverableExactly | AdafruitCode/myaqi_client.py:138-152 | such a continuation exists exactly when the device runs or a state file can be loaded |
| Recovery.ServiceAnswers | backend/src/myaqi_backend/ingestion.py:240-294 | in any state of its open transactions the service can come to answer any posted request positively |
| Delivery.QueuedToAnnounced | AdafruitCode/myaqi_client.py:270-367 | over every run of device, network, service and outbox workers: a reading once queued is queued as it was, dropped, or stored as it was by a request that exactly one outbox row announces |
| Delivery.AcknowledgedIsAnnounced | backend/src/myaqi_backend/ingestion.py:268-294 | every sequence below the queue but the dropped ones is stored and announced |
| Delivery.AnnouncedForEver | backend/src/myaqi_backend/models.py:104-108 | an announced reading stays announced by the same outbox row, published only once delivered |
| Delivery.EverythingCanBeAnnounced | AdafruitCode/myaqi_client.py:299-378 | from every reachable state in which the device runs or can start, a continuation empties its queue with everything in it stored, announced by one outbox row, and published |
| ClientRuns.SaveIsRun | AdafruitCode/myaqi_client.py:161-183 | any number of a save's operations, with any fate, is a run of the end-to-end machine |
| ClientRuns.CutSaveIsRun | AdafruitCode/myaqi_client.py:161-183 | so is a save cut short by a power loss |
| ClientRuns.Start | AdafruitCode/myaqi_client.py:186-230 | starting the client over a reachable flash, with any queue limits it accepts, is a run of the machine |
| ClientRuns.Measure | AdafruitCode/myaqi_client.py:270-293 | so is measuring, unless its save brings an older state back; a reading returned is queued |
| ClientRuns.PostIsRun | AdafruitCode/myaqi_client.py:303-339 | a queue that is not empty can be posted from, as a step of the machine |
| ClientRuns.Upload | AdafruitCode/myaqi_client.py:332-367 | handling a reply, positive, negative or absent, is a run of the machine, unless its save brings an older state back |
| ClientRuns.NothingLost | AdafruitCode/myaqi_client.py:270-293 | hence every sequence numbered by any earlier moment is queued by the client, stored, or one of its `dropped_readings` |
| ClientRuns.NothingForgotten | AdafruitCode/myaqi_client.py:270-293 | and every reading queued at any earlier moment is queued by it unchanged, stored unchanged, or dropped |
| PostedCalls.PostedCallAccepted | AdafruitCode/myaqi_client.py:303-339 | a post passes every check of the handler exactly when device and service are deployed to match, and is then the request the end-to-end machine delivers |
| PostedCalls.ReachablePostAccepted | backend/src/myaqi_backend/ingestion.py:166-230 | the same in every reachable state of the end-to-end machine |
| PostedCalls.ReleasedFirmwareAccepted | AdafruitCode/myaqi_client.py:10 | a provisioned device with the released firmware and zoned timestamps passes every check of the handler up to 25-digit sequences |
| PostedCalls.RetryStableExactly | AdafruitCode/myaqi_client.py:279-320 | a measurement between two attempts leaves body and key as they were exactly when the batch was full and the queue was not |
| PostedCalls.StatusesReadable | backend/src/myaqi_backend/ingestion.py:166-301 | exactly the handler's answers are 202, and no status of it makes the firmware's state unreadable |
| StateStore.JsonStateStore.LoadState | AdafruitCode/myaqi_client.py:138-152 | the first readable of primary, backup, temporary; refuses if files exist but none is readable; default only if none exists |
| StateStore.JsonStateStore.Save | AdafruitCode/myaqi_client.py:161-183 | the whole new disk and whether the save completed, for every combination of refused operations |
| StateStore.SaveExactly | AdafruitCode/myaqi_client.py:161-183 | how a save ends, on the three files, for every combination of refused operations: when it completes, what is primary and backup then, and what a refused promotion leaves |
| StateStore.RefusedPromotionUndone | AdafruitCode/myaqi_client.py:174-181 | a refused promotion whose restoring rename works leaves the old primary |
| StateStore.RefusedPromotionCostsNothing | AdafruitCode/myaqi_client.py:174-181 | such a failed save costs no safe level, and what is loaded is what was loaded before |
| StateStore.StepLoads | AdafruitCode/myaqi_client.py:161-183 | after any single file operation, load gives the old state, the new one, or refuses, exactly unless the operation rolls back; files never vanish altogether |
| StateStore.InterruptedSave | AdafruitCode/myaqi_client.py:138-183 | after a save cut short anywhere, load gives the old or the new state or refuses, never the default; completed means the new one |
| StateStore.RollsBackExactly | AdafruitCode/myaqi_client.py:168-181 | exactly which saves bring back a state that is neither the old nor the new one |
| StateStore.LosesAllExactly | AdafruitCode/myaqi_client.py:150-167 | exactly which saves leave no readable file |
| StateStore.SurvivingState | AdafruitCode/myaqi_client.py:138-183 | after any attempts, what is loaded is the last completed state or one attempted since, if anything is |
| StateStore.UnsafeExactly | AdafruitCode/myaqi_client.py:168-181 | exactly which runs of a save rename the backup over an existing primary |
| StateStore.UnsafeRollsBack | AdafruitCode/myaqi_client.py:174-181 | such a run brings back the state in the backup |
| StateStore.AttemptLevelExactly | AdafruitCode/myaqi_client.py:161-183 | an attempt costs at most one of the three safe levels, and a completed one restores all, except exactly when an unreadable backup is renamed over a readable primary |
| StateStore.IntactIsGradual | AdafruitCode/myaqi_client.py:161-183 | on a disk only saves have written to, that exception never arises, whatever operations are refused |
| StateStore.LevelAfter | AdafruitCode/myaqi_client.py:138-183 | so over any sequence of such attempts, level plus interruptions since the last completed save is at least three |
| StateStore.TwoInterruptionsSurvived | AdafruitCode/myaqi_client.py:138-183 | from a valid primary, unless three saves in a row were interrupted, a state is loaded: the last completed one or one attempted since, unless a save brought an older one back |
| StateStore.ThirdInterruptionCanLoseAll | AdafruitCode/myaqi_client.py:150-183 | three interruptions that leave no readable file |
| DeviceState.ReadDocument | AdafruitCode/myaqi_client.py:78-136 | the reading loop computes the checked state or the first error |
| DeviceState.SaveReadRoundTrip | AdafruitCode/myaqi_client.py:78-136 | saving then reading is the identity on readable states and is refused on all others |
| DeviceState.LoadedIsReadable | AdafruitCode/myaqi_client.py:83-135 | whatever document is read, the result has increasing sequences below the next one and valid counters |
| DeviceState.ReadExactly | AdafruitCode/myaqi_client.py:78-136 | exactly which documents are read as a state, field by field, with the defaults of fields an older document lacks |
| UploadQueue.EnqueuedHealthy | AdafruitCode/myaqi_client.py:270-293 | measuring keeps the queue contiguous, lets it grow by one up to its bound, and drops and counts one reading only when it is full |
| UploadQueue.AcknowledgedHealthy | AdafruitCode/myaqi_client.py:355-365 | an acknowledgement removes exactly the batch, the last acknowledged sequence is the one just below the queue, attempts grow by one and failures do not |
| UploadQueue.FailureHealthy | AdafruitCode/myaqi_client.py:259-268 | recording a failure leaves a state that can be read back exactly for no status or one in 100..599 |
| UploadQueue.HealthyReadable | AdafruitCode/myaqi_client.py:78-136 | every state the firmware builds passes the checks when loaded again, as itself |
| UploadQueue.StrangeStatusUnreadable | AdafruitCode/myaqi_client.py:121-127 | a recorded status outside 100..599 makes the document unreadable |
| DeviceClient.StatusDecidesLoad | AdafruitCode/myaqi_client.py:121-127 | after a recorded failure and a measurement, both saved in full, the new state loads exactly for such a status; otherwise load refuses |
| DeviceClient.MyAQIClient.Boot | AdafruitCode/myaqi_client.py:213-230 | a client exists exactly for a valid configuration and a store that does not refuse, with the loaded or default state |
| DeviceClient.MyAQIClient.Enqueue | AdafruitCode/myaqi_client.py:270-293 | invalid values change nothing; a completed save appends the reading, dropping and counting exactly the oldest one if the queue was full; a failed save leaves memory alone; counters untouched |
| DeviceClient.MyAQIClient.RecordUploadFailure | AdafruitCode/myaqi_client.py:259-268 | memory counts the attempt and the failure and notes the status even if the save fails; nothing else changes |
| DeviceClient.MyAQIClient.FlushOne | AdafruitCode/myaqi_client.py:299-367 | the batch leaves the queue only on a 202 whose counts add up to it and whose save completed; every other reply is a counted failure that keeps it |
| DeviceClient.MyAQIClient.Flush | AdafruitCode/myaqi_client.py:369-378 | accepted and duplicates are the sums of the counts in the replies used, and with what remains add up to what was queued; an error cuts the queue at a batch boundary; numbering and drops untouched; acknowledgements advance below the queue |
| DeviceClient.ProvisionedSecretAccepted | AdafruitCode/myaqi_client.py:222-224 | of the texts the server hands out, exactly those of 32-byte secrets are accepted |
| ApiOrigin.OriginAcceptedExactly | AdafruitCode/myaqi_client.py:199-212 | accepted exactly: an HTTPS origin, or plain HTTP to localhost, trailing slashes aside |
| DeviceSecret.SecretRoundTrip | backend/src/myaqi_backend/auth.py:18-24 | for every byte string, the unpadded text is undone by the backend and by the firmware decoder |
| DeviceSecret.DecodersAgree | AdafruitCode/myaqi_client.py:51-54 | the two decoders agree on every text, valid or not |
| DeviceSecret.LettersSpelled | backend/src/myaqi_backend/auth.py:18-24 | the letters are those of RFC 4648, section 4, and section 5 after translation |
| DeviceSecret.QuadSpells | backend/src/myaqi_backend/auth.py:18-19 | four letters spell three bytes as one 24-bit number, most significant bits first |
| DeviceSecret.EncodedInGroups | backend/src/myaqi_backend/auth.py:18-19 | the text is made of such groups, the last one filled with zero bits and padded |
| DeviceSecret.LettersDecode | AdafruitCode/myaqi_client.py:51-54 | a text of url-safe letters decodes exactly when its length is not one more than a multiple of four, to three bytes for every four letters |
| IdempotencyKey.KeyInjective | AdafruitCode/myaqi_client.py:315-320 | under one prefix, different batch bounds give different keys |
| IdempotencyKey.DeviceKeyAccepted | backend/src/myaqi_backend/ingestion.py:28 | the service accepts the firmware's key exactly when id and bounds fit in 114 characters |
| IdempotencyKey.SameAlphabet | AdafruitCode/myaqi_client.py:215-217 | the alphabet the firmware spells out for device ids is the one of the service's key pattern |
| IdempotencyKey.DeviceKeyText | AdafruitCode/myaqi_client.py:320 | the key is the prefix, the device id and the decimal bounds, joined by dashes |
| IdempotencyKey.StoredDeviceKeyAccepted | backend/src/myaqi_backend/models.py:36 | with a storable device id and up to 25 digits the key is always accepted |
| Wire.BatchAccepted | AdafruitCode/myaqi_client.py:303-312 | a queued batch passes validation exactly when small enough with zoned timestamps, and is then read back unchanged |
| Validation.ParseBatch | backend/src/myaqi_backend/validation.py:51-99 | the parsing loop computes the batch or the first error in order |
| Validation.AcceptedExactly | backend/src/myaqi_backend/validation.py:21-99 | accepted as `readings` if and only if the document is a well-formed, in-range batch of 1 to the maximum with distinct sequences meaning `readings` |
| Validation.RefusedAtFirstError | backend/src/myaqi_backend/validation.py:51-99 | a refusal reports the first thing wrong: the payload's shape, or the index of the first item that cannot follow those before it |
| Ingestion.IngestKeepsInv | backend/src/myaqi_backend/ingestion.py:240-294 | a transaction keeps keys, sequences and ids unique, requests answered and owning what they accepted, events matching, counts conserved |
| Ingestion.AcknowledgementSound | backend/src/myaqi_backend/ingestion.py:264-283 | any positive answer accounts for the whole batch, all of it stored |
| Ingestion.RedeliveryRepeatsAnswer | backend/src/myaqi_backend/ingestion.py:248-266 | delivering a committed request again repeats its answer and changes nothing |
| Ingestion.ConflictExactly | backend/src/myaqi_backend/ingestion.py:248-263 | the conflict is answered exactly for a stored key with another body; "still processing" never |
| Ingestion.FreshRowsStable | backend/src/myaqi_backend/ingestion.py:130-155 | rows committed meanwhile leave a transaction's inserts as they were unless they take its slots |
| IngestionTransactions.Serialisable | backend/src/myaqi_backend/ingestion.py:183-294 | for every interleaving the committed database equals a serial run of the committed requests in commit order |
| IngestionTransactions.LogIsRequests | backend/src/myaqi_backend/ingestion.py:240-294 | the log that is run serially lists exactly the committed requests, in order |
| IngestionTransactions.CommitIsSerial | backend/src/myaqi_backend/ingestion.py:268-294 | a commit writes and answers exactly what the transaction alone would, at that moment |
| IngestionTransactions.StepKeepsInv | backend/src/myaqi_backend/ingestion.py:36-90 | every statement of every transaction keeps the locking and database invariant |
| IngestionTransactions.CommittedDatabase | backend/src/myaqi_backend/models.py:55-108 | keys and sequences unique; each request owns exactly its accepted rows and has exactly one event, carrying its answer |
| IngestionTransactions.AcknowledgedIsStored | backend/src/myaqi_backend/ingestion.py:264-301 | any 202, fresh or replayed, covers its batch, all of which is committed |
| IngestionTransactions.AnswersAgree | backend/src/myaqi_backend/ingestion.py:248-266 | all answers to one request carry the same response and none is a conflict |
| IngestionTransactions.NeverInProgress | backend/src/myaqi_backend/ingestion.py:257-263 | the "still processing" answer is never given |
| IngestionTransactions.AcceptedEqualsStored | backend/src/myaqi_backend/ingestion.py:268-283 | summed accepted counts of a device equal its stored measurements |
| IngestionTransactions.StoredExactlyAccepted | backend/src/myaqi_backend/ingestion.py:183-294 | the committed requests are exactly those answered as accepted, with the answers given |
| IngestionTransactions.RejectedLeavesNothing | backend/src/myaqi_backend/ingestion.py:183-230 | over every run a request answered with a conflict has no row, and every measurement and event belongs to an accepted request |
| LastSequence.CommitKeepsLast | backend/src/myaqi_backend/ingestion.py:232-236 | after a commit the column is right if and only if it was not written or not lowered |
| LastSequence.LastIsGreatest | backend/src/myaqi_backend/ingestion.py:232-236 | over any run with one transaction at a time per device it is the greatest stored sequence, unset before the first |
| LastSequence.LostUpdate | backend/src/myaqi_backend/ingestion.py:232-236 | an interleaving of two uploads after which it is below a stored sequence |
| IngestionService.InsertMeasurements | backend/src/myaqi_backend/ingestion.py:147-155 | the insert loop adds exactly the unseen readings and counts them |
| IngestionService.IngestionService.Transact | backend/src/myaqi_backend/ingestion.py:240-294 | the database part equals the serial transaction and keeps the database invariant |
| IngestionService.IngestionService.IngestMeasurements | backend/src/myaqi_backend/ingestion.py:158-301 | an answer is given only to a signed call of an active device with accepted key, header and batch; what it stores, replays and notes on the device row; every refusal changes nothing |
| IngestionService.RefusedExactly | backend/src/myaqi_backend/ingestion.py:166-230 | exactly which calls each check refuses: the key, the firmware header, the device and its signature, the batch |
| IngestionService.UnsignedRefused | backend/src/myaqi_backend/ingestion.py:184-216 | an unsigned call, or one of an unknown or inactive device, is always refused |
| IngestionService.TransactedExactly | backend/src/myaqi_backend/ingestion.py:241-294 | what is answered, and marked as replayed, by what is stored under the key |
| IngestionService.AnsweredKeepsLast | backend/src/myaqi_backend/ingestion.py:232-238 | one call at a time, the device row's last sequence stays the greatest stored after fresh, overlapping and replayed calls |
| Outbox.ClaimableExactly | backend/src/myaqi_backend/outbox.py:130-143 | an unfinished event is claimable exactly from its due time on, a finished one never |
| OutboxWorkers.DueIsTaken | backend/src/myaqi_backend/outbox.py:130-148 | in every reachable state a claim takes each due, unlocked event unless events created no later fill its limit, and no other |
| Outbox.OldestFirst | backend/src/myaqi_backend/outbox.py:130-148 | on the columns: only due, unlocked rows, the oldest first and by id; a due row is left out only for rows created no later |
| Outbox.SelectionUnique | backend/src/myaqi_backend/outbox.py:130-148 | the claiming query's answer is determined |
| Outbox.NewRowDue | backend/src/myaqi_backend/models.py:117-125 | a new event is pending, untried and due at once |
| Outbox.SelectionExists | backend/src/myaqi_backend/outbox.py:130-148 | there is an answer for every table |
| Outbox.BackoffIsPower | backend/src/myaqi_backend/outbox.py:202-204 | the delay is two to the min(attempts, 8), between 2 and 256, monotone; the cap of 300 never binds |
| Outbox.DelaysClosedForm | backend/src/myaqi_backend/outbox.py:195-204 | the summed delays up to the n-th failure in closed form |
| Outbox.OutboxTable.ClaimEvents | backend/src/myaqi_backend/outbox.py:149-157 | exactly the selected rows become processing in this worker's name; the claims carry their payloads in order |
| Outbox.OutboxTable.MarkPublished | backend/src/myaqi_backend/outbox.py:160-177 | settles exactly when this worker holds the event's lock, otherwise changes nothing |
| Outbox.OutboxTable.MarkFailed | backend/src/myaqi_backend/outbox.py:180-205 | the same for a failure: one attempt more, the error cut to 2000 characters, and death or the back-off delay |
| Outbox.OutboxTable.ReplayEvent | backend/src/myaqi_backend/admin.py:216-231 | only a dead event is replayed; attempts and error are kept and it is claimable at once |
| Outbox.OutboxTable.ProcessOnce | backend/src/myaqi_backend/outbox.py:208-240 | an undisturbed pass settles every claimed event by its own publish outcome and touches no other |
| OutboxWorkers.StepKeepsInv | backend/src/myaqi_backend/outbox.py:118-240 | claims, publishes, settlements, crashes and replays in any order keep the outbox invariant |
| OutboxWorkers.RowsConsistent | backend/src/myaqi_backend/outbox.py:149-205 | processing exactly when both lock fields are set, published exactly when dated, and only after a successful publish call |
| OutboxWorkers.OpenClaimsDisjoint | backend/src/myaqi_backend/outbox.py:144-148 | claim transactions open at the same time hold disjoint events |
| OutboxWorkers.PublishedIsFinal | backend/src/myaqi_backend/outbox.py:160-177 | events never disappear or change payload, and a published one never changes again |
| OutboxWorkers.OnlyOwnerSettles | backend/src/myaqi_backend/outbox.py:126-193 | only the holder of the current claim settles; reclaiming comes at least the lock timeout after the claim it overrides |
| OutboxWorkers.SettlesByOutcome | backend/src/myaqi_backend/outbox.py:223-239 | a settlement publishes after a successful call and records a failure after a failed one |
| OutboxWorkers.ClaimWrites | backend/src/myaqi_backend/outbox.py:149-152 | a claim's commit locks its events in the worker's name and changes nothing else |
| OutboxWorkers.PublishedWasPublished | backend/src/myaqi_backend/outbox.py:223-239 | a published event was handed to the publisher, successfully, in some earlier step |
| OutboxWorkers.ClaimsApart | backend/src/myaqi_backend/outbox.py:126-157 | any two claims of an event with no settlement between them are at least the lock timeout apart |
| OutboxWorkers.RetriesBounded | backend/src/myaqi_backend/outbox.py:195-204 | attempts never exceed the maximum plus replays; dead only after the maximum |
| OutboxWorkers.DeadAfterBackoff | backend/src/myaqi_backend/outbox.py:195-204 | an event that died without replay was retried over at least the summed back-off time |
| OutboxWorkers.HistoryIsTrue | backend/src/myaqi_backend/outbox.py:195-204 | replays and failure times are those of the steps taken |
| OutboxWorkers.FailuresApart | backend/src/myaqi_backend/outbox.py:195-204 | a dead event never replayed failed in two steps at least the summed back-off time apart |
| OutboxDraining.EverythingCanBePublished | backend/src/myaqi_backend/outbox.py:118-240 | from every reachable state of workers and administrator a continuation publishes every event, dead ones after a replay |
| Pipeline.OneEventForEver | backend/src/myaqi_backend/models.py:104-108 | every committed request has exactly one outbox row, the same one for ever, carrying its answer and published only once delivered |
| Pipeline.EventsHaveRequests | backend/src/myaqi_backend/ingestion.py:284-291 | every outbox row announces a committed request |
| Pipeline.AcknowledgedIsAnnounced | backend/src/myaqi_backend/ingestion.py:264-301 | every positive answer stands in the outbox as a payload |
| Pipeline.DrainedCount | backend/src/myaqi_backend/outbox.py:208-240 | when nothing is pending, in work or dead, exactly as many events are published as requests were committed |
| Audit.MissingRanges | backend/src/myaqi_backend/admin.py:20-29 | for ordered sequences in range, exactly the maximal gaps: ordered, separated, covering what is absent, lengths adding up |
| Audit.GapsMaximal | backend/src/myaqi_backend/admin.py:20-29 | each gap starts at the range's start or after a stored value and ends likewise |
| Audit.StoredBetweenIsQuery | backend/src/myaqi_backend/admin.py:159-168 | the audited list is strictly increasing and holds exactly the stored sequences of the range |
| Audit.VerifySequenceRange | backend/src/myaqi_backend/admin.py:144-178 | complete exactly when every sequence is stored; the ranges cover exactly the missing ones; `missing` is their total |
| Trial.BuildBatches | soak/run_software.py:66-92 | refuses bad arguments; otherwise consecutive batches from 1 to `readings`, full but for the last |
| Trial.BatchesDisjoint | soak/run_software.py:71-91 | sizes within bounds, no shared sequence, no shared key |
| Trial.BatchesCover | soak/run_software.py:71-91 | every sequence lies in a batch |
| Trial.RoundRobinOperations | soak/run_software.py:257-271 | the loop terminates with the rounds of what is still owed |
| Trial.PlanCounts | soak/run_software.py:257-271 | the plan has exactly the requested number of each fault |
| Trial.PlanOrdered | soak/run_software.py:257-271 | the plan goes round by round, in each round API outage, worker outage, replay |
| Trial.PayloadAccepted | soak/run_software.py:73-82 | a batch carries its sequences in order with concentrations the service accepts |
| TrialRun.FreshSend | soak/run_software.py:372-397 | a trial batch sent for the first time is accepted in full |
| TrialRun.PlanFits | soak/run_software.py:331-333 | the check made before the trial is exactly what the plan needs |
| TrialRun.CheckAnswer | soak/run_software.py:380-390 | an answer passes exactly when positive, covering the batch, and replayed as expected |
| TrialRun.Run.Send | soak/run_software.py:372-397 | none of the trial's checks on an answer ever fails |
| TrialRun.Run.RunOperations | soak/run_software.py:399-488 | no pop from an empty deque; every batch sent fresh exactly once in order; each replay answered under its first answer's identity |
| TrialRun.SteadyCount | soak/run_software.py:410-417 | the steady share is the unreserved batches over the operations left plus one, rounded down, and never negative |
| TrialRun.BatchesCounted | soak/run_software.py:71-91 | the number of batches is the readings over the batch size, rounded up |
| TrialRun.RunTrial | soak/run_software.py:307-519 | refuses exactly the arguments that do not fit; otherwise all readings accepted and stored once, one request per batch, all faults recovered and all replays identical |
| TrialRun.OutboxCheckExactly | soak/run_software.py:506-509 | once the outbox is drained, the report's count of published events is right exactly when no request had been committed before |

## Left out

- SHA-256, HMAC signatures and the clock window are a verdict given to the handler; equal digests stand for equal bodies.
- JSON text, timestamp parsing and float formatting are abstract: documents are already decoded, a clock function says which texts parse, and a pending reading keeps only its three fields.
- Reads of a complete state file are assumed to succeed; spontaneous corruption of a finished file is not modelled.
- The end-to-end machine excludes the restoring renames that roll back, which `StateStore.RollsBackExactly` characterises, and HTTP statuses outside 100..599.
- ClientRuns.Measure: excludes exactly the saves of `StateStore.RollsBackExactly`, after which an older state is back.
- ClientRuns.Upload: excludes those saves and replies with a status outside 100..599.
- StateStore.LevelAfter: leaves out attempts that rename an unreadable backup over a readable primary, the exception of `StateStore.AttemptLevelExactly`, which needs a disk something else has damaged (`StateStore.IntactIsGradual`).
- StateStore.TwoInterruptionsSurvived: the same exception; which state survives is stated for attempts that bring no older one back.
- PostedCalls.ReleasedFirmwareAccepted: speaks of the handler's checks only; the 32-bit columns behind it are not modelled.
- Integer columns are unbounded here; a sequence beyond 32 bits, or a JSON integer too large for a float, is an error in the service that the model does not show.
- The database's dialect branches are one semantics: insert-or-ignore that waits for a conflicting open transaction. Deadlocks appear only as rollbacks.
- Outbox workers are assumed to have distinct names and to run one pass at a time; SNS and the logging publisher are a publish call that succeeds or raises.
- TrialRun.RunTrial: parsing the base address is a verdict given; waiting for processes, latencies and the queue maxima are not modelled; the service is its serial specification and the outbox check is `TrialRun.OutboxCheckExactly`.
- Flask routing, metrics, logging, device inspection and provisioning, the hardware loop, serial capture, deployment and the retired prototype are left out.
