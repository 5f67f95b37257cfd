# Batch saving and change logging for Yii active records — a Dafny model

This project models the core of a Yii 2 extension that adds two things to
active records:

- **Batch saving.** A record class keeps a queue of records waiting to be saved
  (`addSaveMultiple`, `getSaveMultiple`, `clearSaveMultiple`).
  `saveMultiple` then writes the whole queue at once:
  - it collects the union of the attribute names and the primary keys;
  - it asks the class-level listeners whether the batch may go on;
  - it validates each record and runs its `beforeSaveMultiple` listeners;
  - it sorts new records into one multi-row INSERT and the others into one
    `UPDATE ... FROM (VALUES ...)` statement;
  - it hands the database's ids back to the inserted records;
  - it commits every record's dirty attributes and reports its changed
    attributes to the after-save listeners;
  - it empties the queue.
- **Change logging.** The `Log` behavior hooks a record's ordinary save:
  - before the write it decides which logged attributes changed, stamps the
    change time, checks the optimistic version and draws a new random
    version;
  - after the write it saves one row to the log table.

  Its subclass `MultipleLog` does the same for batch saves:
  - a stale check before the batch;
  - a diff and a new version before each record's write;
  - one queued log record after each write;
  - a flush of the log class's own queue once the batch ends.

The model is organised as follows:

- `php.dfy` (module `Php`): the PHP runtime behaviour the core relies on.
  Scalar values, the `(string)` cast, loose `==`, `implode`/`explode`, the
  PostgreSQL brace literal, `array_unique`, `array_diff` and order-keeping
  filters.
- `records.dfy` (module `Records`): the active-record container, as class
  `Record` with a value snapshot `RecordState`. It holds the current and the
  old attributes and the new-record flag, with dirty tracking, commits,
  property reads and assignments.
- `bulk_write.dfy` (module `BulkWrite`): what one `saveMultiple` computes,
  as pure functions of record snapshots. This covers the name union, the key
  list, the insert rows, the typed update tuples and the UPDATE statement,
  the ids handed back, and each record's final state.
- `batch.dfy` (module `MultipleActiveRecord`): the queue as class `SaveQueue`,
  and `saveMultiple` as imperative methods over the queued `Record` objects.
  Each method is proved against the outcome function `SaveOutcome`.
- `log.dfy` (module `LogBehavior`): the `Log` behavior as class `Log`, with
  its per-save state (`_to_save_log`, `_changed_attributes`,
  `_to_save_attributes`). Before and after a save, its methods are proved
  against pure specifications.
- `multiple_log.dfy` (module `MultipleLog`): the handlers of `MultipleLog`,
  as methods over a `Log` object and the log class's `SaveQueue`.

The model takes these as inputs:

| Input | Parameter |
|---|---|
| listener outcomes | `proceed`, and `hooks` (the attributes each record's listeners write, and whether they let the save go on) |
| validation results | `valid` |
| column types and driver quoting | `types`, `quote` |
| database results | `affectedRows`, `lastId`, `faultyCount`, the stored version `stored`, whether the log record saved `logSaved` |
| random numbers | `rand`, at most `mt_getrandmax()` |
| the clock | `time` |
| the application user | `Actor` |
| classes that exist | a set of class names |
| closure values in `logAttributes` | `results` |

Two points where the code reads differently from its own comments or
from what a caller may expect; the model follows the code in both:
- **Stale-check participants.** The docblock of `logToSaveMultiple` says it
  checks versions for all records (behaviors/MultipleLog.php:60), and the
  comment at line 79 introduces the test that skips records needing no check.
  The test at line 80 skips every saved record and every record with a version
  field, so only new, unversioned records take part: the ones that cannot be
  stale (`Participation`, `ParticipationInverted`).
- **The queue after a failed batch.** `saveMultiple` returns false at
  base/VekActiveRecord.php:137, 144 and 148 without calling `savedMultiple`,
  so the queue keeps its records. Only a saved batch empties it, at line 235
  (`SaveQueue.SaveMultiple`).

## Model

| member | source | states |
|---|---|---|
| `Php.DecimalRoundTrip` | behaviors/Log.php:160-163 | the decimal text written as a version denotes exactly the number drawn |
| `Php.LooseEqualsProperties` | behaviors/Log.php:205 | loose `!=` used for change detection is reflexive and symmetric, and an integer equals its own decimal text |
| `Php.BraceListRoundTrip` | behaviors/Log.php:144-148 | a non-empty list of comma-free names is recovered from the `{a,b}` literal stored in the changed-attributes column |
| `Php.ExplodeJoin` | behaviors/Log.php:145 | splitting the joined text at the separator gives back a non-empty list of separator-free names |
| `Php.IntStringRoundTrip` | behaviors/Log.php:229 | an integer's `(string)` text is an integer-like string that denotes it |
| `Php.DedupSpec` | base/VekActiveRecord.php:122 | `array_unique` keeps every element exactly once, in order of first occurrence |
| `Php.Without` | behaviors/MultipleLog.php:136 | `array_diff` keeps exactly the names not in the drop list |
| `Records.CommitSpec` | base/VekActiveRecord.php:225-232 | after the commit every current value is an old value and nothing is dirty; the changed map names exactly the dirty attributes with their prior old values (null when none) |
| `Records.ReadProperty` | behaviors/MultipleLog.php:174 | reading `$record->name` yields the set value, null for an unset column, and fails for any other name |
| `Records.Record.constructor` | behaviors/MultipleLog.php:192 | a log record built from a row is new, holds exactly the row, and has no old values |
| `Records.Record.SetAttributes` | base/VekActiveRecord.php:147 | a listener's writes overwrite those attributes and leave the rest of the record as it was |
| `Records.Record.Assign` | behaviors/MultipleLog.php:142 | assigning a property succeeds exactly when the record has that attribute; the record is then updated at that name only, and unchanged otherwise |
| `Records.Record.AssignPrimaryKey` | base/VekActiveRecord.php:179-183 | every key column gets the id, the record is no longer new, and its attributes become its old ones, so nothing is dirty |
| `Records.AssignIdClean` | base/VekActiveRecord.php:179-183 | a record given its id holds the id on every key column and its other attributes as they were, has nothing dirty, reports an empty changed map, and is unchanged by a commit |
| `Records.Record.CommitDirty` | base/VekActiveRecord.php:226-232 | the record's new state is the commit of its old one, and the returned map is its changed map |
| `Records.CommitNames` | base/VekActiveRecord.php:227-232 | the per-name loop yields old values updated by the dirty ones, and the previous old value (or null) of each dirty name |
| `BulkWrite.AllColumnsSpec` | base/VekActiveRecord.php:113-116 | the scanned names are exactly the columns of some queued record |
| `BulkWrite.AttributeUnionSpec` | base/VekActiveRecord.php:113-123 | the union holds every queued record's columns once, in the order they are first met |
| `BulkWrite.PrimaryKeysSpec` | base/VekActiveRecord.php:117-119 | the batch key list is that of the first record that has keys, and empty only when no record has any |
| `BulkWrite.InsertRowSpec` | base/VekActiveRecord.php:141-152 | an insert row holds every non-key union name (the record's value, or null where the record lacks the column) and no key column |
| `BulkWrite.UpdateSlotsSpec` | base/VekActiveRecord.php:155-164 | an update tuple has one slot per union name in alias order, `NULL::type` for null, and otherwise the quoted value cast to the column type |
| `BulkWrite.PartitionSpec` | base/VekActiveRecord.php:150-167 | new records go to the insert rows and others to the update tuples, each in queue order, and together they account for every record |
| `BulkWrite.UpdateSqlSpec` | base/VekActiveRecord.php:199-218 | the SET list assigns exactly the union columns outside the key list, and WHERE pairs `t.pk` with `v.pk` for every key |
| `BulkWrite.SequentialIds` | base/VekActiveRecord.php:170-186 | the k-th new record gets `firstId + k` on every key column, ids increase in queue order, a record that was not new keeps its attributes, and every saved record is no longer new and has nothing dirty; an inserted record reports an empty changed map |
| `BulkWrite.WrittenMatchesSaved` | base/VekActiveRecord.php:150-232 | when the batch key list includes the record's own keys, every value the INSERT or UPDATE writes for an attribute the record had set becomes that attribute's old value |
| `MultipleActiveRecord.Added` | base/VekActiveRecord.php:67-74 | a list is appended in order, one truthy record is appended alone, a falsy argument adds nothing |
| `MultipleActiveRecord.FirstFailure` | base/VekActiveRecord.php:140-149 | the index of the first record that fails validation or is vetoed by its listeners (the queue length when none does) |
| `MultipleActiveRecord.ProcessedSpec` | base/VekActiveRecord.php:135-149 | every record is processed exactly when the queue is empty or the batch is allowed and no record fails; a record's listeners run only if every earlier record passed; a batch veto runs none |
| `MultipleActiveRecord.SaveOutcome` | base/VekActiveRecord.php:103-237 | the batch is saved exactly when it is allowed and every record passes |
| `MultipleActiveRecord.OutcomeAborted` | base/VekActiveRecord.php:135-149 | a vetoed or failed batch issues no statement, reports no changes, and leaves each record as its listeners (if they ran) left it |
| `MultipleActiveRecord.OutcomeSaved` | base/VekActiveRecord.php:170-236 | a saved batch issues the insert of the new records' rows and the update of the others, and leaves every record saved with the ids handed back |
| `MultipleActiveRecord.OutcomeCommitted` | base/VekActiveRecord.php:179-232 | in a saved batch an inserted record reports an empty changed map and ends stamped with its id and clean; any other record reports its dirty attributes and commits them |
| `MultipleActiveRecord.SavedStatesSpec` | base/VekActiveRecord.php:179-232 | the final state and changed map of each record: stamped and clean with an empty map when new, committed with its changed map otherwise |
| `MultipleActiveRecord.InsertRowsAsWritten` | base/VekActiveRecord.php:141-152 | as written, each new record's insert row is built from its state before its listeners ran |
| `MultipleActiveRecord.ListenerWritesLost` | base/VekActiveRecord.php:141-147 | a listener stamping the time: the row inserted keeps the old time while the saved record records the new one as stored |
| `MultipleActiveRecord.UpdateTuplesAsWritten` | base/VekActiveRecord.php:141-165 | as written, each stored record's update tuple is built from its state before its listeners ran |
| `MultipleActiveRecord.ListenerUpdateLost` | base/VekActiveRecord.php:141-162 | a listener stamping the time on a stored record: the tuple carries the old time while the saved record records the new one as stored |
| `MultipleActiveRecord.ListenerWritesUpdated` | base/VekActiveRecord.php:155-165 | with tuples built after the listeners, a stored record's tuple carries each value its listeners wrote to one of its columns, in that column's slot |
| `MultipleActiveRecord.ListenerWritesInserted` | base/VekActiveRecord.php:141-152 | with rows built after the listeners, a new record's row holds every value its listeners wrote to a non-key column |
| `MultipleActiveRecord.SaveQueue.constructor` | base/VekActiveRecord.php:51-61 | a class starts with an empty queue and empty insert and update groups |
| `MultipleActiveRecord.SaveQueue.AddSaveMultiple` | base/VekActiveRecord.php:67-74 | the queue grows by exactly what the argument adds, at its end |
| `MultipleActiveRecord.SaveQueue.GetSaveMultiple` | base/VekActiveRecord.php:80-83 | returns the queue |
| `MultipleActiveRecord.SaveQueue.ClearSaveMultiple` | base/VekActiveRecord.php:88-91 | the queue is empty afterwards and nothing else changes |
| `MultipleActiveRecord.SaveQueue.SavedMultiple` | base/VekActiveRecord.php:311-316 | the end-of-batch step leaves the queue empty |
| `MultipleActiveRecord.SaveQueue.SaveMultiple` | base/VekActiveRecord.php:103-237 | the result, the statements, the changed maps, the insert and update groups and every queued record's new state are those of `SaveOutcome` on the queue extended by the argument; the queue is emptied exactly when the batch was saved |
| `MultipleActiveRecord.SaveQueue.SaveQueued` | base/VekActiveRecord.php:109-236 | the same, for a queue already extended |
| `MultipleActiveRecord.Flush` | base/VekActiveRecord.php:109-234 | the column scan, the batch veto, the per-record pass and the writes together produce `SaveOutcome` |
| `MultipleActiveRecord.Run` | base/VekActiveRecord.php:140-234 | past the veto, the pass and the writes produce `SaveOutcome` |
| `MultipleActiveRecord.Prepare` | base/VekActiveRecord.php:140-168 | the per-record loop stops at the first failure; the records before it are sorted, by their post-listener states, into insert rows, update tuples and the two groups |
| `MultipleActiveRecord.RunHooks` | base/VekActiveRecord.php:140-149 | the records before the first failure carry their listeners' writes; the failing record carries them only if it passed validation; later records are untouched |
| `MultipleActiveRecord.SortSpec` | base/VekActiveRecord.php:150-167 | sorting the queue yields the new records' rows, the others' tuples and the two groups, each in queue order |
| `MultipleActiveRecord.Sort` | base/VekActiveRecord.php:150-167 | the sorting loop's accumulators equal the prefix specification for the whole queue |
| `MultipleActiveRecord.Finish` | base/VekActiveRecord.php:170-234 | a passed batch issues the insert and the update, and leaves every record in its saved state with its changed map |
| `MultipleActiveRecord.Complete` | base/VekActiveRecord.php:170-234 | after every record passed, the writes and the commit produce the statements, changed maps and record states of `SaveOutcome` |
| `MultipleActiveRecord.WriteInserts` | base/VekActiveRecord.php:170-186 | the insert carries the rows of the new records only when there are any, and each new record gets its id and is marked saved, so it has nothing dirty |
| `MultipleActiveRecord.WriteUpdates` | base/VekActiveRecord.php:188-222 | an update is issued only when some record was not new, with the SET list filtered by the key list of the record last visited |
| `MultipleActiveRecord.SetListKeysFrom` | base/VekActiveRecord.php:179-205 | the key list that filters SET is that of the last new record, or of the last record when none is new |
| `MultipleActiveRecord.NothingStamped` | base/VekActiveRecord.php:170-186 | without insert rows no record gets an id |
| `MultipleActiveRecord.StampIds` | base/VekActiveRecord.php:175-185 | every new record gets its id by insert rank and becomes clean with nothing dirty, and other records are untouched |
| `MultipleActiveRecord.AssignIds` | base/VekActiveRecord.php:176-185 | the k-th record of the insert group gets `first + k`, is no longer new and has its attributes as its old ones |
| `MultipleActiveRecord.CommitAll` | base/VekActiveRecord.php:225-234 | every record is committed, and the k-th changed map is that of the k-th record |
| `MultipleActiveRecord.ComposeUpdate` | base/VekActiveRecord.php:215-218 | the statement text is the UPDATE ... FROM (VALUES ...) specification |
| `MultipleActiveRecord.CollectColumns` | base/VekActiveRecord.php:113-120 | the scan yields every record's columns in queue order and the batch key list |
| `MultipleActiveRecord.BuildTuple` | base/VekActiveRecord.php:155-164 | the tuple built slot by slot is the record's update tuple |
| `MultipleActiveRecord.BuildSetList` | base/VekActiveRecord.php:199-208 | the loop builds one SET clause per union name outside the key list, in order |
| `MultipleActiveRecord.BuildWhereList` | base/VekActiveRecord.php:211-213 | the loop builds one key match per primary key, in order |
| `LogBehavior.LoggedFilter` | behaviors/Log.php:135-148 | the filter is absent exactly when no attribute name is given |
| `LogBehavior.LoggedFilterRoundTrip` | behaviors/Log.php:137-152 | the filter literal lists exactly the given names |
| `LogBehavior.Percent` | behaviors/Log.php:161 | the random fraction, at 12 decimal places, is at most one |
| `LogBehavior.NewVersion` | behaviors/Log.php:160-162 | a version never exceeds 9223372036854775806 |
| `LogBehavior.NewVersionRange` | behaviors/Log.php:160-162 | versions grow with the random draw, from 0 for the smallest draw to the bound for the largest |
| `LogBehavior.VersionText` | behaviors/Log.php:162-163 | the version written is all digits and denotes the version drawn |
| `LogBehavior.TallyFlag` | behaviors/Log.php:187-215 | after the loop the log flag is up exactly when it started up or some entry changed |
| `LogBehavior.TallyGrows` | behaviors/Log.php:187-215 | the changed list only grows, by names of changed entries |
| `LogBehavior.TallyCovers` | behaviors/Log.php:187-215 | every changed entry's name is listed |
| `LogBehavior.TallyToSave` | behaviors/Log.php:188-215 | every logged entry other than the time field gets a to-save slot, earlier slots stay, and the time field's slot is left as it was |
| `LogBehavior.TallyUnchanged` | behaviors/Log.php:202-211 | when no entry changed, the flag and the changed list are as they started |
| `LogBehavior.TallyListed` | behaviors/Log.php:205-208 | every listed name is that of a changed entry |
| `LogBehavior.TallyEntries` | behaviors/Log.php:188-215 | the loop's result is the tally over all entries |
| `LogBehavior.SaveTallySpec` | behaviors/Log.php:187-215 | the log flag is up exactly when some entry changed; the changed list names exactly the changed entries, each an attribute other than the time field |
| `LogBehavior.BeforeSaveUnchanged` | behaviors/Log.php:217-223 | with no change, nothing is stamped, no version is drawn and the save goes on |
| `LogBehavior.AfterTallyStamps` | behaviors/Log.php:217-220 | after a change the time is stamped on the record and in the to-save map, or the save fails when the time field is no property |
| `LogBehavior.RenewKeeps` | behaviors/Log.php:225-235 | the version step touches no other attribute or to-save slot |
| `LogBehavior.BeforeSaveVersion` | behaviors/Log.php:226-235 | on update the save fails as stale exactly when a stored version exists and differs as text; otherwise the record and the to-save map get the text of a new version within the bound |
| `LogBehavior.BeforeSaveNoVersionField` | behaviors/Log.php:235 | without a version field the save reads the empty property name and fails |
| `LogBehavior.Log.constructor` | behaviors/Log.php:47-85 | a behavior starts with the flag down and an empty changed list and to-save map |
| `LogBehavior.Log.Attach` | behaviors/Log.php:108-124 | the log class defaults to the owner's class name plus `Log`, and attaching fails exactly when that class does not exist |
| `LogBehavior.Log.SetNewVersion` | behaviors/Log.php:158-164 | the version field gets the decimal text of a new version, or the call fails when the record has no such attribute |
| `LogBehavior.Log.LogBeforeSave` | behaviors/Log.php:183-237 | the error, the record and the behavior's state afterwards are those of the before-save specification |
| `LogBehavior.Log.Stamp` | behaviors/Log.php:217-236 | the step after the tally agrees with its specification |
| `LogBehavior.Log.StampTime` | behaviors/Log.php:218-236 | stamping then the version check agree with their specification |
| `LogBehavior.Log.CheckVersion` | behaviors/Log.php:225-236 | the stale check and the new version agree with their specification |
| `LogBehavior.Log.LogAfterSave` | behaviors/Log.php:246-270 | without a logged change nothing happens; otherwise the to-save map gains the id under `docId`, loses `id` and gains the changed list, the log row is restricted to the log columns, and a failed log save is an error |
| `LogBehavior.AfterSaveRowContents` | behaviors/Log.php:258-265 | the log row holds only log columns: the owner's id under `docId`, no `id`, the brace literal of changed names, and every other logged value unchanged |
| `LogBehavior.SaveTallyAsWritten` | behaviors/Log.php:187-208 | as written, a save's changed list starts with every name listed by earlier saves |
| `LogBehavior.AsWrittenAccumulates` | behaviors/Log.php:187-208 | as written, the changed list is the earlier saves' list followed by this save's changes |
| `LogBehavior.ChangedListAccumulates` | behaviors/Log.php:208 | a record whose second save changes only `b` is logged as changing `a` and `b` as written, and `b` alone when corrected |
| `MultipleLog.ChangedBy` | behaviors/MultipleLog.php:179-185 | the author is null in a console application and for a guest, and otherwise the user's id |
| `MultipleLog.Participation` | behaviors/MultipleLog.php:77-82 | a record takes part in the stale check exactly when it is new and has no version field |
| `MultipleLog.Checkable` | behaviors/MultipleLog.php:77-82 | the records a stale check could judge are saved records that have a version field |
| `MultipleLog.ParticipationInverted` | behaviors/MultipleLog.php:79-82 | no record that takes part could be judged, and none that takes part has a version |
| `MultipleLog.StaleCheckSkipsSavedRecords` | behaviors/MultipleLog.php:80-82 | of a saved versioned record and a new one, only the new one takes part |
| `MultipleLog.LogToSaveMultiple` | behaviors/MultipleLog.php:67-127 | the participants are the queue's participating records in order; the query runs exactly when there is one; the batch fails as stale exactly when the query ran and found a mismatch |
| `MultipleLog.ParticipantsAreNew` | behaviors/MultipleLog.php:77-89 | a queued record is a participant exactly when it is new and unversioned |
| `MultipleLog.EntryNames` | behaviors/MultipleLog.php:136 | the logged entries read as names, one per entry, exactly when none is a closure |
| `MultipleLog.DiffSpec` | behaviors/MultipleLog.php:136-139 | an attribute is in the diff exactly when it is tracked, set, and has no old value or one whose text differs; the diff agrees with the dirty map |
| `MultipleLog.InOrder` | behaviors/MultipleLog.php:140 | the changed names are exactly the columns in the diff |
| `MultipleLog.BeforeSaveMultipleChanged` | behaviors/MultipleLog.php:133-146 | the flag goes up and the time is stamped exactly when some tracked attribute other than the time field differs, and the changed list names exactly those attributes |
| `MultipleLog.BeforeSaveMultipleVersion` | behaviors/MultipleLog.php:148-152 | with a version field, a new version is written whether or not anything changed |
| `MultipleLog.LogBeforeSaveMultiple` | behaviors/MultipleLog.php:133-153 | the error, the record and the behavior's flag and changed list afterwards are those of the before-save specification |
| `MultipleLog.StampMultiple` | behaviors/MultipleLog.php:140-152 | after the diff, the changed list, the time stamp, the flag and the version step agree with their specification |
| `MultipleLog.RenewVersionMultiple` | behaviors/MultipleLog.php:150-152 | the closing version step agrees with its specification |
| `MultipleLog.ReadAll` | behaviors/MultipleLog.php:174 | all logged names are read exactly when each is a property of the record, and each maps to what reading it yields |
| `MultipleLog.RowMultipleContents` | behaviors/MultipleLog.php:174-185 | the row holds what `id` read under `doc_id` (null when `id` is not logged), no `id`, the brace literal of changed names, the author, and every other logged value |
| `MultipleLog.LogAfterSaveMultiple` | behaviors/MultipleLog.php:162-196 | without a logged change nothing happens; otherwise a new log record holding the row joins the end of the log queue, or the construction fails on a key that is no log column |
| `MultipleLog.AfterSaveMultipleAsWritten` | behaviors/MultipleLog.php:162-179 | as written, a logged change fails as the row does when a logged name cannot be read, and otherwise always ends in an unknown-property error on `changedByField` |
| `MultipleLog.AsWrittenFailsWhereRowBuilds` | behaviors/MultipleLog.php:174-192 | wherever the corrected handler builds a row the code as written fails on `changedByField`, and where the row cannot be built both fail with the same error |
| `MultipleLog.ChangedByAsWritten` | behaviors/MultipleLog.php:174-185 | for a logged change as written the error is raised; with the field declared, the row is built |
| `MultipleLog.LogSavedMultiple` | behaviors/MultipleLog.php:198-207 | the log queue is saved as a batch with no new models and validation on, and is emptied exactly when that batch was saved |

## Left out

- Event wiring is not modelled: `events()`, `Event::on` in `MultipleLog::attach`, and the triggers in `toSaveMultiple`, `beforeSaveMultiple` and `afterSaveMultiple`. The model calls each handler directly, and the listeners' effects are inputs.
- `afterSaveMultiple` is always called with `$insert = false` (base/VekActiveRecord.php:230). This matters only for which event name fires, and event names are not modelled.
- `logInit` (behaviors/Log.php:171-174) is a call to `setNewVersion` at record creation. `Log.SetNewVersion` models it.
- The validators that `attach` adds for the version field (behaviors/Log.php:117-122) are not modelled. Validation results are inputs.
- The database is not modelled: the batch INSERT, the UPDATE, `getLastInsertID`, the stale query of `logBeforeSave`, the log record's `save()`, and the query of `logToSaveMultiple`. Their results are inputs.
- The SQL text of `logToSaveMultiple` is not modelled. It reads properties of an array and lacks a space before `WHERE`, so only its participation filter and its `faultyCount > 0` decision are modelled.
- `Yii::$app` (console or web, the user) is the `Actor` input. `class_exists` is membership in a given set of class names.
- `mt_rand()` and the clock are inputs. The time format and `returnTimeStamp` are left out, since the time is an opaque string.
- Quoting and `quoteSql` are a `quote` function input. The `[[...]]` and `{{%...}}` placeholders are kept as literal text.
- `LogBehavior.TallyEntries`: the closure values of `logAttributes` come from a `results` input. The source calls each closure without arguments.
- `Php.LooseEquals`: covers null, integers and integer-like strings. Floats, whitespace-padded and exponent numeric strings are not modelled.
- `MultipleActiveRecord.SaveQueue.SaveMultiple`: requires the queued records to be distinct objects. The source accepts the same record twice, and then the aliasing of one record at two queue positions is not captured.
- `MultipleLog.InOrder`: lists changed names in column order. The source uses the order in which attributes were set on the record.
- `MultipleLog.LogAfterSaveMultiple`: when several row keys are not log columns, it reports one of them. The source reports the first in row order.
- `LogBehavior.Log.LogAfterSave`: restricts the row to the log table's columns. Yii's safe-attribute filtering in `setAttributes` is not modelled.
- The static queue `$_models` is declared once in the base class, so all subclasses share it. The model gives each class its own `SaveQueue`. So it does not capture that the log class's `saveMultiple`, run from `savedMultiple` before the queue is cleared, would see the owner's records again.
- Notices for undefined indexes and variables are not modelled. Where PHP reads such a value as null, the model does too.
- Integer casts of the database's ids (`(int)`) are not modelled as machine-width; ids are unbounded.
- `MultipleActiveRecord.SaveOutcome`: builds the insert rows and update tuples from the records' states after their listeners ran. This is the corrected behaviour of the first two Findings rows; the source reads the values before the listeners (base/VekActiveRecord.php:141).
- `MultipleActiveRecord.OutcomeSaved`: states the rows and tuples of the corrected behaviour (first two Findings rows), not those the source writes.
- `MultipleActiveRecord.SaveQueue.SaveMultiple`: writes rows and tuples from post-listener states, the corrected behaviour of the first two Findings rows.
- `MultipleActiveRecord.SaveQueue.SaveQueued`: writes rows and tuples from post-listener states, the corrected behaviour of the first two Findings rows.
- `MultipleActiveRecord.Flush`: writes rows and tuples from post-listener states, the corrected behaviour of the first two Findings rows.
- `MultipleActiveRecord.Run`: writes rows and tuples from post-listener states, the corrected behaviour of the first two Findings rows.
- `MultipleActiveRecord.Prepare`: sorts the records by their post-listener states, the corrected behaviour of the first two Findings rows.
- `MultipleActiveRecord.Finish`: writes rows and tuples from post-listener states, the corrected behaviour of the first two Findings rows.
- `MultipleActiveRecord.Complete`: writes rows and tuples from post-listener states, the corrected behaviour of the first two Findings rows.
- `LogBehavior.Log.LogBeforeSave`: starts every save's changed list empty, the corrected behaviour of the third Findings row; as written the list accumulates across saves (`SaveTallyAsWritten`).
- `MultipleLog.LogAfterSaveMultiple`: builds the row where the source fails on the undeclared `changedByField` (behaviors/MultipleLog.php:179), the corrected behaviour of the fourth Findings row (`AfterSaveMultipleAsWritten`).

## Findings

| source | as written | input that shows it | evidently intended | confidence | as-written member | corrected member |
|---|---|---|---|---|---|---|
| base/VekActiveRecord.php:141-152 | each record's values are read before its `beforeSaveMultiple` listeners run, so their writes (the time stamp, the new version) are not inserted, yet the commit records them as stored | a new record with `atime = t0` whose listener writes `atime = t1`: the row holds `t0`, the saved record's old `atime` is `t1` (`ListenerWritesLost`) | build the row after the listeners | medium (not executed) | `MultipleActiveRecord.InsertRowsAsWritten` | `MultipleActiveRecord.ListenerWritesInserted` |
| base/VekActiveRecord.php:141-162 | the same early read feeds the update tuples, so a stored record's listener writes are not updated, yet the commit records them as stored | a stored record with `atime = t0` whose listener writes `atime = t1`: the tuple's `atime` slot holds `t0`, the saved record's old `atime` is `t1` (`ListenerUpdateLost`) | build the tuple after the listeners | medium (not executed) | `MultipleActiveRecord.UpdateTuplesAsWritten` | `MultipleActiveRecord.ListenerWritesUpdated` |
| behaviors/Log.php:187-208 | `_changed_attributes` is never emptied, so each save appends to the list of earlier saves on the same object | a record saved twice, first changing `a`, then only `b`: the second log lists `{a,b}` (`ChangedListAccumulates`) | start every save with an empty list | high (not executed) | `LogBehavior.SaveTallyAsWritten` | `LogBehavior.SaveTallySpec` |
| behaviors/MultipleLog.php:179 | reads `$this->changedByField`, which neither behavior declares, so Yii throws an unknown-property exception for every logged change | any record whose batch save changed a logged attribute (`ChangedByAsWritten`) | declare `changedByField` with default `changed_by`, as the class doc promises | high (not executed) | `MultipleLog.AfterSaveMultipleAsWritten` | `MultipleLog.RowMultipleContents` |
