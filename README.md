# Boardly data layer and form logic, modelled in Dafny

Boardly is a single-user kanban board that keeps everything in the
browser's local storage. This project models its core:

- **The data layer** (`lib/local-store.ts`) is modelled by the class
  `LocalStore.Store`.
  - It has four storage slots: the task list, the activity log, the list of
    known user names, and the profile.
  - A slot is `Missing`, `Unparseable` or `Stored(data)`. Reading a slot that
    is missing or does not parse gives the empty list.
  - `crypto.randomUUID()` and `new Date().toISOString()` are the
    environment's functions `uuid(n)` and `clock(n)`. Each store counts how
    many ids it has drawn and how many times it has read the clock, so every
    contract states exactly which id and timestamp an operation uses.
- **The task store** covers `getAll`, `getById`, `getByStatus`,
  `getTopLevel`, `getChildren`, `create`, `update`, `delete`, `archive`,
  `reorder`, `removeDefaultTasks` and `createOnboardingTasks`.
- **The activity store** covers `getAll`, `getRecent`, `getByTaskId` and
  `create`.
- **The user store** covers the profile (`getCurrentUser`,
  `setCurrentUser`, `clearUser`, `hasCompletedOnboarding`) and the
  name list (`getAll`, `add`, `remove`), including the migration of
  the older user-object format.
- **Tasks and updates** are JavaScript objects with ordered keys (`Values`).
  A value is a string, a boolean, a number, a string array, `null` or
  absent. An update is merged with object spread.
  - `update` emits one activity entry per changed key, in key order.
  - The key-to-event table lives in `ChangeLog`.
- **The UI helpers** that hold logic:
  - the task details dialog: the change set that "Save" sends, editing
    dependencies and assignees, the status label, initials, and the activity
    sentences (`TaskDetails`);
  - the new-task dialog: column order, the record handed to `create`,
    assignees, tags and dependencies (`NewTask`);
  - the board: column filter and stable sort, labels, and the list updaters
    (`KanbanBoard`);
  - the settings and onboarding pages: import and export, avatar
    resolution, the save button, and onboarding's two steps (`DataTransfer`,
    `ProfileForms`).
- **String helpers**: `Text` and `CommaLists` model JavaScript's `trim`,
  `split`, `join` and `toUpperCase`, and the comma-separated lists the
  dialogs edit.

Where the code and its documentation disagree, the model follows the code:

- `taskStore.getAll` only creates empty slots. It never seeds tasks.
- Seeding happens only in `createOnboardingTasks`, and only on an empty list.
- `update` can overwrite `id`, because the spread does not protect it.
- Nothing makes `created_at` equal `updated_at`, because the clock is read
  separately for each.

## Model

| member | source | states |
|---|---|---|
| LocalStore.Load | lib/local-store.ts:55-63 | a stored slot reads as its array; a missing or unparseable slot reads as `[]` |
| LocalStore.InitList | lib/local-store.ts:12-20 | initialisation writes `[]` into a missing slot and leaves any other slot, and what it reads as, unchanged |
| LocalStore.MigrateEntries | lib/local-store.ts:34-37 | the migrated list holds only the truthy names (any truthy value, not only strings) other than "Unknown User"; migration fails exactly when some entry is null |
| LocalStore.IsLegacy | lib/local-store.ts:30-33 | the older format: a non-empty array whose first element is an object with a `name` property |
| LocalStore.LegacyName | lib/local-store.ts:36 | `user.name \|\| user.username \|\| "Unknown User"` for one element; null or undefined throws |
| LocalStore.InitUsers | lib/local-store.ts:22-50 | a missing or unparseable slot becomes `["Local User"]`; a stored list not in the older format is kept as it is; an older-format list with a null element becomes `["Local User"]`; any other older-format list becomes its kept names, or `["Local User"]` when none remain; the result is never in the older format |
| LocalStore.InitUsersIdempotent | lib/local-store.ts:22-50 | initialising the users slot twice is initialising it once |
| LocalStore.MigrationKeepsNames | lib/local-store.ts:30-43 | an older-format list reads back as its entries' names, or as `["Local User"]` when none remain |
| LocalStore.MigrateMatchesNames | lib/local-store.ts:35-37 | the map/filter of the migration equals the recursive name list |
| LocalStore.AddName | lib/local-store.ts:439-447 | the name is present afterwards; old entries stay in front; nothing but the name is added; an existing name changes nothing; no repeats are introduced |
| LocalStore.AddNameIdempotent | lib/local-store.ts:439-447 | adding a name twice is adding it once |
| LocalStore.RemoveName | lib/local-store.ts:449-454 | every occurrence of the name is gone, every other entry stays as often as it was listed, and order is kept |
| LocalStore.RemoveAbsentName | lib/local-store.ts:449-454 | removing a name that is not listed leaves the list unchanged |
| LocalStore.RemoveAfterAdd | lib/local-store.ts:439-454 | removing right after adding gives the same list as removing alone |
| LocalStore.FirstIndexWithId | lib/local-store.ts:128-129 | the found index holds the id and no earlier task does; when none is found, no task holds it |
| LocalStore.FindById | lib/local-store.ts:77-80 | a task is found exactly when one with the id exists; the found task holds the id and is the first such task in the list |
| LocalStore.ByStatus | lib/local-store.ts:82-85 | exactly the non-archived tasks with the status, each as often as listed, in store order |
| LocalStore.TopLevel | lib/local-store.ts:87-90 | exactly the non-archived tasks with a falsy `parent_id`, each as often as listed, in store order |
| LocalStore.Children | lib/local-store.ts:92-95 | exactly the tasks whose `parent_id` is the given id, archived ones included, each as often as listed, in store order |
| LocalStore.IndexOf | lib/local-store.ts:276 | `indexOf`: the first position holding the id, or none when no position holds it |
| LocalStore.Reordered | lib/local-store.ts:273-280 | same length; each task is repositioned independently |
| LocalStore.ReorderedFields | lib/local-store.ts:273-280 | a listed task's `order` becomes the first index of its id; all other fields and all unlisted tasks are unchanged |
| LocalStore.WithoutDefaults | lib/local-store.ts:282-286 | a task whose tags have no `includes` makes the filter throw; otherwise exactly the tasks with none of the default tags are kept |
| LocalStore.KeptTasksHaveNoDefaultTag | lib/local-store.ts:284-285 | no kept task with an array of tags carries welcome, project or onboarding |
| LocalStore.SliceTo | lib/local-store.ts:384 | `slice(0, end)` for positive and negative `end`: a prefix of the stated length |
| LocalStore.Instant | lib/local-store.ts:383 | `new Date(s).getTime()` for `toISOString` timestamps: their digits read as one number |
| LocalStore.NewestFirst | lib/local-store.ts:383 | the sort key of `time(b) - time(a)`: later entries first |
| Sorting.SortedPrefix | lib/local-store.ts:383-384 | a prefix of a sorted list is sorted, is drawn from it, and ranks no lower than what it leaves out |
| LocalStore.Recent | lib/local-store.ts:380-385 | newest first, drawn from the log, `limit` long or the whole log, and no entry left out is newer than an entry kept |
| LocalStore.ByTaskId | lib/local-store.ts:387-392 | newest first; exactly the entries of the task, each as often as logged |
| LocalStore.ByTaskIdKeepsLoggingOrder | lib/local-store.ts:387-392 | entries with the same timestamp keep their logging order (the sort is stable) |
| LocalStore.Entry | lib/local-store.ts:394-405 | an entry carries the event type of its payload, the id, the task id, the task name and the time, and user "local-user" |
| LocalStore.StampedFields | lib/local-store.ts:99-104 | the created task has the fresh id and the two timestamps, overriding any given; every other field is the input's |
| LocalStore.Stamped | lib/local-store.ts:99-104 | `{...task, id, created_at, updated_at}` (what it holds is StampedFields) |
| LocalStore.DeleteDropsExactlyTheId | lib/local-store.ts:255 | after the filter no task holds the id, every other task stays, and the list is shorter when the id existed |
| LocalStore.OnboardingTaggedIsDefault | lib/local-store.ts:282-286 | a task tagged onboarding is a default task |
| LocalStore.SeededTasksAreDefaults | lib/local-store.ts:306-349 | the two seeded tasks are removed by `removeDefaultTasks`, sit in the todo and in-progress columns, are top level, and have orders 0 and 1 |
| LocalStore.TodoThenInProgress | lib/local-store.ts:282-298 | two non-archived, top-level default tasks, one todo and one in progress, are both removed by the filter, each forms its own column, and both are top level |
| LocalStore.WelcomeTaskFields | lib/local-store.ts:307-327 | the welcome task is a default task with the drawn id, in the todo column at order 0, not archived and top level |
| LocalStore.ProjectTaskFields | lib/local-store.ts:328-349 | the project task is a default task with the drawn id, in the in-progress column at order 1, not archived and top level |
| LocalStore.SeedLogsNameSeeds | lib/local-store.ts:355-369 | two entries are logged, each under its task's id, with the next two uuids |
| LocalStore.UpdatePending | lib/local-store.ts:234-245 | one entry per change, each under the task id and the updated task's name |
| LocalStore.CreatedFor | lib/local-store.ts:355-369 | one "Task Created" entry per seeded task, in order |
| LocalStore.LogsFor | lib/local-store.ts:234-245 | one logged entry per pending entry |
| LocalStore.LogsForAt | lib/local-store.ts:234-245 | the i-th logged entry carries the i-th id and clock reading |
| LocalStore.UpdateLogs | lib/local-store.ts:142-245 | the number of entries `update` logs is the number of changed keys |
| LocalStore.ArchiveOutcome | lib/local-store.ts:269-271 | an archived task has `archived: true`; one "Task Archived" entry is logged unless the task already was archived |
| LocalStore.Store.constructor | lib/local-store.ts:1-6 | a store over given slots, with no ids drawn and no clock reads yet |
| LocalStore.Store.InitializeDefaultData | lib/local-store.ts:9-52 | missing slots become empty lists and the users slot is migrated; what every slot reads as is unchanged |
| LocalStore.Store.NextId | lib/local-store.ts:100 | the next uuid is drawn |
| LocalStore.Store.Now | lib/local-store.ts:101 | the next clock reading is taken |
| LocalStore.Store.GetAll | lib/local-store.ts:72-75 | the stored tasks; only initialisation is written |
| LocalStore.Store.GetById | lib/local-store.ts:77-80 | the first task with the id, or none |
| LocalStore.Store.GetByStatus | lib/local-store.ts:82-85 | the column of the status, by ByStatus |
| LocalStore.Store.GetTopLevel | lib/local-store.ts:87-90 | the top-level tasks, by TopLevel |
| LocalStore.Store.GetChildren | lib/local-store.ts:92-95 | the children, by Children |
| LocalStore.Store.LogActivity | lib/local-store.ts:394-405 | exactly one entry is appended, under a fresh id |
| LocalStore.Store.LogEach | lib/local-store.ts:234-245 | the log grows by the entries for the pending list, in order, with consecutive ids and clock readings; nothing else changes |
| LocalStore.Store.GetActivities | lib/local-store.ts:375-378 | the stored log |
| LocalStore.Store.GetRecent | lib/local-store.ts:380-385 | the log by Recent: the `limit` newest entries, newest first |
| LocalStore.Store.GetByTaskId | lib/local-store.ts:387-392 | the log by ByTaskId |
| LocalStore.Store.Create | lib/local-store.ts:97-124 | exactly one task is appended, stamped with a fresh id and clock times; existing tasks are unchanged; exactly one "Task Created" entry is appended |
| LocalStore.Store.Update | lib/local-store.ts:126-248 | an unknown id fails with "Task not found" before anything is written; otherwise only the first task with the id is replaced by the merge, and the log grows by one entry per changed key |
| LocalStore.Store.Delete | lib/local-store.ts:250-267 | an unknown id fails and logs nothing; otherwise every task with the id is removed and one "Task Deleted" entry is logged |
| LocalStore.Store.Archive | lib/local-store.ts:269-271 | the update `{archived: true}` (its meaning is ArchiveOutcome) |
| LocalStore.Store.Reorder | lib/local-store.ts:273-280 | the tasks are rewritten by Reordered and no activity is written |
| LocalStore.Store.RemoveDefaultTasks | lib/local-store.ts:282-298 | the kept tasks are written and one "Default Tasks Removed" entry is logged under "system"; a tags value without `includes` throws before any write |
| LocalStore.Store.CreateOnboardingTasks | lib/local-store.ts:300-370 | a non-empty list is left alone; an empty one gets the two seeded tasks and one "Task Created" entry for each |
| LocalStore.Store.GetUsers | lib/local-store.ts:433-437 | the user names after initialisation |
| LocalStore.Store.AddUser | lib/local-store.ts:439-447 | the list becomes AddName of the old one; a listed name writes nothing |
| LocalStore.Store.RemoveUser | lib/local-store.ts:449-454 | the list becomes RemoveName of the old one, and the name is no longer listed |
| LocalStore.Store.GetCurrentUser | lib/local-store.ts:408-416 | the stored profile, or none when the slot is missing or unparseable |
| LocalStore.Store.SetCurrentUser | lib/local-store.ts:418-421 | the profile reads back as the one set |
| LocalStore.Store.ClearUser | lib/local-store.ts:427-430 | the profile slot is removed |
| LocalStore.Store.HasCompletedOnboarding | lib/local-store.ts:423-425 | true exactly when a profile is stored |
| ChangeLog.HasChanged | lib/local-store.ts:145-151 | JSON-text inequality for arrays and `!==` otherwise amount to value inequality |
| ChangeLog.AsList | lib/local-store.ts:187-188 | a non-array value counts as an empty assignee list |
| ChangeLog.Classify | lib/local-store.ts:162-230 | the key-to-event table: status, priority, dates, archived, name/title, description and assignees have their own events; any other key gives "Task Updated" |
| ChangeLog.AssigneeEvents | lib/local-store.ts:186-208 | empty to non-empty is "Assignee Added" with the new list; non-empty to empty is "Assignee Removed" with the old list; anything else is "Assignee Changed" carrying the old and the new value |
| ChangeLog.DeriveKeys | lib/local-store.ts:142-231 | one payload per key whose value differs, in key order: the i-th payload classifies the i-th such key with its stored and new value |
| ChangeLog.Derive | lib/local-store.ts:142-231 | the i-th payload classifies the i-th changed key of the update with its stored and new value, and there is one payload per changed key |
| ChangeLog.ChangedKeys | lib/local-store.ts:142-160 | exactly the update's keys whose value differs from the stored one, in key order |
| ChangeLog.UnchangedKeysLogNothing | lib/local-store.ts:145-160 | keys whose value did not change log nothing |
| ChangeLog.Merge | lib/local-store.ts:131-136 | `updated_at` is the clock reading; every other key takes the update's value when present, else the stored one; stored keys keep their order |
| ChangeLog.ReapplyLogsNothing | lib/local-store.ts:131-160 | applying the same update again logs nothing, unless the update itself sets `updated_at` |
| ChangeLog.EmptyUpdateLogsNothing | lib/local-store.ts:142-160 | an empty update logs nothing |
| ChangeLog.ArchiveLogs | lib/local-store.ts:269-271 | `{archived: true}` logs one "Task Archived" unless the task was already archived with `true` |
| ChangeLog.DeriveKeysSkipsUnchanged | lib/local-store.ts:142-231 | only changed keys contribute payloads |
| ChangeLog.DeriveKeysAgree | lib/local-store.ts:142-231 | updates that agree on the keys give the same payloads |
| KanbanBoard.TasksByStatus | components/kanban-board.tsx:49-53 | exactly the non-archived tasks of the status, each as often as listed, sorted by `order \|\| 0` as subtraction converts it to a number |
| KanbanBoard.OrderRank | components/kanban-board.tsx:52 | a falsy order ranks 0, a number ranks as itself and `true` ranks 1 |
| KanbanBoard.OrderTextRank | components/kanban-board.tsx:52 | an order written as the text of an integer, or a one-item array of that text, ranks as that integer |
| KanbanBoard.ToNumber | components/kanban-board.tsx:52 | `Number(v)`: a number is itself, `true` 1, `false` and `null` 0, `[]` 0, and other arrays read as their comma-joined text |
| KanbanBoard.StringToNumber | components/kanban-board.tsx:52 | `Number(s)` for integer text: blank text is 0 and a run of digits is its value |
| KanbanBoard.ColumnIsStable | components/kanban-board.tsx:52 | tasks of equal order keep their list order |
| KanbanBoard.EqualOrdersKeepListOrder | components/kanban-board.tsx:49-53 | when all orders are equal the column is the filtered list as it stands |
| KanbanBoard.FindLabel | components/kanban-board.tsx:60-63 | `find`: a label exactly when some column has the id, and then that column's label |
| KanbanBoard.StatusLabel | components/kanban-board.tsx:13-18 | the four configured labels; any other status is shown as itself |
| KanbanBoard.AddCreated | components/kanban-board.tsx:158-160 | the created task is appended at the end and nothing else changes |
| KanbanBoard.CreatedShowsInColumn | components/kanban-board.tsx:158-160 | a created, non-archived task appears in its column after the tasks already there |
| KanbanBoard.ReplaceUpdated | components/kanban-board.tsx:169-171 | same length; exactly the entries with the updated id are replaced |
| KanbanBoard.ReplaceUpdatedAt | components/kanban-board.tsx:169-171 | with distinct ids only the matching entry changes |
| KanbanBoard.ReplaceUnknownId | components/kanban-board.tsx:169-171 | an id on no task leaves the board unchanged |
| CommaLists.Parse | components/task-details-dialog.tsx:731 | split on ",", trim, drop empty pieces: the list holds only non-empty, trimmed, comma-free names |
| CommaLists.ParseConcat | components/task-details-dialog.tsx:731 | parsing `a + "," + b` parses the two sides in turn |
| CommaLists.ParseCommaSpace | components/task-details-dialog.tsx:733 | parsing `a + ", " + b` parses the two sides in turn |
| CommaLists.ParseJoin | components/new-task-dialog.tsx:351 | joining trimmed, comma-free names with ", " and parsing again gives back the non-empty names |
| CommaLists.AppendRaw | components/task-details-dialog.tsx:733 | `current + ", " + item`, or the item alone when the list reads as empty: reads back as the old names plus the item |
| CommaLists.AppendNormalised | components/new-task-dialog.tsx:343-353 | the parsed entries plus the item, joined with ", ": reads back as the old entries plus the item |
| CommaLists.Remove | components/task-details-dialog.tsx:770-776 | split, trim, drop the entry, join with ", ": reads back as before with every occurrence of the entry gone |
| TaskDetails.Changes | components/task-details-dialog.tsx:149-166 | a key is in the change set exactly when its edited value differs from the original, and it carries the edited value |
| TaskDetails.ChangesKeys | components/task-details-dialog.tsx:151 | the change set lists the changed keys in the edited copy's order |
| TaskDetails.ChangeSet | components/task-details-dialog.tsx:150-166 | the `forEach` loop builds exactly Changes |
| TaskDetails.ChangeSetEnds | components/task-details-dialog.tsx:150-166 | the loop starts from an empty object and ends at Changes |
| TaskDetails.VisitKey | components/task-details-dialog.tsx:152-165 | one turn of the loop advances the change set by one key |
| TaskDetails.NoEditsNoChanges | components/task-details-dialog.tsx:149-169 | saving without edits sends an empty update |
| TaskDetails.ChangesLogSame | components/task-details-dialog.tsx:149-169 | sending only the changed keys logs the same entries as sending the whole edited copy |
| TaskDetails.ChangesMergeSame | components/task-details-dialog.tsx:149-169 | the stored task reads the same as if the whole edited copy had been merged |
| TaskDetails.SaveLogsLikeWholeEdit | components/task-details-dialog.tsx:149-169 | the entries logged for the change set equal those for the whole edited copy |
| TaskDetails.UpdateOutcome | lib/local-store.ts:126-247 | one `update` call as a value: it fails with "Task not found" exactly when no task has the id, and then writes, logs and draws nothing; otherwise the found task is replaced by one stamped with the next clock reading, with one entry, one uuid and one more clock reading per changed key |
| TaskDetails.SaveOutcome | components/task-details-dialog.tsx:168-172 | the two writes of `handleSave`: the second only after the first succeeded, against the list the first stored, with the logs of both |
| TaskDetails.WriteOnce | api/tasks.ts:29-31 | one call of `taskStore.update`, directly or through `taskApi.updateTask`, leaves the store as UpdateOutcome says |
| TaskDetails.Save | components/task-details-dialog.tsx:147-181 | the store ends as SaveOutcome of the change set says (result, task list, both writes' log entries, uuid and clock counters) and the users slot is initialised; the dialog's task takes on the edited copy exactly when both writes succeed |
| TaskDetails.SecondWriteOnlyRestamps | components/task-details-dialog.tsx:168-172 | when the change set sets neither `id` nor `updated_at`, saving logs and draws uuids exactly as one update does, uses one more clock reading, and stores the first write's task with only `updated_at` moved to that reading |
| TaskDetails.RenamingFailsSecondWrite | components/task-details-dialog.tsx:168-172 | a change set that renames the only task with the id makes the second write fail with "Task not found" after the first stored the renamed task and logged its changes |
| TaskDetails.DependencyIds | components/task-details-dialog.tsx:78-83 | the listed ids are trimmed, non-empty and comma-free; a falsy value lists none |
| TaskDetails.DependencyTasks | components/task-details-dialog.tsx:78-85 | exactly the loaded tasks whose id is listed, each as often as loaded, in task-list order |
| TaskDetails.AddDependency | components/task-details-dialog.tsx:728-736 | ignored exactly for an empty id, the task's own id or an id already listed |
| TaskDetails.AddDependencyParses | components/task-details-dialog.tsx:728-736 | an accepted id reads as one more entry at the end, and a list without repeats keeps none |
| TaskDetails.AddedDependencyResolves | components/task-details-dialog.tsx:78-85 | after adding, every loaded task with that id resolves as a dependency |
| TaskDetails.AssigneesText | components/task-details-dialog.tsx:361 | an array is joined with ", ", a string is kept, a falsy value is "" |
| TaskDetails.RegisterTyped | components/task-details-dialog.tsx:359-369 | each new typed name is added to the user store in order; tasks and activities are unchanged |
| TaskDetails.QuickAddAssignee | components/task-details-dialog.tsx:371-386 | a name already listed leaves the value unchanged; otherwise the value becomes the text with the name appended |
| TaskDetails.QuickAddParses | components/task-details-dialog.tsx:371-386 | the name reads as one more assignee at the end, and adding it twice is adding it once |
| TaskDetails.QuickAddLogsRemoval | components/task-details-dialog.tsx:371-386 | quick-adding to a non-empty array and saving logs "Assignee Removed" |
| TaskDetails.QuickAddAssigneeList | components/task-details-dialog.tsx:371-386 | the corrected update is an array: the listed names, plus the name when it is new |
| TaskDetails.QuickAddListLogsNoRemoval | components/task-details-dialog.tsx:371-386 | with the array form, adding a name logs "Assignee Added" or "Assignee Changed", never a removal |
| TaskDetails.FormatStatusLabel | components/task-details-dialog.tsx:219-227 | the four mapped labels; any other status is returned unchanged |
| TaskDetails.LabelsAgreeExceptTwo | components/task-details-dialog.tsx:219-227 | the dialog's and the board's labels agree except on "completed" and "up-next" |
| TaskDetails.FirstChars | components/task-details-dialog.tsx:325-326 | at most one character per word |
| TaskDetails.Initials | components/task-details-dialog.tsx:322-330 | "?" for an empty name; never more than two characters |
| TaskDetails.InitialsOfOneWord | components/task-details-dialog.tsx:322-330 | a one-word name gives its upper-cased first letter |
| TaskDetails.InitialsOfTwoWords | components/task-details-dialog.tsx:322-330 | a two-word name gives both upper-cased first letters, in order |
| TaskDetails.InitialsIgnoreLaterWords | components/task-details-dialog.tsx:322-330 | words after the second do not show |
| TaskDetails.BlankNameHasNoInitials | components/task-details-dialog.tsx:322-330 | a name of spaces only gives "", not "?" |
| TaskDetails.OrText | components/task-details-dialog.tsx:240 | `v \|\| fallback`: the fallback for a falsy value, the string otherwise |
| TaskDetails.DateText | components/task-details-dialog.tsx:244-245 | "Not set" for a falsy date, the formatted date otherwise |
| TaskDetails.FromTo | components/task-details-dialog.tsx:240 | the "... changed from ... to ..." sentence starts with its subject and "changed" |
| TaskDetails.ValueText | components/task-details-dialog.tsx:266 | a value inside a template literal: a string as is, booleans and numbers as written, an array comma-joined, `null` and `undefined` by name |
| TaskDetails.ListText | components/task-details-dialog.tsx:252-254 | an array joined with ", ", any other value as the template literal writes it |
| TaskDetails.Describe | components/task-details-dialog.tsx:237-271 | an unknown event type is returned verbatim |
| TaskDetails.DescribeFieldUpdate | components/task-details-dialog.tsx:266-267 | a "Task Updated" entry names the changed field |
| TaskDetails.DescribeMissingStatus | components/task-details-dialog.tsx:239-240 | a missing side of a status change reads "Unknown" |
| TaskDetails.DescribeMissingAssignee | components/task-details-dialog.tsx:251-252 | a missing side of an assignee change reads "Unassigned" |
| TaskDetails.DescribeLoggedEntry | components/task-details-dialog.tsx:237-271 | of the entries the stores write, only "Default Tasks Removed" is shown as its bare event type |
| TaskDetails.DescribeValueChangeSentence | components/task-details-dialog.tsx:239-263 | the value-change sentences differ from their event type |
| TaskDetails.DescribeDateChangeSentence | components/task-details-dialog.tsx:243-250 | the date-change sentences differ from their event type |
| TaskDetails.DescribeOtherSentence | components/task-details-dialog.tsx:253-267 | every other described event gets a sentence that differs from its type |
| NewTask.ColumnOrder | components/new-task-dialog.tsx:55 | the new order never exceeds the number of loaded tasks |
| NewTask.ColumnOrderIsColumnSize | components/new-task-dialog.tsx:126-127 | the order is the number of non-archived tasks with the status, the size of the board column it joins |
| NewTask.NewTaskRecordFields | components/new-task-dialog.tsx:129-138 | the title is name, else title, else ""; assignees default to `[]`; order, owner and timestamps are set; every other field is the form's |
| NewTask.NewTaskRecord | components/new-task-dialog.tsx:129-138 | `{...formData, title, assignees, order, user_id, created_at, updated_at}` (what it holds is NewTaskRecordFields) |
| NewTask.Submit | components/new-task-dialog.tsx:117-141 | the record goes to `create`: exactly one task and one "Task Created" entry are appended |
| NewTask.Prepare | components/new-task-dialog.tsx:124-138 | the record is built after two clock readings |
| NewTask.SubmittedTask | components/new-task-dialog.tsx:126-141 | the created task sits at its column's next position, with the form's status and the resolved title |
| NewTask.SubmittedTaskStamps | components/new-task-dialog.tsx:135-141 | the dialog's timestamps are overridden by `create`'s, and the id is the store's |
| NewTask.WithParsedList | components/new-task-dialog.tsx:87-90 | the field holds the comma-split, trimmed, non-empty pieces; every other field is unchanged |
| NewTask.QuickAdd | components/new-task-dialog.tsx:103-110 | the name is appended only when it is absent |
| NewTask.QuickAddKeepsDistinct | components/new-task-dialog.tsx:103-110 | quick-add keeps the list free of repeats, includes the name, and is idempotent |
| NewTask.RegisterAppends | components/new-task-dialog.tsx:92-101 | registering only appends: old users stay in front, each new name is present, every added entry is a typed name, and no repeats appear |
| NewTask.Register | components/new-task-dialog.tsx:92-101 | `userStore.add` once per non-empty typed name missing from the known list, in order (its properties are RegisterAppends) |
| NewTask.RegisterAssignees | components/new-task-dialog.tsx:92-101 | each non-empty name missing from the known list is added to the store, in order; tasks and activities are unchanged |
| NewTask.AddDependency | components/new-task-dialog.tsx:343-353 | ignored exactly when the id is already listed |
| NewTask.AddDependencyParses | components/new-task-dialog.tsx:343-353 | an accepted id reads as one more entry at the end; no repeats appear; adding it again is ignored |
| ProfileForms.ResolveAvatar | app/settings/page.tsx:78-87 | upload only with an image, url only with a URL, otherwise the emoji; the avatar is the chosen source |
| ProfileForms.ResolvedKind | app/onboarding/page.tsx:98-107 | the stored avatar type, as both pages choose it |
| ProfileForms.ProfileToSave | app/settings/page.tsx:72-93 | nothing for a blank name; otherwise the trimmed name with the resolved avatar |
| ProfileForms.CanSubmit | app/settings/page.tsx:224-228 | `canSave` / `canProceed`: a non-blank name, and emoji, or upload with an image, or URL with a URL |
| ProfileForms.EnabledKeepsChoice | app/onboarding/page.tsx:126-130 | the button is enabled exactly when the name is non-blank and the avatar that will be stored is of the chosen type |
| ProfileForms.SaveProfile | app/onboarding/page.tsx:92-113 | a blank name writes nothing; otherwise the profile is set |
| ProfileForms.SavedProfileIsStable | app/settings/page.tsx:89-93 | saving the saved name again gives the same profile |
| ProfileForms.Onboarding.constructor | app/onboarding/page.tsx:29-32 | onboarding starts at step 1 with an empty name and the default emoji |
| ProfileForms.Onboarding.SetName | app/onboarding/page.tsx:150-161 | the name box exists only on step 1 |
| ProfileForms.Onboarding.SetAvatar | app/onboarding/page.tsx:197-305 | the avatar tabs exist only on step 2 |
| ProfileForms.Onboarding.Continue | app/onboarding/page.tsx:167-170 | step 1 goes to step 2 only with a non-blank name |
| ProfileForms.Onboarding.Back | app/onboarding/page.tsx:309-312 | back returns to step 1 |
| ProfileForms.Onboarding.Complete | app/onboarding/page.tsx:126-130 | completes exactly on step 2 when `canProceed` holds, storing the trimmed name with the chosen avatar |
| DataTransfer.Imported | app/settings/page.tsx:155-174 | a document without a truthy version, tasks and activities is rejected; otherwise tasks and activities are replaced, and users and profile only when present |
| DataTransfer.Accepts | app/settings/page.tsx:155 | the import check: a truthy version and present tasks and activities (an empty array passes) |
| DataTransfer.Import | app/onboarding/page.tsx:57-71 | a rejected document writes nothing; an accepted one leaves the slots as Imported says |
| DataTransfer.ExportOf | app/settings/page.tsx:110-117 | version "1.0.0", the export time, the profile when one is stored, and all tasks, activities and user names |
| DataTransfer.Export | app/settings/page.tsx:107-117 | the document is ExportOf the store as read, at the clock reading taken first |
| DataTransfer.ExportImportRoundTrip | app/settings/page.tsx:107-174 | every export is accepted, and importing it restores the exporter's tasks, activities, user names and profile (the importer's profile stays when the exporter had none) |
| DataTransfer.UsersOfStoredUsers | app/settings/page.tsx:171-173 | a user list as read back reads back the same once stored |
| DataTransfer.EmptyArraysPassEmptyVersionFails | app/settings/page.tsx:155-157 | empty arrays pass validation; an empty version string does not |
| Text.Trim | app/settings/page.tsx:73 | the result has no leading or trailing white space |
| Text.TrimEmpty | app/settings/page.tsx:73 | a name trims to "" exactly when it is all white space |
| Text.TrimTrimmed | app/settings/page.tsx:89-93 | trimming is idempotent |
| Text.SplitJoin | components/task-details-dialog.tsx:325-327 | splitting a join of separator-free pieces gives the pieces back |
| Text.JoinSplit | components/task-details-dialog.tsx:325-327 | joining a split gives back the string |
| Text.Split | components/task-details-dialog.tsx:325 | `split` on one character: at least one piece, none holding the separator |
| Text.Join | components/task-details-dialog.tsx:326 | `join`: the pieces with the separator between them (JoinSplit and SplitJoin relate it to Split) |
| Text.Upper | components/task-details-dialog.tsx:328 | `toUpperCase` on ASCII letters: same length, each character mapped by UpperChar |
| Text.IsSpace | app/settings/page.tsx:73 | the white space `trim` removes: the ECMAScript WhiteSpace and LineTerminator characters |
| Sorting.SortBy | components/kanban-board.tsx:52 | the result is sorted and a permutation of the input |
| Sorting.SortByIsStable | components/kanban-board.tsx:52 | elements of equal rank keep their input order |
| Seqs.Filter | lib/local-store.ts:84 | `filter`: the elements passing the test and no others, in order |
| Seqs.FilterCounts | lib/local-store.ts:84 | each passing element is kept as often as it occurs, and nothing is added |
| Values.Spread | lib/local-store.ts:132-136 | object spread: the update's keys win, other keys are kept, and the base's key order is kept |
| Values.Literal | lib/local-store.ts:306-349 | an object literal reads each of its properties as written, and absent elsewhere |
| Values.Truthy | lib/local-store.ts:36-37 | JavaScript truthiness: "", false, 0, null and undefined are falsy; every array is truthy |
| Values.Or | lib/local-store.ts:36 | `a \|\| b`: the first operand when truthy, else the second |
| Values.StrictEquals | lib/local-store.ts:155 | `===`: equal primitive values; two arrays from separate parses are never identical |
| Values.Get | lib/local-store.ts:143-144 | `o[key]`: the property value, `undefined` when the key is not there |
| Values.Set | lib/local-store.ts:132-136 | `{...o, [key]: v}`: the key reads as `v` afterwards and every other key reads as before |

## Left out

- Browser storage holds JSON text. The model holds typed slots, and a
  slot that does not parse reads as empty. Arrays holding non-object values,
  `NaN` and fractional numbers are not modelled.
- `typeof window === "undefined"` guards exist only for server-side
  rendering and are left out.
- `crypto.randomUUID` and `new Date()` are the environment functions
  `uuid` and `clock`. No property of them is assumed, such as distinct ids or
  increasing times.
- Date arithmetic is a `later` function: `Date.now() + k days` for the
  onboarding tasks' end dates.
- The date formatting used by activity descriptions is a `formatDate`
  parameter.
- Unicode case mapping is left out: `UpperChar` upper-cases ASCII letters only.
- TaskDetails.Initials: strings are sequences of Unicode code points, while
  `charAt(0)` and `slice(0, 2)` count UTF-16 code units. For a name that
  starts with a character outside the Basic Multilingual Plane, such as an
  emoji, JavaScript takes half of its surrogate pair; the model takes the
  whole character.
- LocalStore.Instant and LocalStore.NewestFirst order timestamps by the digits
  of their text. This agrees with `new Date(s).getTime()` for the
  `toISOString` output the stores write. Other date formats, which an import
  can bring in, and invalid dates, for which the comparator returns NaN, are
  not modelled.
- KanbanBoard.OrderRank models `Number(...)` for integer text only (digits
  with an optional sign and surrounding white space). Fractional, exponent,
  hexadecimal and `Infinity` text reads as NaN. An order that reads as NaN
  ranks as 0. In JavaScript the comparator then returns NaN, which the sort
  treats as "equal", so the engine may order such a column differently.
- KanbanBoard.TasksByStatus sorts by OrderRank, so a column holding an order
  that reads as NaN has the same gap.
- `formatStatusLabel` looks statuses up in a plain object, so a status
  such as "constructor" reaches `Object.prototype`. The model treats every
  unmapped status as unmapped.
- TaskDetails.DependencyTasks: a non-string truthy `dependencies` value would
  throw on `split`; the model treats it as listing no ids.
- TaskDetails.AssigneesText and TaskDetails.QuickAddAssignee: a truthy value
  that is neither a string nor an array is not modelled; it is read as "".
- `getInitials(undefined)` is the same as the empty name, "?". The model
  takes a string.
- DataTransfer.Import: truthy import fields that are not arrays, and a
  `user` that is not a profile object, are not modelled. A present field is
  an array or a profile.
- The export's file name reads the clock a second time
  (app/settings/page.tsx:125), as part of building the download. The
  download itself (Blob, link, revoking the URL), FileReader, JSON
  parsing, toasts, the `setTimeout` redirect and routing are left out.
- `handleResetData` (app/settings/page.tsx:217-222) is `localStorage.clear()`
  followed by routing. Only the `clearUser` part is modelled, as
  `LocalStore.Store.ClearUser`.
- React state and effects are left out: the initial form values, the
  `Promise.all` fetches, and re-rendering. The one exception is state that
  changes behaviour. In `handleAssigneesBlur` the known-user list is read as
  it was when the handler started, so a name typed twice is added twice.
  The second add changes nothing. The model keeps this.
- ProfileForms.Onboarding.SetName and ProfileForms.Onboarding.SetAvatar change
  nothing off their own step, because the page does not render those inputs
  there.
- LocalStore.Store.Archive: its contract is stated in the shape of `Update`,
  and its meaning (archived, one entry or none) is the lemma
  `LocalStore.ArchiveOutcome`.
- Rendering, styling, the rich-text editor, the calendar and dashboard date
  logic, progress percentages, and the api/ pass-through modules are outside
  this model.

## Findings

| source | as written | input that shows it | evidently intended | confidence | as-written member | corrected member |
|---|---|---|---|---|---|---|
| components/task-details-dialog.tsx:371-386 | quick-adding an assignee stores the joined text as a string, although `assignees` is declared `string[]` | assignees `["Ann"]`, quick-add "Bob": the value becomes `"Ann, Bob"`; the store's change test reads a non-array as no names, so saving logs "Assignee Removed" with `["Ann"]` | store the names as an array, `["Ann", "Bob"]`, which logs "Assignee Changed" | medium, not executed | TaskDetails.QuickAddLogsRemoval | TaskDetails.QuickAddAssigneeList |
