/**
 * The task details dialog: the change set it saves (only the edited
 * properties whose value differs), its comma-separated dependency and assignee
 * editing, and the labels, initials and activity descriptions it shows.
 */
module TaskDetails {
  import opened Wrappers
  import opened Seqs
  import opened Values
  import opened Types
  import opened Text
  import opened CommaLists
  import opened ChangeLog
  import opened LocalStore
  import KanbanBoard
  import NewTask
  import opened Sorting

  /* ---------------------------------------------------------------------- */
  /* Saving                                                                  */
  /* ---------------------------------------------------------------------- */

  /**
   * The change set `handleSave` sends: the edited copy's properties whose value
   * differs from the dialog's task (arrays by their JSON text, anything else by
   * `!==`), with their edited values, in the edited copy's key order.
   */
  function Changes(task: Task, edited: Task): (r: Task)
    ensures forall k :: k in r.values <==> k in edited.values && Get(task, k) != Get(edited, k)
    ensures forall k :: Get(r, k) == if k in edited.values && Get(task, k) != Get(edited, k) then Get(edited, k) else Absent
  {
    Assign(Empty, ChangedKeys(task, edited), edited)
  }

  /** When the edited copy lists each key once, the change set lists the changed keys in the copy's order. */
  lemma ChangesKeys(task: Task, edited: Task)
    requires DistinctKeys(edited.keys)
    ensures Changes(task, edited).keys == ChangedKeys(task, edited)
  {
    var keys := ChangedKeys(task, edited);
    FilterDistinct(edited.keys, DiffersIn(task, edited));
    AssignFreshKeys(Empty, keys, edited);
    assert [] + keys == keys;
  }

  /**
   * The `forEach` over `Object.keys(editedTask)` that builds `changes`: a key
   * goes in when both values are arrays with different JSON texts, or when the
   * values are not both arrays and `!==` holds.
   */
  method ChangeSet(task: Task, edited: Task) returns (changes: Task)
    ensures changes == Changes(task, edited)
  {
    changes := Empty;
    ChangeSetEnds(task, edited);
    var i := 0;
    while i < |edited.keys|
      invariant 0 <= i <= |edited.keys|
      invariant changes == ChangesUpTo(task, edited, i)
    {
      changes := VisitKey(task, edited, changes, i);
      i := i + 1;
    }
  }

  /** The change set after the first `n` keys of the edited copy. */
  function ChangesUpTo(task: Task, edited: Task, n: nat): Task
    requires n <= |edited.keys|
  {
    Assign(Empty, Filter(edited.keys[..n], DiffersIn(task, edited)), edited)
  }

  /** The change set before the first key is empty, and after the last key it is `Changes`. */
  lemma ChangeSetEnds(task: Task, edited: Task)
    ensures ChangesUpTo(task, edited, 0) == Empty
    ensures ChangesUpTo(task, edited, |edited.keys|) == Changes(task, edited)
  {
    assert edited.keys[..|edited.keys|] == edited.keys;
  }

  /** One turn of the `forEach`: the `i`-th edited key is compared and, when it differs, copied. */
  method VisitKey(task: Task, edited: Task, changes: Task, i: nat) returns (changes': Task)
    requires i < |edited.keys|
    requires changes == ChangesUpTo(task, edited, i)
    ensures changes' == ChangesUpTo(task, edited, i + 1)
  {
    var key := edited.keys[i];
    var oldValue, newValue := Get(task, key), Get(edited, key);
    ChangeSetStep(task, edited, i);
    changes' := changes;
    if oldValue.StrList? && newValue.StrList? {
      if oldValue.items != newValue.items {
        changes' := Set(changes, key, newValue);
      }
    } else if !StrictEquals(oldValue, newValue) {
      changes' := Set(changes, key, newValue);
    }
  }

  /** What one more key does to the change set built from the keys before it. */
  lemma ChangeSetStep(task: Task, edited: Task, i: nat)
    requires i < |edited.keys|
    ensures var key := edited.keys[i];
      var before := ChangesUpTo(task, edited, i);
      ChangesUpTo(task, edited, i + 1)
        == if Get(task, key) != Get(edited, key) then Set(before, key, edited.values[key]) else before
  {
    var key := edited.keys[i];
    var p := DiffersIn(task, edited);
    assert edited.keys[..i + 1] == edited.keys[..i] + [key];
    FilterConcat(edited.keys[..i], [key], p);
    FilterSingle(key, p);
    var kept := Filter(edited.keys[..i], p);
    assert forall x | x in kept :: x in edited.values by {
      forall x | x in kept ensures x in edited.values {
        assert x in edited.keys[..i];
      }
    }
    if p(key) {
      AssignSnoc(Empty, kept, key, edited);
    } else {
      assert kept + [] == kept;
    }
  }

  /** Saving without edits sends an empty update. */
  lemma NoEditsNoChanges(task: Task)
    ensures Changes(task, task) == Empty
  {
  }

  /**
   * The change set logs exactly what sending the whole edited copy would log:
   * the keys it drops are the ones that would have logged nothing.
   */
  lemma ChangesLogSame(task: Task, edited: Task)
    requires DistinctKeys(edited.keys)
    ensures Derive(task, Changes(task, edited)) == Derive(task, edited)
  {
    var keys := ChangedKeys(task, edited);
    var changes := Changes(task, edited);
    ChangesKeys(task, edited);
    DeriveKeysAgree(task, keys, changes, edited);
    DeriveKeysSkipsUnchanged(task, edited.keys, edited);
  }

  /** The stored task reads the same as if the whole edited copy had been merged. */
  lemma ChangesMergeSame(task: Task, edited: Task, now: string)
    ensures forall k :: Get(Merge(task, Changes(task, edited), now), k) == Get(Merge(task, edited, now), k)
  {
  }

  /**
   * When the store still holds the dialog's task, saving the change set logs the
   * same entries as updating with the whole edited copy.
   */
  lemma SaveLogsLikeWholeEdit(env: Env, task: Task, id: string, edited: Task, firstId: nat, firstRead: nat)
    requires DistinctKeys(edited.keys)
    ensures UpdateLogs(env, task, id, Changes(task, edited), firstId, firstRead)
         == UpdateLogs(env, task, id, edited, firstId, firstRead)
  {
    var now := Clock(env, firstRead);
    ChangesLogSame(task, edited);
    ChangesMergeSame(task, edited, now);
    assert DisplayName(Merge(task, Changes(task, edited), now)) == DisplayName(Merge(task, edited, now));
  }

  /** What a `taskStore.update` call leaves behind: its result, the task list, the entries it logged and both counters. */
  datatype Written = Written(result: Result<Task, string>, tasks: seq<Task>, logs: seq<ActivityLog>, ids: nat, readings: nat)

  /**
   * One `taskStore.update(id, u)` against the loaded `tasks`, with `ids` uuids
   * and `readings` clock readings already drawn: it fails exactly when no task has
   * the id, and then writes, logs and draws nothing.
   */
  function UpdateOutcome(env: Env, tasks: seq<Task>, id: string, u: Task, ids: nat, readings: nat): (w: Written)
    ensures w.result.Failure? <==> FirstIndexWithId(tasks, id).None?
    ensures w.result.Failure? ==> w.result.error == "Task not found" && w.tasks == tasks && w.logs == [] && w.ids == ids && w.readings == readings
    ensures w.result.Success? ==>
      var i := FirstIndexWithId(tasks, id).value;
      && Get(w.result.value, "updated_at") == Str(Clock(env, readings))
      && w.tasks == tasks[i := w.result.value]
      && |w.logs| == |Derive(tasks[i], u)| && w.ids == ids + |w.logs| && w.readings == readings + 1 + |w.logs|
  {
    match FirstIndexWithId(tasks, id)
    case None => Written(Failure("Task not found"), tasks, [], ids, readings)
    case Some(i) =>
      var n := |Derive(tasks[i], u)|;
      var updated := Merge(tasks[i], u, Clock(env, readings));
      Written(Success(updated), tasks[i := updated], UpdateLogs(env, tasks[i], id, u, ids, readings), ids + n, readings + 1 + n)
  }

  /**
   * `handleSave`'s two writes of the same change set: the second runs only when
   * the first did not throw, against the list the first stored, and the logs of
   * both accumulate.
   */
  function SaveOutcome(env: Env, tasks: seq<Task>, id: string, u: Task, ids: nat, readings: nat): Written {
    var first := UpdateOutcome(env, tasks, id, u, ids, readings);
    if first.result.Failure? then first
    else
      var second := UpdateOutcome(env, first.tasks, id, u, first.ids, first.readings);
      Written(second.result, second.tasks, first.logs + second.logs, second.ids, second.readings)
  }

  /**
   * When the change set sets neither `id` nor `updated_at`, the second write
   * finds the task the first one stored, at the same place, and logs nothing:
   * saving logs what one update logs, and the stored task differs from the
   * first write only in an `updated_at` taken from one more clock reading.
   */
  lemma SecondWriteOnlyRestamps(env: Env, tasks: seq<Task>, id: string, u: Task, ids: nat, readings: nat)
    requires "id" !in u.values && "updated_at" !in u.values
    ensures var once := UpdateOutcome(env, tasks, id, u, ids, readings);
      var twice := SaveOutcome(env, tasks, id, u, ids, readings);
      && (twice.result.Success? <==> once.result.Success?)
      && twice.logs == once.logs && twice.ids == once.ids
      && (once.result.Failure? ==> twice == once)
      && (once.result.Success? ==>
            var i := FirstIndexWithId(tasks, id).value;
            && twice.readings == once.readings + 1
            && twice.tasks == tasks[i := twice.result.value]
            && Get(twice.result.value, "updated_at") == Str(Clock(env, once.readings))
            && forall k | k != "updated_at" :: Get(twice.result.value, k) == Get(once.result.value, k))
  {
    if FirstIndexWithId(tasks, id).Some? {
      SecondWriteAt(env, tasks, id, u, ids, readings, FirstIndexWithId(tasks, id).value);
    }
  }

  /** `SecondWriteOnlyRestamps` once the first write has found the task at `i`. */
  lemma SecondWriteAt(env: Env, tasks: seq<Task>, id: string, u: Task, ids: nat, readings: nat, i: nat)
    requires "id" !in u.values && "updated_at" !in u.values
    requires FirstIndexWithId(tasks, id) == Some(i)
    ensures var once := UpdateOutcome(env, tasks, id, u, ids, readings);
      var twice := SaveOutcome(env, tasks, id, u, ids, readings);
      && twice.result.Success? && twice.logs == once.logs && twice.ids == once.ids
      && twice.readings == once.readings + 1
      && twice.tasks == tasks[i := twice.result.value]
      && twice.result.value == Merge(once.result.value, u, Clock(env, once.readings))
  {
    var once := UpdateOutcome(env, tasks, id, u, ids, readings);
    var merged := once.result.value;
    SameIndexAfterWrite(tasks, id, u, i, merged);
    ReapplyLogsNothing(tasks[i], u, Clock(env, readings));
    WriteChangingNothing(env, once.tasks, id, u, once.ids, once.readings, i);
    var second := UpdateOutcome(env, once.tasks, id, u, once.ids, once.readings);
    AppendNothing(once.logs, second.logs);
    UpdateTwice(tasks, i, merged, second.result.value);
  }

  /**
   * A change set that renames the only task with the id makes the second write
   * throw "Task not found", after the first has stored the renamed task and
   * logged its changes.
   */
  lemma RenamingFailsSecondWrite(env: Env, tasks: seq<Task>, id: string, u: Task, ids: nat, readings: nat)
    requires FirstIndexWithId(tasks, id).Some?
    requires forall j | 0 <= j < |tasks| && j != FirstIndexWithId(tasks, id).value :: !HasId(tasks[j], id)
    requires "id" in u.values && u.values["id"] != Str(id)
    ensures var once := UpdateOutcome(env, tasks, id, u, ids, readings);
      var twice := SaveOutcome(env, tasks, id, u, ids, readings);
      && once.result.Success? && twice.result == Failure("Task not found")
      && twice.tasks == once.tasks && twice.logs == once.logs
      && twice.ids == once.ids && twice.readings == once.readings
  {
    var once := UpdateOutcome(env, tasks, id, u, ids, readings);
    var i := FirstIndexWithId(tasks, id).value;
    assert Get(once.result.value, "id") == u.values["id"];
    NoIdAfterRename(tasks, id, i, once.result.value);
    AppendNothing(once.logs, []);
  }

  /** Renaming the only task with the id leaves no task with it. */
  lemma NoIdAfterRename(tasks: seq<Task>, id: string, i: nat, renamed: Task)
    requires i < |tasks| && forall j | 0 <= j < |tasks| && j != i :: !HasId(tasks[j], id)
    requires !HasId(renamed, id)
    ensures FirstIndexWithId(tasks[i := renamed], id).None?
  {
    var after := tasks[i := renamed];
    forall j | 0 <= j < |after| ensures !HasId(after[j], id) {
      if j != i {
        assert after[j] == tasks[j];
      }
    }
  }

  /** An update that changes nothing at the index it finds only re-stamps that task, and logs and draws no uuid. */
  lemma WriteChangingNothing(env: Env, tasks: seq<Task>, id: string, u: Task, ids: nat, readings: nat, i: nat)
    requires FirstIndexWithId(tasks, id) == Some(i) && Derive(tasks[i], u) == []
    ensures var w := UpdateOutcome(env, tasks, id, u, ids, readings);
      && w.result == Success(Merge(tasks[i], u, Clock(env, readings)))
      && w.tasks == tasks[i := w.result.value]
      && w.logs == [] && w.ids == ids && w.readings == readings + 1
  {
  }

  /** A write that keeps the task's id keeps it the first task with that id. */
  lemma SameIndexAfterWrite(tasks: seq<Task>, id: string, u: Task, i: nat, merged: Task)
    requires FirstIndexWithId(tasks, id) == Some(i)
    requires Get(merged, "id") == Get(tasks[i], "id")
    ensures FirstIndexWithId(tasks[i := merged], id) == Some(i)
  {
    var again := FirstIndexWithId(tasks[i := merged], id);
    assert HasId(tasks[i := merged][i], id);
  }

  /** One `taskStore.update` call, as `UpdateOutcome` describes it. */
  method WriteOnce(store: Store, id: string, u: Task) returns (r: Result<Task, string>)
    modifies store`tasksSlot, store`activitySlot, store`usersSlot, store`idsDrawn, store`clockReads
    ensures var w := UpdateOutcome(store.env, old(store.Tasks()), id, u, old(store.idsDrawn), old(store.clockReads));
      && r == w.result && store.Tasks() == w.tasks && store.Activities() == old(store.Activities()) + w.logs
      && store.idsDrawn == w.ids && store.clockReads == w.readings
    ensures store.usersSlot == InitUsers(old(store.usersSlot))
  {
    r := store.Update(id, u);
  }

  /**
   * `handleSave`: the change set goes to `taskStore.update` under the task's id,
   * and then once more through `taskApi.updateTask`, which is `taskStore.update`
   * again. A "Task not found" from either write ends the handler in its `catch`,
   * after whatever the first write stored. When both succeed the dialog's task
   * takes on the edited copy (`Object.assign(task, editedTask)`); otherwise it
   * is left as it was.
   */
  method Save(store: Store, task: Task, edited: Task) returns (r: Result<Task, string>, shown: Task)
    modifies store`tasksSlot, store`activitySlot, store`usersSlot, store`idsDrawn, store`clockReads
    ensures var w := SaveOutcome(store.env, old(store.Tasks()), IdOf(task), Changes(task, edited), old(store.idsDrawn), old(store.clockReads));
      && r == w.result && store.Tasks() == w.tasks && store.Activities() == old(store.Activities()) + w.logs
      && store.idsDrawn == w.ids && store.clockReads == w.readings
    ensures shown == if r.Success? then Spread(task, edited) else task
    ensures store.usersSlot == InitUsers(old(store.usersSlot))
  {
    var changes := ChangeSet(task, edited);
    ghost var logged, users := store.Activities(), store.usersSlot;
    ghost var first := UpdateOutcome(store.env, store.Tasks(), IdOf(task), changes, store.idsDrawn, store.clockReads);
    r := WriteOnce(store, IdOf(task), changes);
    if r.Success? {
      ghost var second := UpdateOutcome(store.env, first.tasks, IdOf(task), changes, first.ids, first.readings);
      r := WriteOnce(store, IdOf(task), changes);
      AppendAssoc(logged, first.logs, second.logs);
      InitUsersIdempotent(users);
    }
    shown := if r.Success? then Spread(task, edited) else task;
  }

  /* ---------------------------------------------------------------------- */
  /* Dependencies                                                            */
  /* ---------------------------------------------------------------------- */

  /** The ids the `dependencies` text lists; a falsy value lists none. */
  function DependencyIds(deps: Value): (r: seq<string>)
    ensures forall x | x in r :: IsItem(x)
    ensures !Truthy(deps) ==> r == []
  {
    if deps.Str? then Parse(deps.s) else []
  }

  /** `dependencyIds.includes(t.id)`. */
  function IdListed(ids: seq<string>): Task -> bool {
    (t: Task) => Get(t, "id").Str? && Get(t, "id").s in ids
  }

  /**
   * The dependency tasks the dialog resolves on opening: the loaded tasks whose
   * id the dependency text lists, in task-list order.
   */
  function DependencyTasks(tasks: seq<Task>, deps: Value): (r: seq<Task>)
    ensures forall t | t in r :: t in tasks && Get(t, "id").Str? && Get(t, "id").s in DependencyIds(deps)
    ensures forall t | t in tasks && Get(t, "id").Str? && Get(t, "id").s in DependencyIds(deps) :: t in r
    ensures Subsequence(r, tasks)
    ensures multiset(r) <= multiset(tasks)
    ensures forall t | t in tasks && Get(t, "id").Str? && Get(t, "id").s in DependencyIds(deps) :: multiset(r)[t] == multiset(tasks)[t]
  {
    FilterCounts(tasks, IdListed(DependencyIds(deps)));
    Filter(tasks, IdListed(DependencyIds(deps)))
  }

  /**
   * Picking a task in the dependency select: ignored (`None`) for an empty id,
   * the task's own id or an id already listed; otherwise the id is appended to
   * the text as it stands.
   */
  function AddDependency(deps: string, ownId: Value, taskId: string): (r: Option<string>)
    ensures r.None? <==> taskId == "" || Str(taskId) == ownId || taskId in Parse(deps)
  {
    if taskId == "" || StrictEquals(Str(taskId), ownId) then None
    else if taskId in Parse(deps) then None
    else Some(AppendRaw(deps, taskId))
  }

  /**
   * An accepted dependency reads as the old list plus the new id, so a list
   * without repeats stays without repeats.
   */
  lemma AddDependencyParses(deps: string, ownId: Value, taskId: string)
    requires IsItem(taskId)
    requires AddDependency(deps, ownId, taskId).Some?
    ensures Parse(AddDependency(deps, ownId, taskId).value) == Parse(deps) + [taskId]
    ensures Distinct(Parse(deps)) ==> Distinct(Parse(AddDependency(deps, ownId, taskId).value))
  {
  }

  /** After a dependency is accepted, every loaded task with that id resolves as a dependency. */
  lemma AddedDependencyResolves(tasks: seq<Task>, deps: string, ownId: Value, taskId: string)
    requires IsItem(taskId)
    requires AddDependency(deps, ownId, taskId).Some?
    ensures forall t | t in tasks && Get(t, "id") == Str(taskId) :: t in DependencyTasks(tasks, Str(AddDependency(deps, ownId, taskId).value))
  {
    AddDependencyParses(deps, ownId, taskId);
    var d := AddDependency(deps, ownId, taskId).value;
    assert taskId in Parse(d);
    if d == "" {
      ParseEmpty();
    }
  }

  /* ---------------------------------------------------------------------- */
  /* Assignees                                                               */
  /* ---------------------------------------------------------------------- */

  /** The assignee text the dialog edits: an array joined with ", ", a string as it is, a falsy value as "". */
  function AssigneesText(v: Value): (r: string)
    ensures v.Str? ==> r == v.s
    ensures !Truthy(v) ==> r == ""
    ensures v.StrList? ==> r == Join(v.items, ", ")
  {
    if v.StrList? then Join(v.items, ", ") else if v.Str? then v.s else ""
  }

  /**
   * `handleAssigneesBlur`: the assignees are read as text, split into names,
   * and each new name is registered as in the new-task dialog.
   */
  method RegisterTyped(store: Store, assignees: Value, available: seq<string>) returns (known: seq<string>)
    modifies store`tasksSlot, store`activitySlot, store`usersSlot
    ensures store.Users() == NewTask.Register(old(store.Users()), available, Parse(AssigneesText(assignees)))
    ensures known == available + Filter(Parse(AssigneesText(assignees)), NewTask.IsNewName(available))
    ensures store.Tasks() == old(store.Tasks()) && store.Activities() == old(store.Activities())
  {
    known := NewTask.RegisterAssignees(store, Parse(AssigneesText(assignees)), available);
  }

  /**
   * `handleQuickAddUser`: a name already among the comma-split names leaves the
   * value as it is; otherwise the name is appended to the text, and the
   * assignees become that text.
   */
  function QuickAddAssignee(v: Value, name: string): (r: Value)
    ensures name in Parse(AssigneesText(v)) ==> r == v
    ensures name !in Parse(AssigneesText(v)) ==> r.Str?
  {
    var text := AssigneesText(v);
    if name in Parse(text) then v else Str(AppendRaw(text, name))
  }

  /** Quick-adding a name makes it read as one more assignee, at the end, and adding it twice is adding it once. */
  lemma QuickAddParses(v: Value, name: string)
    requires IsItem(name)
    ensures var before := Parse(AssigneesText(v));
      Parse(AssigneesText(QuickAddAssignee(v, name))) == if name in before then before else before + [name]
    ensures QuickAddAssignee(QuickAddAssignee(v, name), name) == QuickAddAssignee(v, name)
  {
    var text := AssigneesText(v);
    if name !in Parse(text) {
      assert name in Parse(AppendRaw(text, name));
    }
  }

  /**
   * Quick-adding a name to an assignee array the store logged as non-empty
   * turns the value into a string, which the store's change test counts as no
   * names: saving it logs "Assignee Removed" with the old names.
   */
  lemma QuickAddLogsRemoval()
    ensures Classify("assignees", StrList(["Ann"]), QuickAddAssignee(StrList(["Ann"]), "Bob"))
         == AssigneeRemoved(["Ann"])
  {
    ParseItem("Ann");
    assert "Bob" != "Ann";
  }

  /** The assignee update as the declared `string[]` type intends: the names read from the text plus the new one, as an array. */
  function QuickAddAssigneeList(v: Value, name: string): (r: Value)
    ensures r.StrList?
    ensures name in Parse(AssigneesText(v)) ==> r.items == Parse(AssigneesText(v))
    ensures name !in Parse(AssigneesText(v)) ==> r.items == Parse(AssigneesText(v)) + [name]
  {
    var names := Parse(AssigneesText(v));
    if name in names then StrList(names) else StrList(names + [name])
  }

  /**
   * Adding a name with the array form never logs a removal: a save logs
   * "Assignee Added" with the new names when there were none, and "Assignee
   * Changed" otherwise.
   */
  lemma QuickAddListLogsNoRemoval(v: Value, name: string)
    requires name !in Parse(AssigneesText(v))
    ensures var c := Classify("assignees", v, QuickAddAssigneeList(v, name));
      && !c.AssigneeRemoved?
      && (|AsList(v)| == 0 ==> c == AssigneeAdded(Parse(AssigneesText(v)) + [name]))
      && (|AsList(v)| > 0 ==> c.AssigneeChanged?)
  {
    AssigneeEvents(v, QuickAddAssigneeList(v, name));
  }

  /* ---------------------------------------------------------------------- */
  /* Labels, initials, descriptions                                          */
  /* ---------------------------------------------------------------------- */

  /** `formatStatusLabel`: the dialog's own label table, with any other status shown as it is. */
  function FormatStatusLabel(status: string): (r: string)
    ensures status == "todo" ==> r == "To Do"
    ensures status == "review" ==> r == "Review"
    ensures status == "up-next" ==> r == "Up Next"
    ensures status == "in-progress" ==> r == "In Progress"
    ensures status !in {"todo", "review", "up-next", "in-progress"} ==> r == status
  {
    if status == "todo" then "To Do"
    else if status == "review" then "Review"
    else if status == "up-next" then "Up Next"
    else if status == "in-progress" then "In Progress"
    else status
  }

  /**
   * The dialog's labels and the board's agree on every status except two: the
   * dialog has no entry for "completed" and the board none for "up-next".
   */
  lemma LabelsAgreeExceptTwo(status: string)
    ensures FormatStatusLabel(status) == KanbanBoard.StatusLabel(status) <==> status !in {"completed", "up-next"}
  {
    if status == "completed" {
      assert FormatStatusLabel(status) == "completed";
      assert KanbanBoard.StatusLabel(status) == "Completed";
      assert "completed"[0] != "Completed"[0];
    } else if status == "up-next" {
      assert KanbanBoard.StatusLabel(status) == "up-next";
      assert "up-next"[0] != "Up Next"[0];
    }
  }

  /** `words.map(word => word.charAt(0)).join('')`: the first character of each non-empty word. */
  function FirstChars(words: seq<string>): (r: string)
    ensures |r| <= |words|
    decreases |words|
  {
    if words == [] then ""
    else (if words[0] == "" then "" else [words[0][0]]) + FirstChars(words[1..])
  }

  /**
   * `getInitials`: "?" for an empty name, otherwise the upper-cased first
   * characters of the space-separated words, at most two of them.
   */
  function Initials(name: string): (r: string)
    ensures name == "" ==> r == "?"
    ensures |r| <= 2
  {
    if name == "" then "?"
    else
      var letters := Upper(FirstChars(Split(name, ' ')));
      if |letters| <= 2 then letters else letters[..2]
  }

  /** A one-word name gives its first letter, upper-cased. */
  lemma InitialsOfOneWord(w: string)
    requires w != "" && ' ' !in w
    ensures Initials(w) == [UpperChar(w[0])]
  {
    SplitNoSep(w, ' ');
    assert FirstChars([w]) == [w[0]] + FirstChars([]);
  }

  /** A two-word name gives the first letter of each word, upper-cased, in order. */
  lemma InitialsOfTwoWords(a: string, b: string)
    requires a != "" && ' ' !in a && b != "" && ' ' !in b
    ensures Initials(a + " " + b) == [UpperChar(a[0]), UpperChar(b[0])]
  {
    SplitConcat(a, b, ' ');
    SplitNoSep(a, ' ');
    SplitNoSep(b, ' ');
    assert a + " " + b == a + [' '] + b;
    assert Split(a + " " + b, ' ') == [a, b];
    assert FirstChars([a, b]) == [a[0]] + FirstChars([b]);
    assert FirstChars([b]) == [b[0]] + FirstChars([]);
  }

  /** Words after the second do not show: a longer name has the initials of its first two words. */
  lemma InitialsIgnoreLaterWords(a: string, b: string, rest: string)
    requires a != "" && ' ' !in a && b != "" && ' ' !in b
    ensures Initials(a + " " + b + " " + rest) == [UpperChar(a[0]), UpperChar(b[0])]
  {
    var name := a + " " + b + " " + rest;
    assert name == a + [' '] + (b + [' '] + rest);
    SplitConcat(a, b + [' '] + rest, ' ');
    SplitConcat(b, rest, ' ');
    SplitNoSep(a, ' ');
    SplitNoSep(b, ' ');
    var tail := Split(rest, ' ');
    assert Split(name, ' ') == [a] + ([b] + tail);
    var chars := FirstChars([a] + ([b] + tail));
    assert chars == [a[0]] + FirstChars([b] + tail) by {
      assert ([a] + ([b] + tail))[1..] == [b] + tail;
    }
    assert FirstChars([b] + tail) == [b[0]] + FirstChars(tail) by {
      assert ([b] + tail)[1..] == tail;
    }
    var letters := Upper(chars);
    assert letters[0] == UpperChar(a[0]) && letters[1] == UpperChar(b[0]);
  }

  /** A non-empty name of spaces only is not "?": every word is empty, so there are no initials at all. */
  lemma BlankNameHasNoInitials(name: string)
    requires name != "" && forall i | 0 <= i < |name| :: name[i] == ' '
    ensures Initials(name) == ""
  {
    SpacesSplitEmpty(name);
    NoFirstChars(Split(name, ' '));
  }

  lemma {:induction false} SpacesSplitEmpty(s: string)
    requires forall i | 0 <= i < |s| :: s[i] == ' '
    ensures forall i | 0 <= i < |Split(s, ' ')| :: Split(s, ' ')[i] == ""
    decreases |s|
  {
    if s != [] {
      SpacesSplitEmpty(s[1..]);
    }
  }

  lemma {:induction false} NoFirstChars(words: seq<string>)
    requires forall i | 0 <= i < |words| :: words[i] == ""
    ensures FirstChars(words) == ""
    decreases |words|
  {
    if words != [] {
      NoFirstChars(words[1..]);
    }
  }

  /** `${v}`: the text a value interpolates to. */
  function ValueText(v: Value): string {
    match v
    case Str(s) => s
    case Bool(b) => if b then "true" else "false"
    case Num(n) => IntToString(n)
    case StrList(items) => Join(items, ",")
    case Null => "null"
    case Absent => "undefined"
  }

  /** `${v || fallback}`. */
  function OrText(v: Value, fallback: string): (r: string)
    ensures !Truthy(v) ==> r == fallback
    ensures v.Str? && v.s != "" ==> r == v.s
  {
    if Truthy(v) then ValueText(v) else fallback
  }

  /** A date value, formatted by `formatDate` when set and "Not set" otherwise. */
  function DateText(v: Value, formatDate: Value -> string): (r: string)
    ensures !Truthy(v) ==> r == "Not set"
    ensures Truthy(v) ==> r == formatDate(v)
  {
    if Truthy(v) then formatDate(v) else "Not set"
  }

  /** `Array.isArray(x) ? x.join(', ') : x`, interpolated. */
  function ListText(v: Value): string {
    if v.StrList? then Join(v.items, ", ") else ValueText(v)
  }

  /** `"from \"a\" to \"b\""`. */
  function FromTo(what: string, a: string, b: string): (r: string)
    ensures |what| + 8 <= |r| && r[..|what| + 8] == what + " changed"
  {
    var r := what + " changed from \"" + a + "\" to \"" + b + "\"";
    assert r == (what + " changed") + (" from \"" + a + "\" to \"" + b + "\"");
    r
  }

  /** The event types the description table knows. */
  const DescribedEvents: set<string> := {
    "Status Changed", "Priority Changed", "Due Date Changed", "Start Date Changed",
    "Assignee Changed", "Assignee Added", "Assignee Removed", "Task Archived",
    "Task Created", "Task Deleted", "Task Name Changed", "Description Updated", "Task Updated"}

  /**
   * `formatChangeDescription`: the sentence the activity list shows for an
   * entry. Dates go through `formatDate` (the date library's formatting).
   */
  function Describe(eventType: string, c: Change, formatDate: Value -> string): (r: string)
    ensures eventType !in DescribedEvents ==> r == eventType
  {
    match eventType
    case "Status Changed" =>
      FromTo("Status", OrText(Field(c, "old_status"), "Unknown"), OrText(Field(c, "new_status"), "Unknown"))
    case "Priority Changed" =>
      FromTo("Priority", OrText(Field(c, "old_priority"), "Unknown"), OrText(Field(c, "new_priority"), "Unknown"))
    case "Due Date Changed" =>
      FromTo("Due date", DateText(Field(c, "old_due_date"), formatDate), DateText(Field(c, "new_due_date"), formatDate))
    case "Start Date Changed" =>
      FromTo("Start date", DateText(Field(c, "old_start_date"), formatDate), DateText(Field(c, "new_start_date"), formatDate))
    case "Assignee Changed" =>
      FromTo("Assignee", OrText(Field(c, "old_assignee"), "Unassigned"), OrText(Field(c, "new_assignee"), "Unassigned"))
    case "Assignee Added" => "Assignee(s) added: " + ListText(Field(c, "assignees_added"))
    case "Assignee Removed" => "Assignee(s) removed: " + ListText(Field(c, "assignees_removed"))
    case "Task Archived" => "Task was archived"
    case "Task Created" => "Task was created"
    case "Task Deleted" => "Task was deleted"
    case "Task Name Changed" =>
      FromTo("Task name", OrText(Field(c, "old_name"), "Unknown"), OrText(Field(c, "new_name"), "Unknown"))
    case "Description Updated" => "Task description was updated"
    case "Task Updated" => "Field \"" + ValueText(Field(c, "field")) + "\" was updated"
    case _ => eventType
  }

  /** A "Task Updated" entry names the field that changed. */
  lemma DescribeFieldUpdate(field: string, oldValue: Value, newValue: Value, formatDate: Value -> string)
    ensures Describe("Task Updated", FieldUpdated(field, oldValue, newValue), formatDate)
         == "Field \"" + field + "\" was updated"
  {
  }

  /** A status change from or to a missing value reads "Unknown" on that side. */
  lemma DescribeMissingStatus(oldStatus: Value, newStatus: Value, formatDate: Value -> string)
    ensures var d := Describe("Status Changed", StatusChanged(oldStatus, newStatus), formatDate);
      && (!Truthy(oldStatus) ==> d == FromTo("Status", "Unknown", OrText(newStatus, "Unknown")))
      && (!Truthy(newStatus) ==> d == FromTo("Status", OrText(oldStatus, "Unknown"), "Unknown"))
  {
  }

  /** An assignee change from or to nobody reads "Unassigned" on that side. */
  lemma DescribeMissingAssignee(oldAssignee: Value, newAssignee: Value, formatDate: Value -> string)
    ensures var d := Describe("Assignee Changed", AssigneeChanged(oldAssignee, newAssignee), formatDate);
      && (!Truthy(oldAssignee) ==> d == FromTo("Assignee", "Unassigned", OrText(newAssignee, "Unassigned")))
      && (!Truthy(newAssignee) ==> d == FromTo("Assignee", OrText(oldAssignee, "Unassigned"), "Unassigned"))
  {
  }

  /**
   * Of the entries the stores write, only "Default Tasks Removed" is shown as its
   * bare event type; every other entry gets a sentence of its own.
   */
  lemma DescribeLoggedEntry(c: Change, formatDate: Value -> string)
    ensures Describe(EventType(c), c, formatDate) == EventType(c) <==> c.DefaultTasksRemoved?
  {
    var e := EventType(c);
    if e in {"Status Changed", "Priority Changed", "Assignee Changed", "Task Name Changed"} {
      DescribeValueChangeSentence(e, c, formatDate);
    } else if e in {"Due Date Changed", "Start Date Changed"} {
      DescribeDateChangeSentence(e, c, formatDate);
    } else if !c.DefaultTasksRemoved? {
      DescribeOtherSentence(e, c, formatDate);
    }
  }

  /** The "changed from ... to ..." sentences for values differ from their event type. */
  lemma DescribeValueChangeSentence(e: string, c: Change, formatDate: Value -> string)
    requires e in {"Status Changed", "Priority Changed", "Assignee Changed", "Task Name Changed"}
    ensures Describe(e, c, formatDate) != e
  {
    var d := Describe(e, c, formatDate);
    if e == "Status Changed" {
      PrefixDiffers(d, e, "Status" + " changed", 7);
    } else if e == "Priority Changed" {
      PrefixDiffers(d, e, "Priority" + " changed", 9);
    } else if e == "Assignee Changed" {
      PrefixDiffers(d, e, "Assignee" + " changed", 9);
    } else {
      PrefixDiffers(d, e, "Task name" + " changed", 5);
    }
  }

  /** The "changed from ... to ..." sentences for dates differ from their event type. */
  lemma DescribeDateChangeSentence(e: string, c: Change, formatDate: Value -> string)
    requires e in {"Due Date Changed", "Start Date Changed"}
    ensures Describe(e, c, formatDate) != e
  {
    var d := Describe(e, c, formatDate);
    if e == "Due Date Changed" {
      PrefixDiffers(d, e, "Due date" + " changed", 4);
    } else {
      PrefixDiffers(d, e, "Start date" + " changed", 6);
    }
  }

  /** The remaining described events get a sentence that differs from the event type. */
  lemma DescribeOtherSentence(e: string, c: Change, formatDate: Value -> string)
    requires e in DescribedEvents
    requires e !in {"Status Changed", "Priority Changed", "Due Date Changed", "Start Date Changed", "Assignee Changed", "Task Name Changed"}
    ensures Describe(e, c, formatDate) != e
  {
    if e == "Assignee Added" || e == "Assignee Removed" {
      DescribeAssigneeListSentence(e, c, formatDate);
    } else if e in {"Task Archived", "Task Created", "Task Deleted"} {
      DescribeTaskWasSentence(e, c, formatDate);
    } else {
      DescribeFieldSentence(e, c, formatDate);
    }
  }

  /** The added and removed assignee sentences start "Assignee(s)". */
  lemma DescribeAssigneeListSentence(e: string, c: Change, formatDate: Value -> string)
    requires e == "Assignee Added" || e == "Assignee Removed"
    ensures Describe(e, c, formatDate) != e
  {
    PrefixDiffers(Describe(e, c, formatDate), e, "Assignee(s)", 8);
  }

  /** The archive, create and delete sentences start "Task was". */
  lemma DescribeTaskWasSentence(e: string, c: Change, formatDate: Value -> string)
    requires e in {"Task Archived", "Task Created", "Task Deleted"}
    ensures Describe(e, c, formatDate) != e
  {
    PrefixDiffers(Describe(e, c, formatDate), e, "Task was", 5);
  }

  /** The description and field sentences start "Task description" and "Field". */
  lemma DescribeFieldSentence(e: string, c: Change, formatDate: Value -> string)
    requires e in DescribedEvents
    requires e !in {"Status Changed", "Priority Changed", "Due Date Changed", "Start Date Changed", "Assignee Changed", "Task Name Changed"}
    requires e !in {"Assignee Added", "Assignee Removed", "Task Archived", "Task Created", "Task Deleted"}
    ensures Describe(e, c, formatDate) != e
  {
    if e == "Description Updated" {
      PrefixDiffers(Describe(e, c, formatDate), e, "Task description", 0);
    } else {
      PrefixDiffers(Describe(e, c, formatDate), e, "Field", 0);
    }
  }

  /** A string that starts with `p` differs from one that does not have `p`'s character at `i`. */
  lemma PrefixDiffers(d: string, e: string, p: string, i: nat)
    requires |p| <= |d| && d[..|p|] == p
    requires i < |p| && (i >= |e| || e[i] != p[i])
    ensures d != e
  {
    assert d[i] == d[..|p|][i];
  }
}
