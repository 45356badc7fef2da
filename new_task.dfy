/**
 * The new-task dialog: the order a new task gets in its column, the record it
 * hands to `taskStore.create`, and its assignee, tag and dependency editing.
 */
module NewTask {
  import opened Wrappers
  import opened Seqs
  import opened Values
  import opened Types
  import opened CommaLists
  import opened LocalStore
  import KanbanBoard
  import opened Sorting

  /** `!task.archived`: the tasks the dialog loads for its column count and dependency list. */
  predicate NotArchived(t: Task) {
    !Truthy(Get(t, "archived"))
  }

  /** `task.status === status`. */
  function HasStatus(status: Value): Task -> bool {
    (t: Task) => StrictEquals(Get(t, "status"), status)
  }

  /**
   * The `order` of a new task: the number of tasks in the dialog's list (the
   * loaded tasks less the archived ones) whose status is the form's status.
   */
  function ColumnOrder(loaded: seq<Task>, status: Value): (r: nat)
    ensures r <= |loaded|
  {
    |Filter(Filter(loaded, NotArchived), HasStatus(status))|
  }

  /** Filtering twice is filtering once by both tests. */
  lemma {:induction false} FilterTwice(s: seq<Task>, p: Task -> bool, q: Task -> bool, both: Task -> bool)
    requires forall t :: both(t) == (p(t) && q(t))
    ensures Filter(Filter(s, p), q) == Filter(s, both)
    decreases |s|
  {
    if s != [] {
      FilterTwice(s[1..], p, q, both);
      if p(s[0]) {
        assert Filter(s, p) == [s[0]] + Filter(s[1..], p);
        assert ([s[0]] + Filter(s[1..], p))[1..] == Filter(s[1..], p);
      }
    }
  }

  /**
   * A new task with a string status is placed after every task of its column:
   * its order is the number of non-archived tasks with that status, the size of
   * the board column it joins.
   */
  lemma ColumnOrderIsColumnSize(loaded: seq<Task>, status: string)
    ensures ColumnOrder(loaded, Str(status)) == |ByStatus(loaded, status)|
    ensures ColumnOrder(loaded, Str(status)) == |KanbanBoard.TasksByStatus(loaded, status)|
  {
    FilterTwice(loaded, NotArchived, HasStatus(Str(status)), InColumn(status));
    var column := ByStatus(loaded, status);
    assert |multiset(KanbanBoard.TasksByStatus(loaded, status))| == |multiset(column)|;
  }

  /** The properties `handleSubmit` sets on top of the form, in the order it lists them. */
  function SubmitFields(form: Task, order: nat, createdAt: string, updatedAt: string): seq<(string, Value)> {
    [("title", Or(Or(Get(form, "name"), Get(form, "title")), Str(""))),
     ("assignees", Or(Get(form, "assignees"), StrList([]))),
     ("order", Num(order)),
     ("user_id", Str(LocalUserId)),
     ("created_at", Str(createdAt)),
     ("updated_at", Str(updatedAt))]
  }

  /** `{...newTask, title, assignees, order, user_id, created_at, updated_at}`. */
  function NewTaskRecord(form: Task, order: nat, createdAt: string, updatedAt: string): Task {
    SetAll(form, SubmitFields(form, order, createdAt, updatedAt))
  }

  /**
   * The record handed to `create`: the title is the name, else the title, else
   * ""; the assignees default to `[]`; the order and owner are set; every other
   * field is the form's.
   */
  lemma NewTaskRecordFields(form: Task, order: nat, createdAt: string, updatedAt: string)
    ensures var r := NewTaskRecord(form, order, createdAt, updatedAt);
      && Get(r, "title") == (if Truthy(Get(form, "name")) then Get(form, "name")
                             else if Truthy(Get(form, "title")) then Get(form, "title") else Str(""))
      && Get(r, "assignees") == (if Truthy(Get(form, "assignees")) then Get(form, "assignees") else StrList([]))
      && Get(r, "order") == Num(order)
      && Get(r, "user_id") == Str(LocalUserId)
      && Get(r, "created_at") == Str(createdAt) && Get(r, "updated_at") == Str(updatedAt)
      && forall k | k !in {"title", "assignees", "order", "user_id", "created_at", "updated_at"} :: Get(r, k) == Get(form, k)
  {
    var fields := SubmitFields(form, order, createdAt, updatedAt);
    SetAllGet(form, fields);
    assert fields[0].0 == "title" && fields[1].0 == "assignees" && fields[2].0 == "order";
    assert fields[3].0 == "user_id" && fields[4].0 == "created_at" && fields[5].0 == "updated_at";
  }

  /**
   * `handleSubmit`: the order is counted from the dialog's list, the clock is
   * read twice for the form's timestamps, and the record goes to
   * `taskStore.create`, which draws the id and reads the clock again.
   */
  method Submit(store: Store, form: Task, loaded: seq<Task>) returns (created: Task)
    modifies store`tasksSlot, store`activitySlot, store`usersSlot, store`idsDrawn, store`clockReads
    ensures var c := old(store.clockReads);
      var record := NewTaskRecord(form, ColumnOrder(loaded, Get(form, "status")), Clock(store.env, c), Clock(store.env, c + 1));
      created == Stamped(record, Uuid(store.env, old(store.idsDrawn)), Clock(store.env, c + 2), Clock(store.env, c + 3))
    ensures store.tasksSlot == Stored(old(store.Tasks()) + [created])
    ensures store.activitySlot == Stored(old(store.Activities()) +
      [CreateLog(store.env, old(store.idsDrawn), old(store.clockReads) + 2, created)])
    ensures store.usersSlot == InitUsers(old(store.usersSlot))
    ensures store.idsDrawn == old(store.idsDrawn) + 2 && store.clockReads == old(store.clockReads) + 5
  {
    var record := Prepare(store, form, loaded);
    created := store.Create(record);
  }

  /** The part of `handleSubmit` before `create`: the order and the two clock reads. */
  method Prepare(store: Store, form: Task, loaded: seq<Task>) returns (record: Task)
    modifies store`clockReads
    ensures var c := old(store.clockReads);
      record == NewTaskRecord(form, ColumnOrder(loaded, Get(form, "status")), Clock(store.env, c), Clock(store.env, c + 1))
    ensures store.clockReads == old(store.clockReads) + 2
  {
    var order := ColumnOrder(loaded, Get(form, "status"));
    var createdAt := store.Now();
    var updatedAt := store.Now();
    record := NewTaskRecord(form, order, createdAt, updatedAt);
  }

  /**
   * The task `handleSubmit` creates sits in its column's next position and
   * carries the resolved title.
   */
  lemma SubmittedTask(env: Env, form: Task, loaded: seq<Task>, status: string, n: nat, c: nat)
    requires Get(form, "status") == Str(status)
    ensures var record := NewTaskRecord(form, ColumnOrder(loaded, Get(form, "status")), Clock(env, c), Clock(env, c + 1));
      var t := Stamped(record, Uuid(env, n), Clock(env, c + 2), Clock(env, c + 3));
      && Get(t, "order") == Num(|ByStatus(loaded, status)|)
      && Get(t, "status") == Str(status)
      && Get(t, "title") == Or(Or(Get(form, "name"), Get(form, "title")), Str(""))
  {
    var order := ColumnOrder(loaded, Get(form, "status"));
    var record := NewTaskRecord(form, order, Clock(env, c), Clock(env, c + 1));
    NewTaskRecordFields(form, order, Clock(env, c), Clock(env, c + 1));
    assert Get(record, "status") == Get(form, "status");
    var t := Stamped(record, Uuid(env, n), Clock(env, c + 2), Clock(env, c + 3));
    StampedFields(record, Uuid(env, n), Clock(env, c + 2), Clock(env, c + 3));
    assert Get(t, "status") == Get(record, "status") && Get(t, "order") == Get(record, "order");
    assert Get(t, "title") == Get(record, "title");
    ColumnOrderIsColumnSize(loaded, status);
  }

  /**
   * The timestamps the dialog puts on the record are overridden by the ones
   * `create` takes, and the id is the store's.
   */
  lemma SubmittedTaskStamps(env: Env, form: Task, order: nat, n: nat, c: nat)
    ensures var record := NewTaskRecord(form, order, Clock(env, c), Clock(env, c + 1));
      var t := Stamped(record, Uuid(env, n), Clock(env, c + 2), Clock(env, c + 3));
      && Get(record, "created_at") == Str(Clock(env, c)) && Get(record, "updated_at") == Str(Clock(env, c + 1))
      && Get(t, "id") == Str(Uuid(env, n))
      && Get(t, "created_at") == Str(Clock(env, c + 2)) && Get(t, "updated_at") == Str(Clock(env, c + 3))
  {
    var record := NewTaskRecord(form, order, Clock(env, c), Clock(env, c + 1));
    NewTaskRecordFields(form, order, Clock(env, c), Clock(env, c + 1));
    StampedFields(record, Uuid(env, n), Clock(env, c + 2), Clock(env, c + 3));
  }

  /**
   * `handleAssigneesChange` and the tags input: the typed text becomes the
   * comma-split, trimmed, non-empty pieces, stored as an array under `key`.
   */
  function WithParsedList(form: Task, key: string, text: string): (r: Task)
    ensures Get(r, key) == StrList(Parse(text))
    ensures forall x | x in Parse(text) :: IsItem(x)
    ensures forall k | k != key :: Get(r, k) == Get(form, k)
  {
    Set(form, key, StrList(Parse(text)))
  }

  /** `handleQuickAddUser`: the name is appended unless the assignees already hold it. */
  function QuickAdd(names: seq<string>, name: string): (r: seq<string>)
    ensures name in names ==> r == names
    ensures name !in names ==> r == names + [name]
  {
    if name in names then names else names + [name]
  }

  /** Quick-adding keeps the names without repeats and is idempotent. */
  lemma QuickAddKeepsDistinct(names: seq<string>, name: string)
    ensures Distinct(names) ==> Distinct(QuickAdd(names, name))
    ensures name in QuickAdd(names, name)
    ensures QuickAdd(QuickAdd(names, name), name) == QuickAdd(names, name)
  {
    assert name in names + [name] by { assert (names + [name])[|names|] == name; }
  }

  /** A typed name the blur handler registers: non-empty and not in the list of known users it started from. */
  function IsNewName(available: seq<string>): string -> bool {
    (n: string) => n != "" && n !in available
  }

  /**
   * The user list after `handleAssigneesBlur`: `userStore.add` is called for
   * each new name, in the order typed. The test reads the known-user list as it
   * was when the handler started, so a name typed twice is added twice (the
   * second add changes nothing).
   */
  function Register(users: seq<UserEntry>, available: seq<string>, names: seq<string>): seq<UserEntry>
    decreases |names|
  {
    if names == [] then users
    else if IsNewName(available)(names[0]) then Register(AddName(users, names[0]), available, names[1..])
    else Register(users, available, names[1..])
  }

  /**
   * Registering only appends: the old users stay in front, every new typed
   * name ends up in the list, every added entry is one of the typed names, and
   * a list without repeats keeps none.
   */
  lemma {:induction false} RegisterAppends(users: seq<UserEntry>, available: seq<string>, names: seq<string>)
    ensures var users' := Register(users, available, names);
      && |users| <= |users'| && users'[..|users|] == users
      && (forall n | n in names && IsNewName(available)(n) :: NameEntry(n) in users')
      && (forall e | e in users' && e !in users :: exists n | n in names :: e == NameEntry(n))
      && (Distinct(users) ==> Distinct(users'))
    decreases |names|
  {
    if names != [] {
      var n := names[0];
      var rest := names[1..];
      assert forall x | x in names :: x == n || x in rest;
      assert forall x | x in rest :: x in names;
      var u1 := if IsNewName(available)(n) then AddName(users, n) else users;
      RegisterAppends(u1, available, rest);
      var users' := Register(u1, available, rest);
      assert users'[..|users|] == users'[..|u1|][..|users|];
      forall e | e in u1 ensures e in users' { Prefixed(u1, users', e); }
    }
  }

  /** An element of a prefix is an element of the whole. */
  lemma Prefixed<T>(a: seq<T>, b: seq<T>, x: T)
    requires |a| <= |b| && b[..|a|] == a && x in a
    ensures x in b
  {
    var i :| 0 <= i < |a| && a[i] == x;
    assert b[i] == x;
  }

  /**
   * `handleAssigneesBlur`: each non-empty typed name not among the known users
   * is added to the user store and appended to the known-user list.
   */
  method RegisterAssignees(store: Store, names: seq<string>, available: seq<string>) returns (known: seq<string>)
    modifies store`tasksSlot, store`activitySlot, store`usersSlot
    ensures store.Users() == Register(old(store.Users()), available, names)
    ensures known == available + Filter(names, IsNewName(available))
    ensures store.Tasks() == old(store.Tasks()) && store.Activities() == old(store.Activities())
  {
    known := available;
    for i := 0 to |names|
      invariant Register(store.Users(), available, names[i..]) == Register(old(store.Users()), available, names)
      invariant known == available + Filter(names[..i], IsNewName(available))
      invariant store.Tasks() == old(store.Tasks()) && store.Activities() == old(store.Activities())
    {
      var name := names[i];
      assert names[i..][1..] == names[i + 1..];
      FilterSnoc(names, i, IsNewName(available));
      if name != "" && name !in available {
        store.AddUser(name);
        known := known + [name];
      }
    }
    assert names[..|names|] == names;
  }

  /**
   * Picking a task in the dependency select: an id already listed is ignored
   * (`None`); otherwise the list is rewritten as its entries plus the id,
   * joined with ", ".
   */
  function AddDependency(deps: string, taskId: string): (r: Option<string>)
    ensures r.None? <==> taskId in Parse(deps)
  {
    if taskId in Parse(deps) then None else Some(AppendNormalised(deps, taskId))
  }

  /** An accepted dependency reads as the old entries plus the new id; a list without repeats keeps none. */
  lemma AddDependencyParses(deps: string, taskId: string)
    requires IsItem(taskId) && taskId !in Parse(deps)
    ensures Parse(AddDependency(deps, taskId).value) == Parse(deps) + [taskId]
    ensures Distinct(Parse(deps)) ==> Distinct(Parse(AddDependency(deps, taskId).value))
    ensures AddDependency(AddDependency(deps, taskId).value, taskId) == None
  {
    assert (Parse(deps) + [taskId])[|Parse(deps)|] == taskId;
  }
}
