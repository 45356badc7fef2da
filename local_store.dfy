/**
 * lib/local-store.ts: the data layer. Four browser storage slots hold the task
 * list (`kanban-tasks`), the activity log (`kanban-activity`), the list of known
 * user names (`kanban-users`) and the profile (`kanban-user`). Every operation
 * loads a whole slot, changes it and writes it back.
 */
module LocalStore {
  import opened Wrappers
  import opened Seqs
  import opened Values
  import opened Types
  import opened Text
  import opened Sorting
  import ChangeLog

  /** The content of a storage slot: nothing (or the empty string), text that is not JSON, or parsed data. */
  datatype Slot<T> = Missing | Unparseable | Stored(data: T)

  /** `getData`: the parsed array, or `[]` when the slot is empty or does not parse. */
  function Load<T>(slot: Slot<seq<T>>): (r: seq<T>)
    ensures slot.Stored? ==> r == slot.data
    ensures !slot.Stored? ==> r == []
  {
    if slot.Stored? then slot.data else []
  }

  /** The part of `initializeDefaultData` for the task and activity slots: an empty slot gets `[]`. */
  function InitList<T>(slot: Slot<seq<T>>): (r: Slot<seq<T>>)
    ensures Load(r) == Load(slot)
    ensures slot.Missing? ==> r == Stored([])
    ensures !slot.Missing? ==> r == slot
  {
    if slot.Missing? then Stored([]) else slot
  }

  /* ---------------------------------------------------------------------- */
  /* The user-name list and its migration                                    */
  /* ---------------------------------------------------------------------- */

  /**
   * An element of the parsed `kanban-users` array: a JSON value, or an object
   * of the older format with `name` and `username` properties (`Absent` when
   * the property is not there).
   */
  datatype UserEntry = Item(v: Value) | UserObject(name: Value, username: Value)

  /** The entry for the user name `n`. */
  function NameEntry(n: string): UserEntry {
    Item(Str(n))
  }

  const DefaultUsers: seq<UserEntry> := [NameEntry("Local User")]

  /** Whether the array is in the older format: its first element is an object with a `name` property. */
  predicate IsLegacy(entries: seq<UserEntry>) {
    |entries| > 0 && entries[0].UserObject? && entries[0].name != Absent
  }

  /**
   * `user.name || user.username || 'Unknown User'` for one element; `None` when
   * reading a property throws, which it does on `null`.
   */
  function LegacyName(e: UserEntry): Option<Value> {
    match e
    case Item(v) => if v == Null || v == Absent then None else Some(Str("Unknown User"))
    case UserObject(n, u) => Some(Or(n, Or(u, Str("Unknown User"))))
  }

  /** The names the migration keeps: truthy and not the `'Unknown User'` placeholder. */
  predicate KeptName(v: Value) {
    Truthy(v) && v != Str("Unknown User")
  }

  /** The `map` and `filter` of the migration; `None` when the `map` throws. */
  function MigrateEntries(entries: seq<UserEntry>): (r: Option<seq<UserEntry>>)
    ensures r.Some? ==> forall i | 0 <= i < |r.value| :: r.value[i].Item? && KeptName(r.value[i].v)
    ensures r.None? <==> exists i | 0 <= i < |entries| :: LegacyName(entries[i]).None?
    decreases |entries|
  {
    if entries == [] then Some([])
    else
      match LegacyName(entries[0])
      case None => None
      case Some(n) =>
        var rest := MigrateEntries(entries[1..]);
        if rest.None? then
          var i :| 0 <= i < |entries[1..]| && LegacyName(entries[1..][i]).None?;
          assert LegacyName(entries[i + 1]).None?;
          None
        else if KeptName(n) then Some([Item(n)] + rest.value)
        else Some(rest.value)
  }

  /**
   * The user-list part of `initializeDefaultData`: an empty slot gets
   * `["Local User"]`; an array in the older format is replaced by its names, or
   * by `["Local User"]` when none remains; text that does not parse, or an old
   * array whose conversion throws, is reset to `["Local User"]`. Anything else
   * is left as it is.
   */
  function InitUsers(slot: Slot<seq<UserEntry>>): (r: Slot<seq<UserEntry>>)
    ensures r.Stored? && !IsLegacy(r.data)
    ensures slot.Missing? || slot.Unparseable? ==> r == Stored(DefaultUsers)
    ensures slot.Stored? && !IsLegacy(slot.data) ==> r == slot
    ensures slot.Stored? && IsLegacy(slot.data) && (exists i | 0 <= i < |slot.data| :: LegacyName(slot.data[i]).None?) ==>
      r == Stored(DefaultUsers)
    ensures slot.Stored? && IsLegacy(slot.data) && (forall i | 0 <= i < |slot.data| :: LegacyName(slot.data[i]).Some?) ==>
      r == Stored(if LegacyNames(slot.data) == [] then DefaultUsers else LegacyNames(slot.data))
  {
    match slot
    case Missing => Stored(DefaultUsers)
    case Unparseable => Stored(DefaultUsers)
    case Stored(entries) =>
      if !IsLegacy(entries) then slot
      else
        match MigrateEntries(entries)
        case None => Stored(DefaultUsers)
        case Some(names) =>
          MigrateMatchesNames(entries);
          if names == [] then Stored(DefaultUsers) else Stored(names)
  }

  /** A slot initialisation leaves as it is: a stored list with no legacy entry. */
  predicate UsersReady(slot: Slot<seq<UserEntry>>) {
    slot.Stored? && !IsLegacy(slot.data)
  }

  /** `userStore.getAll()`: the list after initialisation. */
  function UsersOf(slot: Slot<seq<UserEntry>>): seq<UserEntry> {
    Load(InitUsers(slot))
  }

  /** Initialising twice is initialising once: the migration never applies to its own output. */
  lemma InitUsersIdempotent(slot: Slot<seq<UserEntry>>)
    ensures InitUsers(InitUsers(slot)) == InitUsers(slot)
  {
  }

  /**
   * The migration keeps exactly the names of the old entries, in order: for
   * an array in the older format without `null` elements, the list becomes the
   * truthy `name`-or-`username` values other than `'Unknown User'`, or
   * `["Local User"]` when there are none.
   */
  lemma MigrationKeepsNames(entries: seq<UserEntry>)
    requires IsLegacy(entries)
    requires forall i | 0 <= i < |entries| :: LegacyName(entries[i]).Some?
    ensures var names := LegacyNames(entries);
      UsersOf(Stored(entries)) == if names == [] then DefaultUsers else names
  {
    MigrateMatchesNames(entries);
  }

  /** The names the older-format entries convert to, in order. */
  function LegacyNames(entries: seq<UserEntry>): seq<UserEntry>
    requires forall i | 0 <= i < |entries| :: LegacyName(entries[i]).Some?
    decreases |entries|
  {
    if entries == [] then []
    else
      var n := LegacyName(entries[0]).value;
      (if KeptName(n) then [Item(n)] else []) + LegacyNames(entries[1..])
  }

  lemma {:induction false} MigrateMatchesNames(entries: seq<UserEntry>)
    requires forall i | 0 <= i < |entries| :: LegacyName(entries[i]).Some?
    ensures MigrateEntries(entries) == Some(LegacyNames(entries))
    decreases |entries|
  {
    if entries != [] {
      assert LegacyName(entries[0]).Some?;
      assert forall i | 0 <= i < |entries[1..]| :: entries[1..][i] == entries[i + 1];
      MigrateMatchesNames(entries[1..]);
      var n := LegacyName(entries[0]).value;
      var rest := LegacyNames(entries[1..]);
      assert LegacyNames(entries) == (if KeptName(n) then [Item(n)] else []) + rest;
      if KeptName(n) {
        assert MigrateEntries(entries) == Some([Item(n)] + rest);
      } else {
        assert [] + rest == rest;
        assert MigrateEntries(entries) == Some(rest);
      }
    }
  }

  /** `users.includes(name) ? users : [...users, name]`: `userStore.add` on the loaded list. */
  function AddName(users: seq<UserEntry>, name: string): (r: seq<UserEntry>)
    ensures NameEntry(name) in r
    ensures |users| <= |r| && r[..|users|] == users
    ensures forall e | e in r :: e in users || e == NameEntry(name)
    ensures Distinct(users) ==> Distinct(r)
    ensures NameEntry(name) in users ==> r == users
  {
    if NameEntry(name) in users then users else users + [NameEntry(name)]
  }

  /** Adding a name that is already there changes nothing; adding twice is adding once. */
  lemma AddNameIdempotent(users: seq<UserEntry>, name: string)
    ensures AddName(AddName(users, name), name) == AddName(users, name)
  {
  }

  /** `users.filter(user => user !== name)`: `userStore.remove` on the loaded list. */
  function RemoveName(users: seq<UserEntry>, name: string): (r: seq<UserEntry>)
    ensures NameEntry(name) !in r
    ensures forall e | e in users && e != NameEntry(name) :: e in r
    ensures Subsequence(r, users)
    ensures multiset(r) <= multiset(users)
    ensures forall e | e in users && e != NameEntry(name) :: multiset(r)[e] == multiset(users)[e]
  {
    FilterCounts(users, IsNot(NameEntry(name)));
    Filter(users, IsNot(NameEntry(name)))
  }

  function IsNot(entry: UserEntry): UserEntry -> bool {
    (e: UserEntry) => e != entry
  }

  /** Removing a name that is not there changes nothing. */
  lemma RemoveAbsentName(users: seq<UserEntry>, name: string)
    requires NameEntry(name) !in users
    ensures RemoveName(users, name) == users
  {
    FilterKeepsAll(users, IsNot(NameEntry(name)));
  }

  /** Removing after adding leaves no trace of the name. */
  lemma RemoveAfterAdd(users: seq<UserEntry>, name: string)
    ensures RemoveName(AddName(users, name), name) == RemoveName(users, name)
  {
    if NameEntry(name) !in users {
      FilterConcat(users, [NameEntry(name)], IsNot(NameEntry(name)));
      assert Filter([NameEntry(name)], IsNot(NameEntry(name))) == [] by {
        assert [NameEntry(name)][1..] == [];
      }
    }
  }

  /* ---------------------------------------------------------------------- */
  /* Task queries                                                            */
  /* ---------------------------------------------------------------------- */

  /** `task.id === id`. */
  predicate HasId(t: Task, id: string) {
    Get(t, "id") == Str(id)
  }

  /** `tasks.findIndex(task => task.id === id)`, `None` for `-1`. */
  function FirstIndexWithId(tasks: seq<Task>, id: string): (r: Option<nat>)
    ensures r.Some? ==> r.value < |tasks| && HasId(tasks[r.value], id)
    ensures r.Some? ==> forall j | 0 <= j < r.value :: !HasId(tasks[j], id)
    ensures r.None? ==> forall j | 0 <= j < |tasks| :: !HasId(tasks[j], id)
    decreases |tasks|
  {
    if tasks == [] then None
    else if HasId(tasks[0], id) then Some(0)
    else
      match FirstIndexWithId(tasks[1..], id)
      case None => None
      case Some(i) => Some(i + 1)
  }

  /** `tasks.find(task => task.id === id) || null`: `taskStore.getById` on the loaded list. */
  function FindById(tasks: seq<Task>, id: string): (r: Option<Task>)
    ensures r.Some? <==> exists t | t in tasks :: HasId(t, id)
    ensures r.Some? ==> HasId(r.value, id) && r.value in tasks
    ensures r.Some? ==> exists i | 0 <= i < |tasks| :: tasks[i] == r.value && forall j | 0 <= j < i :: !HasId(tasks[j], id)
  {
    match FirstIndexWithId(tasks, id)
    case None => None
    case Some(i) => Some(tasks[i])
  }

  /** `task.status === status && !task.archived`. */
  function InColumn(status: string): Task -> bool {
    (t: Task) => Get(t, "status") == Str(status) && !Truthy(Get(t, "archived"))
  }

  /** `taskStore.getByStatus` on the loaded list: the non-archived tasks with that status, in list order. */
  function ByStatus(tasks: seq<Task>, status: string): (r: seq<Task>)
    ensures forall t | t in r :: t in tasks && Get(t, "status") == Str(status) && !Truthy(Get(t, "archived"))
    ensures forall t | t in tasks && Get(t, "status") == Str(status) && !Truthy(Get(t, "archived")) :: t in r
    ensures Subsequence(r, tasks)
    ensures multiset(r) <= multiset(tasks)
    ensures forall t | t in tasks && Get(t, "status") == Str(status) && !Truthy(Get(t, "archived")) :: multiset(r)[t] == multiset(tasks)[t]
  {
    FilterCounts(tasks, InColumn(status));
    Filter(tasks, InColumn(status))
  }

  /** `!task.parent_id && !task.archived`. */
  function IsTopLevel(t: Task): bool {
    !Truthy(Get(t, "parent_id")) && !Truthy(Get(t, "archived"))
  }

  /** `taskStore.getTopLevel` on the loaded list: the non-archived tasks without a parent, in list order. */
  function TopLevel(tasks: seq<Task>): (r: seq<Task>)
    ensures forall t | t in r :: t in tasks && !Truthy(Get(t, "parent_id")) && !Truthy(Get(t, "archived"))
    ensures forall t | t in tasks && !Truthy(Get(t, "parent_id")) && !Truthy(Get(t, "archived")) :: t in r
    ensures Subsequence(r, tasks)
    ensures multiset(r) <= multiset(tasks)
    ensures forall t | t in tasks && !Truthy(Get(t, "parent_id")) && !Truthy(Get(t, "archived")) :: multiset(r)[t] == multiset(tasks)[t]
  {
    FilterCounts(tasks, IsTopLevel);
    Filter(tasks, IsTopLevel)
  }

  function ChildOf(parentId: string): Task -> bool {
    (t: Task) => Get(t, "parent_id") == Str(parentId)
  }

  /** `taskStore.getChildren` on the loaded list: every task with that parent, archived ones included. */
  function Children(tasks: seq<Task>, parentId: string): (r: seq<Task>)
    ensures forall t | t in r :: t in tasks && Get(t, "parent_id") == Str(parentId)
    ensures forall t | t in tasks && Get(t, "parent_id") == Str(parentId) :: t in r
    ensures Subsequence(r, tasks)
    ensures multiset(r) <= multiset(tasks)
    ensures forall t | t in tasks && Get(t, "parent_id") == Str(parentId) :: multiset(r)[t] == multiset(tasks)[t]
  {
    FilterCounts(tasks, ChildOf(parentId));
    Filter(tasks, ChildOf(parentId))
  }

  /** `ids.indexOf(v)`: the first position holding the string `v`, `None` for `-1`. */
  function IndexOf(ids: seq<string>, v: Value): (r: Option<nat>)
    ensures r.Some? ==> r.value < |ids| && Str(ids[r.value]) == v
    ensures r.Some? ==> forall j | 0 <= j < r.value :: Str(ids[j]) != v
    ensures r.None? ==> forall j | 0 <= j < |ids| :: Str(ids[j]) != v
    decreases |ids|
  {
    if ids == [] then None
    else if Str(ids[0]) == v then Some(0)
    else
      match IndexOf(ids[1..], v)
      case None => None
      case Some(i) => Some(i + 1)
  }

  /** One task after `reorder(ids)`: `{...task, order: i}` for the first position `i` of its id, else the task itself. */
  function Reposition(t: Task, ids: seq<string>): Task {
    match IndexOf(ids, Get(t, "id"))
    case None => t
    case Some(i) => Set(t, "order", Num(i))
  }

  /** The list `reorder(ids)` writes. */
  function Reordered(tasks: seq<Task>, ids: seq<string>): (r: seq<Task>)
    ensures |r| == |tasks|
    ensures forall i | 0 <= i < |tasks| :: r[i] == Reposition(tasks[i], ids)
  {
    seq(|tasks|, i requires 0 <= i < |tasks| => Reposition(tasks[i], ids))
  }

  /**
   * What `reorder` promises: every task whose id is listed gets the first
   * position of its id as its `order`; every other task, and every other field,
   * is unchanged.
   */
  lemma ReorderedFields(tasks: seq<Task>, ids: seq<string>)
    ensures |Reordered(tasks, ids)| == |tasks|
    ensures forall i, k | 0 <= i < |tasks| && k != "order" :: Get(Reordered(tasks, ids)[i], k) == Get(tasks[i], k)
    ensures forall i, j | 0 <= i < |tasks| && 0 <= j < |ids| ::
      Str(ids[j]) == Get(tasks[i], "id") && (forall j' | 0 <= j' < j :: ids[j'] != ids[j]) ==>
      Get(Reordered(tasks, ids)[i], "order") == Num(j)
    ensures forall i | 0 <= i < |tasks| && (forall j | 0 <= j < |ids| :: Str(ids[j]) != Get(tasks[i], "id")) ::
      Reordered(tasks, ids)[i] == tasks[i]
  {
    forall i, j | 0 <= i < |tasks| && 0 <= j < |ids| &&
      Str(ids[j]) == Get(tasks[i], "id") && (forall j' | 0 <= j' < j :: ids[j'] != ids[j])
      ensures Get(Reordered(tasks, ids)[i], "order") == Num(j)
    {
      var found := IndexOf(ids, Get(tasks[i], "id"));
      assert found.Some?;
    }
  }

  /* ---------------------------------------------------------------------- */
  /* Default-task removal                                                    */
  /* ---------------------------------------------------------------------- */

  /** `s.includes(sub)` on strings: `sub` occurs somewhere in `s`. */
  predicate Contains(s: string, sub: string)
    decreases |s|
  {
    (|sub| <= |s| && s[..|sub|] == sub) || (s != [] && Contains(s[1..], sub))
  }

  /** `tags.includes(tag)`: list membership for an array, substring search for a string, an error otherwise. */
  function TagsInclude(tags: Value, tag: string): Result<bool, string> {
    match tags
    case StrList(items) => Success(tag in items)
    case Str(s) => Success(Contains(s, tag))
    case _ => Failure("TypeError")
  }

  /** The tags that mark the seeded tasks. */
  const DefaultTags: seq<string> := ["welcome", "project", "onboarding"]

  /** `tags.includes` of any default tag; an error when the tags value has no `includes`. */
  function IsDefaultTask(t: Task): Result<bool, string> {
    var tags := Get(t, "tags");
    if tags.StrList? || tags.Str? then
      Success(TagsInclude(tags, "welcome").value || TagsInclude(tags, "project").value
        || TagsInclude(tags, "onboarding").value)
    else Failure("TypeError")
  }

  predicate IsKept(t: Task) {
    IsDefaultTask(t).Success? && !IsDefaultTask(t).value
  }

  /**
   * The list `removeDefaultTasks` writes: the tasks whose tags contain none of
   * the default tags. The filter throws, and nothing is written, as soon as a
   * task's tags are neither an array nor a string.
   */
  function WithoutDefaults(tasks: seq<Task>): (r: Result<seq<Task>, string>)
    ensures r.Success? <==> forall t | t in tasks :: IsDefaultTask(t).Success?
    ensures r.Success? ==> r.value == Filter(tasks, IsKept)
    decreases |tasks|
  {
    if tasks == [] then Success([])
    else
      var head := IsDefaultTask(tasks[0]);
      if head.Failure? then Failure(head.error)
      else
        var rest := WithoutDefaults(tasks[1..]);
        if rest.Failure? then
          assert exists t | t in tasks[1..] :: IsDefaultTask(t).Failure?;
          Failure(rest.error)
        else
          assert forall t | t in tasks :: t == tasks[0] || t in tasks[1..];
          Success((if head.value then [] else [tasks[0]]) + rest.value)
  }

  /** A kept task has none of the default tags among its listed tags. */
  lemma KeptTasksHaveNoDefaultTag(tasks: seq<Task>)
    requires WithoutDefaults(tasks).Success?
    ensures forall t | t in WithoutDefaults(tasks).value ::
      Get(t, "tags").StrList? ==> forall tag | tag in DefaultTags :: tag !in Get(t, "tags").items
  {
    forall t | t in WithoutDefaults(tasks).value && Get(t, "tags").StrList?
      ensures forall tag | tag in DefaultTags :: tag !in Get(t, "tags").items
    {
      assert IsKept(t);
    }
  }

  /* ---------------------------------------------------------------------- */
  /* Activity queries                                                        */
  /* ---------------------------------------------------------------------- */

  /**
   * `new Date(s).getTime()` for timestamps written by `toISOString`: their
   * digits read as one decimal number order them as the instants they denote.
   */
  function Instant(s: string): int {
    DigitsValue(s)
  }

  /** The sort key of `(a, b) => time(b) - time(a)`: later entries first. */
  function NewestFirst(a: ActivityLog): int {
    -Instant(a.createdAt)
  }

  /** `.slice(0, end)`: a prefix; a negative end counts from the back. */
  function SliceTo<T>(s: seq<T>, end: int): (r: seq<T>)
    ensures |r| <= |s| && r == s[..|r|]
    ensures 0 <= end ==> |r| == if end < |s| then end else |s|
    ensures end < 0 ==> |r| == if |s| + end < 0 then 0 else |s| + end
  {
    var n := if end < 0 then (if |s| + end < 0 then 0 else |s| + end) else (if end < |s| then end else |s|);
    s[..n]
  }

  /** `activityStore.getRecent(limit)` on the loaded log: newest first, cut to `limit`. */
  function Recent(log: seq<ActivityLog>, limit: int): (r: seq<ActivityLog>)
    ensures SortedBy(r, NewestFirst)
    ensures multiset(r) <= multiset(log)
    ensures 0 <= limit ==> |r| == if limit < |log| then limit else |log|
    ensures forall a, b | a in r && b in multiset(log) - multiset(r) :: Instant(b.createdAt) <= Instant(a.createdAt)
  {
    var sorted := SortBy(log, NewestFirst);
    var r := SliceTo(sorted, limit);
    SortedPrefix(sorted, |r|, NewestFirst);
    r
  }

  function ForTask(taskId: string): ActivityLog -> bool {
    (a: ActivityLog) => a.taskId == taskId
  }

  /** `activityStore.getByTaskId` on the loaded log: the task's entries, newest first. */
  function ByTaskId(log: seq<ActivityLog>, taskId: string): (r: seq<ActivityLog>)
    ensures SortedBy(r, NewestFirst)
    ensures forall a | a in r :: a in log && a.taskId == taskId
    ensures forall a | a in log && a.taskId == taskId :: a in r
    ensures multiset(r) == multiset(Filter(log, ForTask(taskId)))
  {
    var mine := Filter(log, ForTask(taskId));
    var r := SortBy(mine, NewestFirst);
    SameElements(r, mine);
    r
  }

  /** Entries with the same timestamp keep their logging order. */
  lemma ByTaskIdKeepsLoggingOrder(log: seq<ActivityLog>, taskId: string, at: int)
    ensures WithRank(ByTaskId(log, taskId), NewestFirst, at) == WithRank(Filter(log, ForTask(taskId)), NewestFirst, at)
  {
    SortByIsStable(Filter(log, ForTask(taskId)), NewestFirst, at);
  }

  /* ---------------------------------------------------------------------- */
  /* Records the store writes                                                */
  /* ---------------------------------------------------------------------- */

  /** An activity entry as the stores log it: event type from the payload, user `local-user`. */
  function Entry(id: string, taskId: string, taskName: Value, c: Change, createdAt: string): (a: ActivityLog)
    ensures a.eventType == EventType(c) && a.changes == c && a.userId == LocalUserId
    ensures a.id == id && a.taskId == taskId && a.taskName == taskName && a.createdAt == createdAt
  {
    ActivityLog(id, taskId, taskName, EventType(c), c, createdAt, LocalUserId)
  }

  /** The payload `create` logs: the display name, status, priority and description of the new task. */
  function CreatedChange(t: Task): Change {
    Created(DisplayName(t), Get(t, "status"), Get(t, "priority"), Get(t, "description"))
  }

  /** The task `create` stores: the fields passed in, then a fresh id and both timestamps. */
  function Stamped(task: Task, id: string, createdAt: string, updatedAt: string): Task {
    SetAll(task, [("id", Str(id)), ("created_at", Str(createdAt)), ("updated_at", Str(updatedAt))])
  }

  /** The stored task has the fresh id and timestamps, and every other field as passed in. */
  lemma StampedFields(task: Task, id: string, createdAt: string, updatedAt: string)
    ensures var r := Stamped(task, id, createdAt, updatedAt);
      && Get(r, "id") == Str(id)
      && Get(r, "created_at") == Str(createdAt) && Get(r, "updated_at") == Str(updatedAt)
      && forall k | k != "id" && k != "created_at" && k != "updated_at" :: Get(r, k) == Get(task, k)
  {
    var fields := [("id", Str(id)), ("created_at", Str(createdAt)), ("updated_at", Str(updatedAt))];
    var t1 := Set(task, "id", Str(id));
    var t2 := Set(t1, "created_at", Str(createdAt));
    var t3 := Set(t2, "updated_at", Str(updatedAt));
    assert SetAll(t3, fields[3..]) == t3;
    assert SetAll(t2, fields[2..]) == t3;
    assert SetAll(t1, fields[1..]) == t3;
  }

  /** `task.id !== id`: the tasks `delete` keeps. */
  function LacksId(id: string): Task -> bool {
    (t: Task) => !HasId(t, id)
  }

  /** `delete` on the loaded list: every task with the id is dropped, every other one kept in order. */
  lemma DeleteDropsExactlyTheId(tasks: seq<Task>, id: string)
    ensures forall t | t in Filter(tasks, LacksId(id)) :: !HasId(t, id)
    ensures forall t | t in tasks && !HasId(t, id) :: t in Filter(tasks, LacksId(id))
    ensures (exists t | t in tasks :: HasId(t, id)) ==> |Filter(tasks, LacksId(id))| < |tasks|
  {
    if t :| t in tasks && HasId(t, id) {
      FilterShorter(tasks, LacksId(id), t);
    }
  }

  /** A filter that rejects some element of the list is shorter than the list. */
  lemma {:induction false} FilterShorter<T>(s: seq<T>, p: T -> bool, x: T)
    requires x in s && !p(x)
    ensures |Filter(s, p)| < |s|
    decreases |s|
  {
    if s[0] != x {
      FilterShorter(s[1..], p, x);
    }
  }

  /** `toISOString().split('T')[0]`: the date part of a timestamp. */
  function DatePart(iso: string): string {
    Split(iso, 'T')[0]
  }

  /** The title of the first seeded task, kept character for character as the source spells it. */
  const WelcomeTitle: string := "Welcome to Boardly! \U{00F0}\U{0178}\U{017D}\U{2030}"

  const WelcomeDescription: string := "This is your first task! Click on it to edit details, change status, or add assignees. You can delete these default tasks by clicking them and selecting delete, or go to your profile settings in the top right and click 'Remove Default Tasks'"
  const ProjectDescription: string := "Start by creating a new project to organise your work. You can add tasks, set priorities, and track progress."

  /** The property names of a seeded task, in the order the literal writes them. */
  const SeedKeys: seq<string> := [
    "id", "title", "name", "description", "status",
    "priority", "assignees", "start_date", "end_date", "actual_start_date",
    "actual_end_date", "created_at", "updated_at", "archived", "order",
    "parent_id", "tags", "committed", "dependencies"]

  lemma SeedKeysDistinct()
    ensures DistinctKeys(SeedKeys)
  {
    forall i, j | 0 <= i < j < |SeedKeys| ensures SeedKeys[i] != SeedKeys[j] {
      assert |SeedKeys[i]| != |SeedKeys[j]| || SeedKeys[i][0] != SeedKeys[j][0];
    }
  }

  /**
   * The property values of the first seeded task, "Welcome to Boardly!": a
   * medium-priority to-do due a week after it was created.
   */
  function WelcomeValues(id: string, start: string, end: string, created: string, updated: string): (r: seq<Value>)
    ensures |r| == |SeedKeys|
  {
    [Str(id), Str(WelcomeTitle), Str(WelcomeTitle), Str(WelcomeDescription), Str("todo"),
     Str("Medium"), StrList([]), Str(DatePart(start)), Str(DatePart(end)), Null,
     Null, Str(created), Str(updated), Bool(false), Num(0),
     Null, StrList(["onboarding"]), Bool(false), Str("")]
  }

  /**
   * The property values of the second seeded task, "Create your first project":
   * a started, committed high-priority task due three days after it was created.
   */
  function ProjectValues(id: string, start: string, end: string, actualStart: string, created: string, updated: string): (r: seq<Value>)
    ensures |r| == |SeedKeys|
  {
    [Str(id), Str("Create your first project"), Str("Create your first project"), Str(ProjectDescription), Str("in-progress"),
     Str("High"), StrList([]), Str(DatePart(start)), Str(DatePart(end)), Str(DatePart(actualStart)),
     Null, Str(created), Str(updated), Bool(false), Num(1),
     Null, StrList(["onboarding", "project"]), Bool(true), Str("")]
  }

  function WelcomeTask(id: string, start: string, end: string, created: string, updated: string): Task {
    SeedKeysDistinct();
    Literal(SeedKeys, WelcomeValues(id, start, end, created, updated))
  }

  function ProjectTask(id: string, start: string, end: string, actualStart: string, created: string, updated: string): Task {
    SeedKeysDistinct();
    Literal(SeedKeys, ProjectValues(id, start, end, actualStart, created, updated))
  }

  /** Where a seeded task's placement and tags sit among the literal's values. */
  lemma SeedGets(vals: seq<Value>)
    requires |vals| == |SeedKeys|
    ensures DistinctKeys(SeedKeys)
    ensures var t := Literal(SeedKeys, vals);
      && Get(t, "id") == vals[0] && Get(t, "status") == vals[4] && Get(t, "archived") == vals[13] && Get(t, "order") == vals[14]
      && Get(t, "parent_id") == vals[15] && Get(t, "tags") == vals[16]
  {
    SeedKeysDistinct();
    assert SeedKeys[0] == "id" && SeedKeys[4] == "status" && SeedKeys[13] == "archived" && SeedKeys[14] == "order";
    assert SeedKeys[15] == "parent_id" && SeedKeys[16] == "tags";
  }

  /** Any task whose tag list holds `onboarding` is a default task. */
  lemma OnboardingTaggedIsDefault(t: Task)
    requires Get(t, "tags").StrList? && "onboarding" in Get(t, "tags").items
    ensures IsDefaultTask(t) == Success(true)
  {
  }

  /**
   * The seeded tasks are default tasks: both carry the `onboarding` tag, so
   * `removeDefaultTasks` takes them out again. They sit in the to-do and
   * in-progress columns at orders 0 and 1, and neither is archived nor a subtask.
   */
  lemma SeededTasksAreDefaults(w: Task, p: Task)
    requires exists id, start, end, created, updated :: w == WelcomeTask(id, start, end, created, updated)
    requires exists id, start, end, actualStart, created, updated :: p == ProjectTask(id, start, end, actualStart, created, updated)
    ensures WithoutDefaults([w, p]) == Success([])
    ensures ByStatus([w, p], "todo") == [w] && ByStatus([w, p], "in-progress") == [p]
    ensures TopLevel([w, p]) == [w, p]
    ensures Get(w, "order") == Num(0) && Get(p, "order") == Num(1)
  {
    var id, start, end, created, updated :| w == WelcomeTask(id, start, end, created, updated);
    WelcomeTaskFields(id, start, end, created, updated);
    var id', start', end', actualStart, created', updated' :| p == ProjectTask(id', start', end', actualStart, created', updated');
    ProjectTaskFields(id', start', end', actualStart, created', updated');
    TodoThenInProgress(w, p);
  }

  /** Two unarchived top-level default tasks, a to-do and an in-progress one, each form their own column. */
  lemma TodoThenInProgress(a: Task, b: Task)
    requires IsDefaultTask(a) == Success(true) && IsDefaultTask(b) == Success(true)
    requires Get(a, "status") == Str("todo") && Get(b, "status") == Str("in-progress")
    requires Get(a, "archived") == Bool(false) && Get(b, "archived") == Bool(false)
    requires Get(a, "parent_id") == Null && Get(b, "parent_id") == Null
    ensures WithoutDefaults([a, b]) == Success([])
    ensures ByStatus([a, b], "todo") == [a]
    ensures ByStatus([a, b], "in-progress") == [b]
    ensures TopLevel([a, b]) == [a, b]
  {
    assert [a, b][1..] == [b];
    assert [a, b][1..][1..] == [];
    FilterPair(a, b, InColumn("todo"));
    FilterPair(a, b, InColumn("in-progress"));
    TopLevelPair(a, b);
  }

  /** A list of two top-level tasks is its own top level. */
  lemma TopLevelPair(a: Task, b: Task)
    requires IsTopLevel(a) && IsTopLevel(b)
    ensures TopLevel([a, b]) == [a, b]
  {
    FilterPair(a, b, IsTopLevel);
  }

  /** Where the first seeded task's id, column, order, parent and tags sit among its values. */
  lemma WelcomeValuesAt(id: string, start: string, end: string, created: string, updated: string)
    ensures var r := WelcomeValues(id, start, end, created, updated);
      && r[0] == Str(id) && r[4] == Str("todo") && r[13] == Bool(false) && r[14] == Num(0) && r[15] == Null
      && r[16] == StrList(["onboarding"])
  {
  }

  /** Where the second seeded task's id, column, order, parent and tags sit among its values. */
  lemma ProjectValuesAt(id: string, start: string, end: string, actualStart: string, created: string, updated: string)
    ensures var r := ProjectValues(id, start, end, actualStart, created, updated);
      && r[0] == Str(id) && r[4] == Str("in-progress") && r[13] == Bool(false) && r[14] == Num(1) && r[15] == Null
      && r[16] == StrList(["onboarding", "project"])
  {
  }

  lemma WelcomeTaskFields(id: string, start: string, end: string, created: string, updated: string)
    ensures var t := WelcomeTask(id, start, end, created, updated);
      && IsDefaultTask(t) == Success(true) && Get(t, "id") == Str(id)
      && Get(t, "status") == Str("todo") && Get(t, "order") == Num(0)
      && Get(t, "archived") == Bool(false) && Get(t, "parent_id") == Null
  {
    WelcomeValuesAt(id, start, end, created, updated);
    SeedGets(WelcomeValues(id, start, end, created, updated));
    OnboardingTaggedIsDefault(WelcomeTask(id, start, end, created, updated));
  }

  lemma ProjectTaskFields(id: string, start: string, end: string, actualStart: string, created: string, updated: string)
    ensures var t := ProjectTask(id, start, end, actualStart, created, updated);
      && IsDefaultTask(t) == Success(true) && Get(t, "id") == Str(id)
      && Get(t, "status") == Str("in-progress") && Get(t, "order") == Num(1)
      && Get(t, "archived") == Bool(false) && Get(t, "parent_id") == Null
  {
    ProjectValuesAt(id, start, end, actualStart, created, updated);
    SeedGets(ProjectValues(id, start, end, actualStart, created, updated));
    OnboardingTaggedIsDefault(ProjectTask(id, start, end, actualStart, created, updated));
  }

  /** An entry waiting to be logged: what `activityStore.create` is given, less the id and the time. */
  datatype Pending = Pending(taskId: string, taskName: Value, change: Change)

  /** The entries `update` logs: one per derived payload, all under the task's id and the updated task's name. */
  function UpdatePending(id: string, updated: Task, changes: seq<Change>): (r: seq<Pending>)
    ensures |r| == |changes|
    ensures forall i | 0 <= i < |r| :: r[i].taskId == id && r[i].taskName == DisplayName(updated) && r[i].change == changes[i]
  {
    seq(|changes|, i requires 0 <= i < |changes| => Pending(id, DisplayName(updated), changes[i]))
  }

  /** One payload gives one entry. */
  lemma PendingOfOne(id: string, updated: Task, c: Change)
    ensures UpdatePending(id, updated, [c]) == [Pending(id, DisplayName(updated), c)]
  {
  }

  /** The entry `create` and `createOnboardingTasks` log for a new task. */
  function CreatedPending(id: string, t: Task): Pending {
    Pending(id, DisplayName(t), CreatedChange(t))
  }

  /** A task's `id`; every task the stores write has a string id, and the empty string stands for any other value. */
  function IdOf(t: Task): string {
    if Get(t, "id").Str? then Get(t, "id").s else ""
  }

  /** The entries `createOnboardingTasks` logs, one per written task, each under the task's own id. */
  function CreatedFor(tasks: seq<Task>): (r: seq<Pending>)
    ensures |r| == |tasks|
    ensures forall i | 0 <= i < |tasks| :: r[i] == CreatedPending(IdOf(tasks[i]), tasks[i])
  {
    seq(|tasks|, i requires 0 <= i < |tasks| => CreatedPending(IdOf(tasks[i]), tasks[i]))
  }

  /* ---------------------------------------------------------------------- */
  /* The stores                                                              */
  /* ---------------------------------------------------------------------- */

  /**
   * What the stores draw from outside: `crypto.randomUUID` and the clock are
   * the functions `uuid` and `clock` applied to the number of draws and reads
   * so far; `later(t, d)` is the timestamp `d` days after `t`.
   */
  datatype Env = Env(uuid: nat -> string, clock: nat -> string, later: (string, nat) -> string)

  /** The `n`-th uuid drawn. */
  function Uuid(env: Env, n: nat): string {
    env.uuid(n)
  }

  /** The `n`-th clock reading. */
  function Clock(env: Env, n: nat): string {
    env.clock(n)
  }

  /** The timestamp `days` days after `t`. */
  function Later(env: Env, t: string, days: nat): string {
    env.later(t, days)
  }

  /** The entry logged for `p` with the given id and time. */
  function Logged(p: Pending, id: string, at: string): ActivityLog {
    Entry(id, p.taskId, p.taskName, p.change, at)
  }

  /**
   * The entry `taskStore.create` logs for the task `t` it built after `n`
   * uuids and `c` clock readings: the next uuid, the clock reading after the
   * task's two timestamps.
   */
  function CreateLog(env: Env, n: nat, c: nat, t: Task): ActivityLog {
    Logged(CreatedPending(IdOf(t), t), Uuid(env, n + 1), Clock(env, c + 2))
  }

  /**
   * The logged entries for `pending`, one after the other: the entry for the
   * `i`-th one takes the `i`-th uuid and clock reading from the given ones on.
   */
  function LogsFor(env: Env, pending: seq<Pending>, firstId: nat, firstRead: nat): (r: seq<ActivityLog>)
    ensures |r| == |pending|
    decreases |pending|
  {
    if pending == [] then []
    else
      var k := |pending| - 1;
      LogsFor(env, pending[..k], firstId, firstRead) + [Logged(pending[k], Uuid(env, firstId + k), Clock(env, firstRead + k))]
  }

  /** The `i`-th logged entry is the `i`-th pending one under the `i`-th id and time. */
  lemma {:induction false} LogsForAt(env: Env, pending: seq<Pending>, firstId: nat, firstRead: nat, i: nat)
    requires i < |pending|
    ensures LogsFor(env, pending, firstId, firstRead)[i] == Logged(pending[i], Uuid(env, firstId + i), Clock(env, firstRead + i))
    decreases |pending|
  {
    var k := |pending| - 1;
    if i < k {
      LogsForAt(env, pending[..k], firstId, firstRead, i);
    }
  }

  /**
   * The entries `taskStore.update` logs for the stored task `stored`: one per
   * changed key, under the merged task's name, starting from uuid `firstId`
   * and clock reading `firstRead + 1` (reading `firstRead` stamps the merge).
   */
  function UpdateLogs(env: Env, stored: Task, id: string, u: Task, firstId: nat, firstRead: nat): (r: seq<ActivityLog>)
    ensures |r| == |ChangeLog.Derive(stored, u)|
  {
    var updated := ChangeLog.Merge(stored, u, Clock(env, firstRead));
    LogsFor(env, UpdatePending(id, updated, ChangeLog.Derive(stored, u)), firstId, firstRead + 1)
  }

  /** Logging one more entry extends the log by that entry. */
  lemma LogsForSnoc(env: Env, pending: seq<Pending>, k: nat, firstId: nat, firstRead: nat)
    requires k < |pending|
    ensures LogsFor(env, pending[..k + 1], firstId, firstRead) ==
      LogsFor(env, pending[..k], firstId, firstRead) + [Logged(pending[k], Uuid(env, firstId + k), Clock(env, firstRead + k))]
  {
    var prefix := pending[..k + 1];
    assert |prefix| - 1 == k && prefix[k] == pending[k];
    assert prefix[..k] == pending[..k];
    LogsForLast(env, prefix, firstId, firstRead);
  }

  /** The last entry of a non-empty log is the last pending one under the last id and time. */
  lemma LogsForLast(env: Env, pending: seq<Pending>, firstId: nat, firstRead: nat)
    requires pending != []
    ensures var k := |pending| - 1;
      LogsFor(env, pending, firstId, firstRead) ==
        LogsFor(env, pending[..k], firstId, firstRead) + [Logged(pending[k], Uuid(env, firstId + k), Clock(env, firstRead + k))]
  {
  }

  /**
   * What archiving a stored task amounts to: the merged task is archived, and
   * the log grows by one "Task Archived" entry, or by nothing when the task
   * already was archived with `true`.
   */
  lemma ArchiveOutcome(env: Env, stored: Task, id: string, firstId: nat, firstRead: nat)
    ensures Get(ChangeLog.Merge(stored, ChangeLog.ArchiveUpdate, Clock(env, firstRead)), "archived") == Bool(true)
    ensures var updated := ChangeLog.Merge(stored, ChangeLog.ArchiveUpdate, Clock(env, firstRead));
      UpdateLogs(env, stored, id, ChangeLog.ArchiveUpdate, firstId, firstRead) ==
        if Get(stored, "archived") == Bool(true) then []
        else [Entry(Uuid(env, firstId), id, DisplayName(updated), TaskArchived(Bool(true)), Clock(env, firstRead + 1))]
  {
    assert Get(ChangeLog.ArchiveUpdate, "archived") == Bool(true);
    ChangeLog.ArchiveLogs(stored);
    var updated := ChangeLog.Merge(stored, ChangeLog.ArchiveUpdate, Clock(env, firstRead));
    LogsOfChanges(env, id, updated, ChangeLog.Derive(stored, ChangeLog.ArchiveUpdate), firstId, firstRead + 1);
  }

  /** Logging no payload logs nothing; logging one logs one entry with the first uuid and clock reading. */
  lemma LogsOfChanges(env: Env, id: string, updated: Task, changes: seq<Change>, firstId: nat, firstRead: nat)
    requires |changes| <= 1
    ensures LogsFor(env, UpdatePending(id, updated, changes), firstId, firstRead) ==
      if changes == [] then []
      else [Entry(Uuid(env, firstId), id, DisplayName(updated), changes[0], Clock(env, firstRead))]
  {
    var pending := UpdatePending(id, updated, changes);
    if changes != [] {
      assert changes == [changes[0]];
      PendingOfOne(id, updated, changes[0]);
      assert pending[..0] == [];
    }
  }

  /** The welcome task built after `n` uuid draws and `c` clock reads. */
  function WelcomeAt(env: Env, n: nat, c: nat): Task {
    WelcomeTask(Uuid(env, n), Clock(env, c), Later(env, Clock(env, c + 1), 7), Clock(env, c + 2), Clock(env, c + 3))
  }

  /** The project task built after `n` uuid draws and `c` clock reads. */
  function ProjectAt(env: Env, n: nat, c: nat): Task {
    ProjectTask(Uuid(env, n), Clock(env, c), Later(env, Clock(env, c + 1), 3), Clock(env, c + 2), Clock(env, c + 3), Clock(env, c + 4))
  }

  lemma WelcomeAtStamps(env: Env, n: nat, c: nat, id: string, start: string, end: string, created: string, updated: string)
    requires id == Uuid(env, n) && start == Clock(env, c) && end == Later(env, Clock(env, c + 1), 7)
    requires created == Clock(env, c + 2) && updated == Clock(env, c + 3)
    ensures WelcomeTask(id, start, end, created, updated) == WelcomeAt(env, n, c)
  {
  }

  lemma ProjectAtStamps(env: Env, n: nat, c: nat, id: string, start: string, end: string, actualStart: string, created: string, updated: string)
    requires id == Uuid(env, n) && start == Clock(env, c) && end == Later(env, Clock(env, c + 1), 3)
    requires actualStart == Clock(env, c + 2) && created == Clock(env, c + 3) && updated == Clock(env, c + 4)
    ensures ProjectTask(id, start, end, actualStart, created, updated) == ProjectAt(env, n, c)
  {
  }

  lemma SeededIs(env: Env, n: nat, c: nat)
    ensures Seeded(env, n, c) == [WelcomeAt(env, n, c), ProjectAt(env, n + 1, c + 4)]
  {
  }

  /** The two tasks `createOnboardingTasks` writes after `n` uuid draws and `c` clock reads. */
  function Seeded(env: Env, n: nat, c: nat): seq<Task> {
    [WelcomeAt(env, n, c), ProjectAt(env, n + 1, c + 4)]
  }

  /** The entries `createOnboardingTasks` logs after writing the seeded tasks: one "Task Created" each, in order. */
  function SeedLogs(env: Env, n: nat, c: nat): seq<ActivityLog> {
    LogsFor(env, CreatedFor(Seeded(env, n, c)), n + 2, c + 9)
  }

  /** Each seeded task is logged under the id drawn for it. */
  lemma SeedLogsNameSeeds(env: Env, n: nat, c: nat)
    ensures |SeedLogs(env, n, c)| == 2
    ensures SeedLogs(env, n, c)[0].taskId == Uuid(env, n) && SeedLogs(env, n, c)[1].taskId == Uuid(env, n + 1)
    ensures SeedLogs(env, n, c)[0].id == Uuid(env, n + 2) && SeedLogs(env, n, c)[1].id == Uuid(env, n + 3)
  {
    WelcomeTaskFields(Uuid(env, n), Clock(env, c), Later(env, Clock(env, c + 1), 7), Clock(env, c + 2), Clock(env, c + 3));
    ProjectTaskFields(Uuid(env, n + 1), Clock(env, c + 4), Later(env, Clock(env, c + 5), 3), Clock(env, c + 6), Clock(env, c + 7), Clock(env, c + 8));
    var pending := CreatedFor(Seeded(env, n, c));
    LogsForAt(env, pending, n + 2, c + 9, 0);
    LogsForAt(env, pending, n + 2, c + 9, 1);
  }

  /** The four storage slots with `taskStore`, `activityStore` and `userStore` over them. */
  class Store {
    var tasksSlot: Slot<seq<Task>>
    var activitySlot: Slot<seq<ActivityLog>>
    var usersSlot: Slot<seq<UserEntry>>
    var profileSlot: Slot<Profile>
    var idsDrawn: nat
    var clockReads: nat
    const env: Env

    constructor (env: Env,
                 tasks: Slot<seq<Task>>, activity: Slot<seq<ActivityLog>>,
                 users: Slot<seq<UserEntry>>, profile: Slot<Profile>)
      ensures this.env == env
      ensures tasksSlot == tasks && activitySlot == activity && usersSlot == users && profileSlot == profile
      ensures idsDrawn == 0 && clockReads == 0
    {
      this.env := env;
      tasksSlot, activitySlot, usersSlot, profileSlot := tasks, activity, users, profile;
      idsDrawn, clockReads := 0, 0;
    }

    /** The task list as `getData` loads it. */
    function Tasks(): seq<Task>
      reads this`tasksSlot
    {
      Load(tasksSlot)
    }

    /** The activity log as `getData` loads it. */
    function Activities(): seq<ActivityLog>
      reads this`activitySlot
    {
      Load(activitySlot)
    }

    /** The user-name list as `userStore.getAll` returns it. */
    function Users(): seq<UserEntry>
      reads this`usersSlot
    {
      UsersOf(usersSlot)
    }

    /** `userStore.getCurrentUser`: the stored profile, `null` when absent or unreadable. */
    function CurrentUser(): Option<Profile>
      reads this`profileSlot
    {
      if profileSlot.Stored? then Some(profileSlot.data) else None
    }

    /** `initializeDefaultData`: empty task and activity slots get `[]`, the user list is created or migrated. */
    method InitializeDefaultData()
      modifies this`tasksSlot, this`activitySlot, this`usersSlot
      ensures tasksSlot == InitList(old(tasksSlot)) && activitySlot == InitList(old(activitySlot))
      ensures usersSlot == InitUsers(old(usersSlot))
      ensures Tasks() == old(Tasks()) && Activities() == old(Activities()) && Users() == old(Users())
    {
      tasksSlot := InitList(tasksSlot);
      activitySlot := InitList(activitySlot);
      InitUsersIdempotent(usersSlot);
      usersSlot := InitUsers(usersSlot);
    }

    /** `crypto.randomUUID()`. */
    method NextId() returns (id: string)
      modifies this`idsDrawn
      ensures id == Uuid(env, old(idsDrawn)) && idsDrawn == old(idsDrawn) + 1
    {
      id := Uuid(env, idsDrawn);
      idsDrawn := idsDrawn + 1;
    }

    /** `new Date().toISOString()`. */
    method Now() returns (t: string)
      modifies this`clockReads
      ensures t == Clock(env, old(clockReads)) && clockReads == old(clockReads) + 1
    {
      t := Clock(env, clockReads);
      clockReads := clockReads + 1;
    }

    /** `taskStore.getAll`. */
    method GetAll() returns (r: seq<Task>)
      modifies this`tasksSlot, this`activitySlot, this`usersSlot
      ensures r == old(Tasks()) && Activities() == old(Activities())
      ensures tasksSlot == InitList(old(tasksSlot)) && activitySlot == InitList(old(activitySlot))
      ensures usersSlot == InitUsers(old(usersSlot))
    {
      InitializeDefaultData();
      r := Load(tasksSlot);
    }

    /** `taskStore.getById`: the first task with the id. */
    method GetById(id: string) returns (r: Option<Task>)
      modifies this`tasksSlot, this`activitySlot, this`usersSlot
      ensures r == FindById(old(Tasks()), id)
      ensures tasksSlot == InitList(old(tasksSlot)) && activitySlot == InitList(old(activitySlot))
      ensures usersSlot == InitUsers(old(usersSlot))
    {
      var tasks := GetAll();
      r := FindById(tasks, id);
    }

    /** `taskStore.getByStatus`. */
    method GetByStatus(status: string) returns (r: seq<Task>)
      modifies this`tasksSlot, this`activitySlot, this`usersSlot
      ensures r == ByStatus(old(Tasks()), status)
      ensures tasksSlot == InitList(old(tasksSlot)) && activitySlot == InitList(old(activitySlot))
      ensures usersSlot == InitUsers(old(usersSlot))
    {
      var tasks := GetAll();
      r := ByStatus(tasks, status);
    }

    /** `taskStore.getTopLevel`. */
    method GetTopLevel() returns (r: seq<Task>)
      modifies this`tasksSlot, this`activitySlot, this`usersSlot
      ensures r == TopLevel(old(Tasks()))
      ensures tasksSlot == InitList(old(tasksSlot)) && activitySlot == InitList(old(activitySlot))
      ensures usersSlot == InitUsers(old(usersSlot))
    {
      var tasks := GetAll();
      r := TopLevel(tasks);
    }

    /** `taskStore.getChildren`. */
    method GetChildren(parentId: string) returns (r: seq<Task>)
      modifies this`tasksSlot, this`activitySlot, this`usersSlot
      ensures r == Children(old(Tasks()), parentId)
      ensures tasksSlot == InitList(old(tasksSlot)) && activitySlot == InitList(old(activitySlot))
      ensures usersSlot == InitUsers(old(usersSlot))
    {
      var tasks := GetAll();
      r := Children(tasks, parentId);
    }

    /** `activityStore.create`: the entry gets a fresh id and is appended to the log. */
    method LogActivity(taskId: string, taskName: Value, c: Change, createdAt: string) returns (a: ActivityLog)
      modifies this`tasksSlot, this`activitySlot, this`usersSlot, this`idsDrawn
      ensures a == Entry(Uuid(env, old(idsDrawn)), taskId, taskName, c, createdAt)
      ensures activitySlot == Stored(old(Activities()) + [a])
      ensures tasksSlot == InitList(old(tasksSlot)) && usersSlot == InitUsers(old(usersSlot))
      ensures idsDrawn == old(idsDrawn) + 1
    {
      InitializeDefaultData();
      var activities := Load(activitySlot);
      var id := NextId();
      a := Entry(id, taskId, taskName, c, createdAt);
      activitySlot := Stored(activities + [a]);
    }

    /** One iteration of the logging `forEach`: read the clock, then log the entry under a fresh id. */
    method LogOne(p: Pending) returns (a: ActivityLog)
      requires tasksSlot.Stored? && UsersReady(usersSlot)
      modifies this`tasksSlot, this`activitySlot, this`usersSlot, this`idsDrawn, this`clockReads
      ensures a == Entry(Uuid(env, old(idsDrawn)), p.taskId, p.taskName, p.change, Clock(env, old(clockReads)))
      ensures activitySlot == Stored(old(Activities()) + [a])
      ensures tasksSlot == old(tasksSlot) && usersSlot == old(usersSlot)
      ensures idsDrawn == old(idsDrawn) + 1 && clockReads == old(clockReads) + 1
    {
      var at := Now();
      a := LogActivity(p.taskId, p.taskName, p.change, at);
    }

    /**
     * The `forEach` that logs a list of entries: each iteration reads the clock
     * for the entry's time, then `activityStore.create` draws its id. The slots
     * are already initialised, so the initialisation inside each call changes
     * nothing but the activity log.
     */
    method LogEach(pending: seq<Pending>)
      requires tasksSlot.Stored? && UsersReady(usersSlot)
      modifies this`tasksSlot, this`activitySlot, this`usersSlot, this`idsDrawn, this`clockReads
      ensures tasksSlot == old(tasksSlot) && usersSlot == old(usersSlot)
      ensures Activities() == old(Activities()) + LogsFor(env, pending, old(idsDrawn), old(clockReads))
      ensures activitySlot == if pending == [] then old(activitySlot) else Stored(Activities())
      ensures idsDrawn == old(idsDrawn) + |pending| && clockReads == old(clockReads) + |pending|
    {
      ghost var logged, n, c := Activities(), idsDrawn, clockReads;
      var k := 0;
      while k < |pending|
        invariant 0 <= k <= |pending|
        invariant idsDrawn == n + k && clockReads == c + k
        invariant tasksSlot == old(tasksSlot) && usersSlot == old(usersSlot)
        invariant k == 0 ==> activitySlot == old(activitySlot)
        invariant k > 0 ==> activitySlot == Stored(logged + LogsFor(env, pending[..k], n, c))
        invariant Activities() == logged + LogsFor(env, pending[..k], n, c)
      {
        LogStep(pending, k, logged, n, c);
        k := k + 1;
      }
      assert pending[..k] == pending;
    }

    /** One iteration of `LogEach`: the entry for `pending[k]` joins the ones already logged. */
    method LogStep(pending: seq<Pending>, k: nat, ghost logged: seq<ActivityLog>, ghost n: nat, ghost c: nat)
      requires k < |pending| && tasksSlot.Stored? && UsersReady(usersSlot)
      requires idsDrawn == n + k && clockReads == c + k
      requires Activities() == logged + LogsFor(env, pending[..k], n, c)
      modifies this`tasksSlot, this`activitySlot, this`usersSlot, this`idsDrawn, this`clockReads
      ensures tasksSlot == old(tasksSlot) && usersSlot == old(usersSlot)
      ensures idsDrawn == n + k + 1 && clockReads == c + k + 1
      ensures activitySlot == Stored(logged + LogsFor(env, pending[..k + 1], n, c))
    {
      ghost var before := LogsFor(env, pending[..k], n, c);
      var a := LogOne(pending[k]);
      assert a == Logged(pending[k], Uuid(env, n + k), Clock(env, c + k));
      LogsForSnoc(env, pending, k, n, c);
      AppendAssoc(logged, before, [a]);
    }

    /** `activityStore.getAll`. */
    method GetActivities() returns (r: seq<ActivityLog>)
      modifies this`tasksSlot, this`activitySlot, this`usersSlot
      ensures r == old(Activities())
      ensures tasksSlot == InitList(old(tasksSlot)) && activitySlot == InitList(old(activitySlot))
      ensures usersSlot == InitUsers(old(usersSlot))
    {
      InitializeDefaultData();
      r := Load(activitySlot);
    }

    /** `activityStore.getRecent(limit)`. */
    method GetRecent(limit: int) returns (r: seq<ActivityLog>)
      modifies this`tasksSlot, this`activitySlot, this`usersSlot
      ensures r == Recent(old(Activities()), limit)
      ensures tasksSlot == InitList(old(tasksSlot)) && activitySlot == InitList(old(activitySlot))
      ensures usersSlot == InitUsers(old(usersSlot))
    {
      var activities := GetActivities();
      r := Recent(activities, limit);
    }

    /** `activityStore.getByTaskId(taskId)`. */
    method GetByTaskId(taskId: string) returns (r: seq<ActivityLog>)
      modifies this`tasksSlot, this`activitySlot, this`usersSlot
      ensures r == ByTaskId(old(Activities()), taskId)
      ensures tasksSlot == InitList(old(tasksSlot)) && activitySlot == InitList(old(activitySlot))
      ensures usersSlot == InitUsers(old(usersSlot))
    {
      var activities := GetActivities();
      r := ByTaskId(activities, taskId);
    }

    /**
     * `taskStore.create`: the task is appended with a fresh id and clock-set
     * timestamps that override any passed in, and one "Task Created" entry is
     * logged. The clock is read three times, so nothing ties `created_at` to
     * `updated_at` or to the entry's time.
     */
    method Create(task: Task) returns (newTask: Task)
      modifies this`tasksSlot, this`activitySlot, this`usersSlot, this`idsDrawn, this`clockReads
      ensures newTask == Stamped(task, Uuid(env, old(idsDrawn)), Clock(env, old(clockReads)), Clock(env, old(clockReads) + 1))
      ensures tasksSlot == Stored(old(Tasks()) + [newTask])
      ensures activitySlot == Stored(old(Activities()) +
        [CreateLog(env, old(idsDrawn), old(clockReads), newTask)])
      ensures usersSlot == InitUsers(old(usersSlot))
      ensures idsDrawn == old(idsDrawn) + 2 && clockReads == old(clockReads) + 3
    {
      var tasks := GetAll();
      newTask := AddAndLog(tasks, task);
    }

    /** What `taskStore.create` does once the list is read: build the task, write the list with it appended, log it. */
    method AddAndLog(tasks: seq<Task>, task: Task) returns (newTask: Task)
      requires UsersReady(usersSlot)
      modifies this`tasksSlot, this`activitySlot, this`usersSlot, this`idsDrawn, this`clockReads
      ensures newTask == Stamped(task, Uuid(env, old(idsDrawn)), Clock(env, old(clockReads)), Clock(env, old(clockReads) + 1))
      ensures tasksSlot == Stored(tasks + [newTask])
      ensures activitySlot == Stored(old(Activities()) +
        [CreateLog(env, old(idsDrawn), old(clockReads), newTask)])
      ensures usersSlot == old(usersSlot)
      ensures idsDrawn == old(idsDrawn) + 2 && clockReads == old(clockReads) + 3
    {
      var id := NextId();
      var createdAt := Now();
      var updatedAt := Now();
      newTask := Stamped(task, id, createdAt, updatedAt);
      tasksSlot := Stored(tasks + [newTask]);
      var _ := LogOne(CreatedPending(IdOf(newTask), newTask));
    }

    /**
     * `taskStore.update`: an unknown id fails with "Task not found" before
     * anything is written; otherwise the first task with the id is replaced by
     * the merge, and one entry per changed key of the update is logged, in key
     * order, under the updated task's name.
     */
    method Update(id: string, u: Task) returns (r: Result<Task, string>)
      modifies this`tasksSlot, this`activitySlot, this`usersSlot, this`idsDrawn, this`clockReads
      ensures FirstIndexWithId(old(Tasks()), id).None? ==>
        && r == Failure("Task not found")
        && tasksSlot == InitList(old(tasksSlot)) && activitySlot == InitList(old(activitySlot))
        && idsDrawn == old(idsDrawn) && clockReads == old(clockReads)
      ensures FirstIndexWithId(old(Tasks()), id).Some? ==>
        var i := FirstIndexWithId(old(Tasks()), id).value;
        var updated := ChangeLog.Merge(old(Tasks())[i], u, Clock(env, old(clockReads)));
        var changes := ChangeLog.Derive(old(Tasks())[i], u);
        && r == Success(updated)
        && tasksSlot == Stored(old(Tasks())[i := updated])
        && Activities() == old(Activities()) + UpdateLogs(env, old(Tasks())[i], id, u, old(idsDrawn), old(clockReads))
        && idsDrawn == old(idsDrawn) + |changes| && clockReads == old(clockReads) + 1 + |changes|
      ensures usersSlot == InitUsers(old(usersSlot))
    {
      var tasks := GetAll();
      var found := FirstIndexWithId(tasks, id);
      if found.None? {
        return Failure("Task not found");
      }
      InitUsersIdempotent(old(usersSlot));
      var updated := UpdateAt(tasks, id, found.value, u);
      r := Success(updated);
    }

    /** The part of `taskStore.update` after the task was found at `index` of the stored `tasks`: merge, write, log. */
    method UpdateAt(tasks: seq<Task>, id: string, index: nat, u: Task) returns (updated: Task)
      requires tasksSlot == Stored(tasks) && index < |tasks| && UsersReady(usersSlot)
      modifies this`tasksSlot, this`activitySlot, this`usersSlot, this`idsDrawn, this`clockReads
      ensures updated == ChangeLog.Merge(tasks[index], u, Clock(env, old(clockReads)))
      ensures tasksSlot == Stored(tasks[index := updated])
      ensures Activities() == old(Activities()) + UpdateLogs(env, tasks[index], id, u, old(idsDrawn), old(clockReads))
      ensures idsDrawn == old(idsDrawn) + |ChangeLog.Derive(tasks[index], u)|
      ensures clockReads == old(clockReads) + 1 + |ChangeLog.Derive(tasks[index], u)|
      ensures usersSlot == old(usersSlot)
    {
      updated := MergeAndWrite(tasks, index, u);
      LogEach(UpdatePending(id, updated, ChangeLog.Derive(tasks[index], u)));
    }

    /** The clock read for `updated_at`, the merge, and the write of the list with the merged task in place. */
    method MergeAndWrite(tasks: seq<Task>, index: nat, u: Task) returns (updated: Task)
      requires tasksSlot == Stored(tasks) && index < |tasks|
      modifies this`tasksSlot, this`clockReads
      ensures updated == ChangeLog.Merge(tasks[index], u, Clock(env, old(clockReads)))
      ensures tasksSlot == Stored(tasks[index := updated])
      ensures clockReads == old(clockReads) + 1
    {
      var now := Now();
      updated := ChangeLog.Merge(tasks[index], u, now);
      tasksSlot := Stored(tasks[index := updated]);
    }

    /**
     * `taskStore.delete`: an unknown id fails with "Task not found" before
     * anything is written; otherwise every task with the id is dropped and one
     * "Task Deleted" entry is logged under the first such task's name.
     */
    method Delete(id: string) returns (r: Result<(), string>)
      modifies this`tasksSlot, this`activitySlot, this`usersSlot, this`idsDrawn, this`clockReads
      ensures FindById(old(Tasks()), id).None? ==>
        && r == Failure("Task not found")
        && tasksSlot == InitList(old(tasksSlot)) && activitySlot == InitList(old(activitySlot))
        && idsDrawn == old(idsDrawn) && clockReads == old(clockReads)
      ensures FindById(old(Tasks()), id).Some? ==>
        && r == Success(())
        && tasksSlot == Stored(Filter(old(Tasks()), LacksId(id)))
        && activitySlot == Stored(old(Activities()) + [Entry(Uuid(env, old(idsDrawn)), id,
             DisplayName(FindById(old(Tasks()), id).value), Deleted, Clock(env, old(clockReads)))])
        && idsDrawn == old(idsDrawn) + 1 && clockReads == old(clockReads) + 1
      ensures usersSlot == InitUsers(old(usersSlot))
    {
      var tasks := GetAll();
      var task := FindById(tasks, id);
      if task.None? {
        return Failure("Task not found");
      }
      tasksSlot := Stored(Filter(tasks, LacksId(id)));
      var at := Now();
      var _ := LogActivity(id, DisplayName(task.value), Deleted, at);
      r := Success(());
    }

    /**
     * `taskStore.archive`: the update `{archived: true}`. The task comes back
     * archived, and a single "Task Archived" entry is logged unless it already
     * was archived with `true`.
     */
    method Archive(id: string) returns (r: Result<Task, string>)
      modifies this`tasksSlot, this`activitySlot, this`usersSlot, this`idsDrawn, this`clockReads
      ensures FirstIndexWithId(old(Tasks()), id).None? ==>
        r == Failure("Task not found") && Tasks() == old(Tasks()) && Activities() == old(Activities())
      ensures FirstIndexWithId(old(Tasks()), id).Some? ==>
        var i := FirstIndexWithId(old(Tasks()), id).value;
        && r == Success(ChangeLog.Merge(old(Tasks())[i], ChangeLog.ArchiveUpdate, Clock(env, old(clockReads))))
        && Tasks() == old(Tasks())[i := r.value]
        && Activities() == old(Activities()) + UpdateLogs(env, old(Tasks())[i], id, ChangeLog.ArchiveUpdate, old(idsDrawn), old(clockReads))
    {
      r := Update(id, ChangeLog.ArchiveUpdate);
    }

    /** `taskStore.reorder`: every listed task takes the first position of its id as `order`; nothing is logged. */
    method Reorder(ids: seq<string>)
      modifies this`tasksSlot, this`activitySlot, this`usersSlot
      ensures tasksSlot == Stored(Reordered(old(Tasks()), ids))
      ensures activitySlot == InitList(old(activitySlot)) && usersSlot == InitUsers(old(usersSlot))
    {
      var tasks := GetAll();
      tasksSlot := Stored(Reordered(tasks, ids));
    }

    /**
     * `taskStore.removeDefaultTasks`: the tasks tagged welcome, project or
     * onboarding are dropped and one "Default Tasks Removed" entry is logged
     * under the task id "system", whether or not any task was dropped. A task
     * whose tags have no `includes` throws before anything is written.
     */
    method RemoveDefaultTasks() returns (r: Result<(), string>)
      modifies this`tasksSlot, this`activitySlot, this`usersSlot, this`idsDrawn, this`clockReads
      ensures WithoutDefaults(old(Tasks())).Failure? ==>
        && r == Failure("TypeError")
        && tasksSlot == InitList(old(tasksSlot)) && activitySlot == InitList(old(activitySlot))
        && idsDrawn == old(idsDrawn) && clockReads == old(clockReads)
      ensures WithoutDefaults(old(Tasks())).Success? ==>
        && r == Success(())
        && tasksSlot == Stored(WithoutDefaults(old(Tasks())).value)
        && activitySlot == Stored(old(Activities()) + [Entry(Uuid(env, old(idsDrawn)), "system", Str("System"),
             DefaultTasksRemoved, Clock(env, old(clockReads)))])
        && idsDrawn == old(idsDrawn) + 1 && clockReads == old(clockReads) + 1
      ensures usersSlot == InitUsers(old(usersSlot))
    {
      var tasks := GetAll();
      var kept := WithoutDefaults(tasks);
      if kept.Failure? {
        return Failure("TypeError");
      }
      tasksSlot := Stored(kept.value);
      var at := Now();
      var _ := LogActivity("system", Str("System"), DefaultTasksRemoved, at);
      r := Success(());
    }

    /** The `onboardingTasks` array literal, its ids and timestamps drawn property by property. */
    method NewOnboardingTasks() returns (batch: seq<Task>)
      modifies this`idsDrawn, this`clockReads
      ensures batch == Seeded(env, old(idsDrawn), old(clockReads))
      ensures idsDrawn == old(idsDrawn) + 2 && clockReads == old(clockReads) + 9
    {
      var n, c := idsDrawn, clockReads;
      var welcome := NewWelcomeTask();
      var project := NewProjectTask();
      batch := [welcome, project];
      SeededIs(env, n, c);
    }

    /** The first literal: "Welcome to Boardly!", its id and timestamps drawn in the order its properties are written. */
    method NewWelcomeTask() returns (t: Task)
      modifies this`idsDrawn, this`clockReads
      ensures t == WelcomeAt(env, old(idsDrawn), old(clockReads))
      ensures idsDrawn == old(idsDrawn) + 1 && clockReads == old(clockReads) + 4
    {
      var n, c := idsDrawn, clockReads;
      var id := NextId();
      var start := Now();
      var now := Now();
      var end := Later(env, now, 7);
      var created := Now();
      var updated := Now();
      WelcomeAtStamps(env, n, c, id, start, end, created, updated);
      t := WelcomeTask(id, start, end, created, updated);
    }

    /** The second literal: "Create your first project", drawn the same way. */
    method NewProjectTask() returns (t: Task)
      modifies this`idsDrawn, this`clockReads
      ensures t == ProjectAt(env, old(idsDrawn), old(clockReads))
      ensures idsDrawn == old(idsDrawn) + 1 && clockReads == old(clockReads) + 5
    {
      var n, c := idsDrawn, clockReads;
      var id := NextId();
      var start := Now();
      var now := Now();
      var end := Later(env, now, 3);
      var actualStart := Now();
      var created := Now();
      var updated := Now();
      ProjectAtStamps(env, n, c, id, start, end, actualStart, created, updated);
      t := ProjectTask(id, start, end, actualStart, created, updated);
    }

    /**
     * `setData([...tasks, ...batch])` followed by the `forEach` that logs a
     * "Task Created" entry for each task of `batch`.
     */
    method WriteAndLog(tasks: seq<Task>, batch: seq<Task>)
      requires batch != [] && UsersReady(usersSlot)
      modifies this`tasksSlot, this`activitySlot, this`usersSlot, this`idsDrawn, this`clockReads
      ensures tasksSlot == Stored(tasks + batch) && usersSlot == old(usersSlot)
      ensures activitySlot == Stored(old(Activities()) + LogsFor(env, CreatedFor(batch), old(idsDrawn), old(clockReads)))
      ensures idsDrawn == old(idsDrawn) + |batch| && clockReads == old(clockReads) + |batch|
    {
      tasksSlot := Stored(tasks + batch);
      LogEach(CreatedFor(batch));
    }

    /**
     * `taskStore.createOnboardingTasks`: on an empty list, the two seeded tasks
     * are written and one "Task Created" entry is logged for each; a list that
     * already has tasks is left alone.
     */
    method CreateOnboardingTasks()
      modifies this`tasksSlot, this`activitySlot, this`usersSlot, this`idsDrawn, this`clockReads
      ensures old(Tasks()) != [] ==>
        && tasksSlot == InitList(old(tasksSlot)) && activitySlot == InitList(old(activitySlot))
        && idsDrawn == old(idsDrawn) && clockReads == old(clockReads)
      ensures old(Tasks()) == [] ==>
        && tasksSlot == Stored(Seeded(env, old(idsDrawn), old(clockReads)))
        && activitySlot == Stored(old(Activities()) + SeedLogs(env, old(idsDrawn), old(clockReads)))
        && idsDrawn == old(idsDrawn) + 4 && clockReads == old(clockReads) + 11
      ensures usersSlot == InitUsers(old(usersSlot))
    {
      var tasks := GetAll();
      if |tasks| > 0 {
        return;
      }
      InitUsersIdempotent(old(usersSlot));
      SeedEmpty();
    }

    /** The branch of `createOnboardingTasks` taken on an empty list: build the two tasks, write and log them. */
    method SeedEmpty()
      requires UsersReady(usersSlot)
      modifies this`tasksSlot, this`activitySlot, this`usersSlot, this`idsDrawn, this`clockReads
      ensures tasksSlot == Stored(Seeded(env, old(idsDrawn), old(clockReads))) && usersSlot == old(usersSlot)
      ensures activitySlot == Stored(old(Activities()) + SeedLogs(env, old(idsDrawn), old(clockReads)))
      ensures idsDrawn == old(idsDrawn) + 4 && clockReads == old(clockReads) + 11
    {
      var batch := NewOnboardingTasks();
      assert [] + batch == batch;
      WriteAndLog([], batch);
    }

    /** `userStore.getAll`. */
    method GetUsers() returns (r: seq<UserEntry>)
      modifies this`tasksSlot, this`activitySlot, this`usersSlot
      ensures r == old(Users())
      ensures tasksSlot == InitList(old(tasksSlot)) && activitySlot == InitList(old(activitySlot))
      ensures usersSlot == InitUsers(old(usersSlot))
    {
      InitializeDefaultData();
      r := Load(usersSlot);
    }

    /** `userStore.add`: the name is appended unless the list already holds it, in which case nothing is written. */
    method AddUser(name: string)
      modifies this`tasksSlot, this`activitySlot, this`usersSlot
      ensures NameEntry(name) in old(Users()) ==> usersSlot == InitUsers(old(usersSlot))
      ensures NameEntry(name) !in old(Users()) ==> usersSlot == Stored(AddName(old(Users()), name))
      ensures Users() == AddName(old(Users()), name)
      ensures tasksSlot == InitList(old(tasksSlot)) && activitySlot == InitList(old(activitySlot))
    {
      var users := GetUsers();
      if NameEntry(name) !in users {
        usersSlot := Stored(users + [NameEntry(name)]);
        assert !IsLegacy(users + [NameEntry(name)]) by {
          assert !IsLegacy(Load(InitUsers(old(usersSlot))));
        }
      }
    }

    /**
     * `userStore.remove`: every occurrence of the name is dropped from the
     * loaded list and the rest is written back.
     */
    method RemoveUser(name: string)
      modifies this`tasksSlot, this`activitySlot, this`usersSlot
      ensures usersSlot == Stored(RemoveName(old(Users()), name))
      ensures NameEntry(name) !in Load(usersSlot)
      ensures tasksSlot == InitList(old(tasksSlot)) && activitySlot == InitList(old(activitySlot))
    {
      var users := GetUsers();
      usersSlot := Stored(RemoveName(users, name));
    }

    /** `userStore.getCurrentUser`. */
    method GetCurrentUser() returns (p: Option<Profile>)
      ensures p.Some? <==> profileSlot.Stored?
      ensures p.Some? ==> p.value == profileSlot.data
    {
      p := if profileSlot.Stored? then Some(profileSlot.data) else None;
    }

    /** `userStore.setCurrentUser`. */
    method SetCurrentUser(p: Profile)
      modifies this`profileSlot
      ensures CurrentUser() == Some(p)
    {
      profileSlot := Stored(p);
    }

    /** `userStore.clearUser`. */
    method ClearUser()
      modifies this`profileSlot
      ensures CurrentUser() == None && profileSlot == Missing
    {
      profileSlot := Missing;
    }

    /** `userStore.hasCompletedOnboarding`: a profile is stored and readable. */
    method HasCompletedOnboarding() returns (b: bool)
      ensures b <==> profileSlot.Stored?
    {
      var p := GetCurrentUser();
      b := p.Some?;
    }
  }
}
