/**
 * Moving the whole store in and out as one JSON document: the export from
 * the settings page, and the import shared by settings and onboarding.
 */
module DataTransfer {
  import opened Wrappers
  import opened Values
  import opened Types
  import opened LocalStore

  /**
   * A parsed export document. `version` and `exportedAt` are whatever JSON
   * values the file holds; the other properties are `None` when they are
   * missing or falsy, and otherwise hold the array or profile read from the
   * file (an array is truthy even when empty).
   */
  datatype Document = Document(
    version: Value,
    exportedAt: Value,
    user: Option<Profile>,
    tasks: Option<seq<Task>>,
    activities: Option<seq<ActivityLog>>,
    users: Option<seq<UserEntry>>)

  /** The format version `handleExportData` writes. */
  const ExportVersion: string := "1.0.0"

  /** The validation of `handleImportData`: a truthy version, tasks and activities. */
  predicate Accepts(d: Document) {
    Truthy(d.version) && d.tasks.Some? && d.activities.Some?
  }

  /** The four slots the import can write. */
  datatype Slots = Slots(
    tasks: Slot<seq<Task>>,
    activity: Slot<seq<ActivityLog>>,
    users: Slot<seq<UserEntry>>,
    profile: Slot<Profile>)

  /**
   * The slots after importing `d`: nothing for a rejected document; otherwise
   * tasks and activities are replaced, and the users and the profile only when
   * the document holds them.
   */
  function Imported(s: Slots, d: Document): (r: Option<Slots>)
    ensures r.None? <==> !Accepts(d)
    ensures r.Some? ==> r.value.tasks == Stored(d.tasks.value) && r.value.activity == Stored(d.activities.value)
    ensures r.Some? ==> r.value.users == (if d.users.Some? then Stored(d.users.value) else s.users)
    ensures r.Some? ==> r.value.profile == (if d.user.Some? then Stored(d.user.value) else s.profile)
  {
    if !Accepts(d) then None
    else
      Some(Slots(
        Stored(d.tasks.value),
        Stored(d.activities.value),
        if d.users.Some? then Stored(d.users.value) else s.users,
        if d.user.Some? then Stored(d.user.value) else s.profile))
  }

  /** The slots of a store. */
  function SlotsOf(store: Store): Slots
    reads store`tasksSlot, store`activitySlot, store`usersSlot, store`profileSlot
  {
    Slots(store.tasksSlot, store.activitySlot, store.usersSlot, store.profileSlot)
  }

  /**
   * `handleImportData` once the file is parsed: a document without a truthy
   * version, tasks and activities fails before any slot is written; otherwise
   * the profile, tasks, activities and users are written in that order, each
   * only when the document holds it.
   */
  method Import(store: Store, d: Document) returns (ok: bool)
    modifies store`tasksSlot, store`activitySlot, store`usersSlot, store`profileSlot
    ensures ok <==> Accepts(d)
    ensures !ok ==> SlotsOf(store) == old(SlotsOf(store))
    ensures ok ==> Some(SlotsOf(store)) == Imported(old(SlotsOf(store)), d)
  {
    if !Truthy(d.version) || d.tasks.None? || d.activities.None? {
      return false;
    }
    if d.user.Some? {
      store.SetCurrentUser(d.user.value);
    }
    if d.tasks.Some? {
      store.tasksSlot := Stored(d.tasks.value);
    }
    if d.activities.Some? {
      store.activitySlot := Stored(d.activities.value);
    }
    if d.users.Some? {
      store.usersSlot := Stored(d.users.value);
    }
    return true;
  }

  /** The document exported from the slots `s` at time `at`. */
  function ExportOf(s: Slots, at: string): (d: Document)
    ensures d.version == Str(ExportVersion) && d.exportedAt == Str(at)
    ensures d.tasks == Some(Load(s.tasks)) && d.activities == Some(Load(s.activity))
    ensures d.users == Some(UsersOf(s.users))
    ensures d.user.Some? <==> s.profile.Stored?
    ensures d.user.Some? ==> d.user.value == s.profile.data
  {
    Document(Str(ExportVersion), Str(at),
      if s.profile.Stored? then Some(s.profile.data) else None,
      Some(Load(s.tasks)), Some(Load(s.activity)), Some(UsersOf(s.users)))
  }

  /**
   * `handleExportData`: the clock is read for `exportedAt`, then the profile,
   * the tasks, the activities and the user names are read through the stores
   * (which initialise empty slots on the way).
   */
  method Export(store: Store) returns (d: Document)
    modifies store`tasksSlot, store`activitySlot, store`usersSlot, store`clockReads
    ensures d == ExportOf(old(SlotsOf(store)), Clock(store.env, old(store.clockReads)))
    ensures store.tasksSlot == InitList(old(store.tasksSlot)) && store.activitySlot == InitList(old(store.activitySlot))
    ensures store.usersSlot == InitUsers(old(store.usersSlot))
    ensures store.clockReads == old(store.clockReads) + 1
  {
    var at := store.Now();
    var user := store.GetCurrentUser();
    var tasks := store.GetAll();
    var activities := store.GetActivities();
    var users := store.GetUsers();
    InitUsersIdempotent(old(store.usersSlot));
    d := Document(Str(ExportVersion), Str(at), user, Some(tasks), Some(activities), Some(users));
  }

  /**
   * Importing an export restores what the stores read back: every export is
   * accepted, and the importing side then loads the exporter's tasks,
   * activities and user names, and its profile when it had one; without one,
   * the importing side keeps its own profile.
   */
  lemma ExportImportRoundTrip(source: Slots, target: Slots, at: string)
    ensures Imported(target, ExportOf(source, at)).Some?
    ensures var r := Imported(target, ExportOf(source, at)).value;
      && Load(r.tasks) == Load(source.tasks)
      && Load(r.activity) == Load(source.activity)
      && UsersOf(r.users) == UsersOf(source.users)
      && r.profile == (if source.profile.Stored? then source.profile else target.profile)
  {
    var d := ExportOf(source, at);
    assert Truthy(d.version);
    UsersOfStoredUsers(source.users);
  }

  /** Storing the user list as read back reads back the same list: it is never in the older format. */
  lemma UsersOfStoredUsers(slot: Slot<seq<UserEntry>>)
    ensures UsersOf(Stored(UsersOf(slot))) == UsersOf(slot)
  {
    InitUsersIdempotent(slot);
  }

  /** Empty arrays pass the validation; an empty version string does not. */
  lemma EmptyArraysPassEmptyVersionFails(tasks: seq<Task>, activities: seq<ActivityLog>)
    ensures Accepts(Document(Str(ExportVersion), Absent, None, Some([]), Some([]), None))
    ensures !Accepts(Document(Str(""), Absent, None, Some(tasks), Some(activities), None))
  {
  }
}
