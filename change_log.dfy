/**
 * The audit trail `taskStore.update` derives from an update: one payload per
 * property of the update whose value differs from the stored one, in the
 * update's key order, classified by a fixed key-to-event table.
 */
module ChangeLog {
  import opened Seqs
  import opened Values
  import opened Types

  /**
   * The change test: two arrays differ when their JSON texts differ, anything
   * else when `!==` holds. For the values a task holds this is plain inequality.
   */
  function HasChanged(oldValue: Value, newValue: Value): (changed: bool)
    ensures changed <==> oldValue != newValue
  {
    if oldValue.StrList? && newValue.StrList? then oldValue.items != newValue.items
    else !StrictEquals(oldValue, newValue)
  }

  /** `Array.isArray(v) ? v : []`: the assignee list a value stands for. */
  function AsList(v: Value): (r: seq<string>)
    ensures v.StrList? ==> r == v.items
    ensures !v.StrList? ==> r == []
  {
    if v.StrList? then v.items else []
  }

  /** The payload for a changed property `key`, by the key-to-event table. */
  function Classify(key: string, oldValue: Value, newValue: Value): (c: Change)
    ensures key == "status" ==> c == StatusChanged(oldValue, newValue)
    ensures key == "priority" ==> c == PriorityChanged(oldValue, newValue)
    ensures key == "end_date" ==> c == DueDateChanged(oldValue, newValue)
    ensures key == "start_date" ==> c == StartDateChanged(oldValue, newValue)
    ensures key == "archived" ==> c == TaskArchived(newValue)
    ensures key == "name" || key == "title" ==> c == NameChanged(oldValue, newValue)
    ensures key == "description" ==> c == DescriptionUpdated
    ensures key == "assignees" ==> EventType(c) in {"Assignee Added", "Assignee Removed", "Assignee Changed"}
    ensures key !in TableKeys ==> c == FieldUpdated(key, oldValue, newValue)
    ensures EventType(c) !in {"Task Created", "Task Deleted", "Default Tasks Removed"}
  {
    if key == "status" then StatusChanged(oldValue, newValue)
    else if key == "priority" then PriorityChanged(oldValue, newValue)
    else if key == "end_date" then DueDateChanged(oldValue, newValue)
    else if key == "start_date" then StartDateChanged(oldValue, newValue)
    else if key == "assignees" then
      var oldList, newList := AsList(oldValue), AsList(newValue);
      if |oldList| == 0 && |newList| > 0 then AssigneeAdded(newList)
      else if |oldList| > 0 && |newList| == 0 then AssigneeRemoved(oldList)
      else AssigneeChanged(oldValue, newValue)
    else if key == "archived" then TaskArchived(newValue)
    else if key == "name" || key == "title" then NameChanged(oldValue, newValue)
    else if key == "description" then DescriptionUpdated
    else FieldUpdated(key, oldValue, newValue)
  }

  /** The keys with an event of their own; any other key logs "Task Updated". */
  const TableKeys: set<string> :=
    {"status", "priority", "end_date", "start_date", "assignees", "archived", "name", "title", "description"}

  /**
   * An assignee change is an addition exactly when the stored value held no names
   * (a non-array counts as none) and the new one holds some, a removal exactly
   * in the opposite case, and a plain change otherwise.
   */
  lemma AssigneeEvents(oldValue: Value, newValue: Value)
    ensures var c := Classify("assignees", oldValue, newValue);
      && (c.AssigneeAdded? <==> |AsList(oldValue)| == 0 && |AsList(newValue)| > 0)
      && (c.AssigneeAdded? ==> c.added == AsList(newValue))
      && (c.AssigneeRemoved? <==> |AsList(oldValue)| > 0 && |AsList(newValue)| == 0)
      && (c.AssigneeRemoved? ==> c.removed == AsList(oldValue))
      && (c.AssigneeChanged? <==> (|AsList(oldValue)| == 0) == (|AsList(newValue)| == 0))
      && (c.AssigneeChanged? ==> c == AssigneeChanged(oldValue, newValue))
  {
  }

  /**
   * The payloads for the keys `keys` of the update `u` against the stored task
   * `stored`: they line up with the keys whose value differs, the i-th payload
   * classifying the i-th such key with its stored and its new value.
   */
  function DeriveKeys(stored: Task, keys: seq<string>, u: Task): (r: seq<Change>)
    ensures |r| <= |keys|
    ensures |r| == |Filter(keys, DiffersIn(stored, u))|
    ensures forall i | 0 <= i < |r| ::
      var k := Filter(keys, DiffersIn(stored, u))[i];
      r[i] == Classify(k, Get(stored, k), Get(u, k))
    decreases |keys|
  {
    if keys == [] then []
    else
      var key := keys[0];
      var rest := DeriveKeys(stored, keys[1..], u);
      if HasChanged(Get(stored, key), Get(u, key)) then
        assert DiffersIn(stored, u)(key);
        assert Filter(keys, DiffersIn(stored, u)) == [key] + Filter(keys[1..], DiffersIn(stored, u));
        [Classify(key, Get(stored, key), Get(u, key))] + rest
      else
        assert !DiffersIn(stored, u)(key);
        rest
  }

  /**
   * `Object.keys(updates).map(...).filter(change => change !== null)`: the
   * i-th payload classifies the i-th changed key with its stored and its new value.
   */
  function Derive(stored: Task, u: Task): (r: seq<Change>)
    ensures |r| == |ChangedKeys(stored, u)|
    ensures forall i | 0 <= i < |r| ::
      var k := ChangedKeys(stored, u)[i];
      r[i] == Classify(k, Get(stored, k), Get(u, k))
  {
    DeriveKeys(stored, u.keys, u)
  }

  /** The keys of `u` whose value differs from the stored one, in `u`'s key order. */
  function ChangedKeys(stored: Task, u: Task): (r: seq<string>)
    ensures forall k | k in r :: k in u.values && Get(stored, k) != Get(u, k)
    ensures forall k | k in u.values && Get(stored, k) != Get(u, k) :: k in r
    ensures Subsequence(r, u.keys)
  {
    Filter(u.keys, DiffersIn(stored, u))
  }

  function DiffersIn(stored: Task, u: Task): string -> bool {
    (k: string) => Get(stored, k) != Get(u, k)
  }

  /** No payload comes from a key whose value is the same before and after. */
  lemma {:induction false} UnchangedKeysLogNothing(stored: Task, keys: seq<string>, u: Task)
    requires forall k | k in keys :: Get(stored, k) == Get(u, k)
    ensures DeriveKeys(stored, keys, u) == []
    decreases |keys|
  {
    if keys != [] {
      UnchangedKeysLogNothing(stored, keys[1..], u);
    }
  }

  /** The task `update` stores: stored fields overlaid by the update, then a fresh `updated_at`. */
  function Merge(stored: Task, u: Task, now: string): (r: Task)
    ensures Get(r, "updated_at") == Str(now)
    ensures forall k | k != "updated_at" :: Get(r, k) == if k in u.values then u.values[k] else Get(stored, k)
    ensures forall k | k in stored.values :: k in r.values
    ensures |stored.keys| <= |r.keys| && forall i | 0 <= i < |stored.keys| :: r.keys[i] == stored.keys[i]
  {
    Set(Spread(stored, u), "updated_at", Str(now))
  }

  /**
   * Applying the same update again logs nothing: every key of the update
   * already holds the updated value. An update that itself sets `updated_at`
   * is the exception, since the merge overwrites that key.
   */
  lemma ReapplyLogsNothing(stored: Task, u: Task, now: string)
    requires "updated_at" !in u.values
    ensures Derive(Merge(stored, u, now), u) == []
  {
    var merged := Merge(stored, u, now);
    forall k | k in u.keys ensures Get(merged, k) == Get(u, k) {
      assert k in u.values;
    }
    UnchangedKeysLogNothing(merged, u.keys, u);
  }

  /** An empty update logs nothing, though the merge still refreshes `updated_at`. */
  lemma EmptyUpdateLogsNothing(stored: Task)
    ensures Derive(stored, Empty) == []
  {
  }

  /**
   * `archive` is the update `{archived: true}`: it logs a single "Task
   * Archived" when the task was not yet archived with `true`, and nothing
   * otherwise.
   */
  lemma ArchiveLogs(stored: Task)
    ensures Get(stored, "archived") != Bool(true) ==> Derive(stored, ArchiveUpdate) == [TaskArchived(Bool(true))]
    ensures Get(stored, "archived") == Bool(true) ==> Derive(stored, ArchiveUpdate) == []
  {
    assert ArchiveUpdate.keys == ["archived"];
    assert Get(ArchiveUpdate, "archived") == Bool(true);
  }

  /** The update `{archived: true}`. */
  const ArchiveUpdate: Task := Set(Empty, "archived", Bool(true))

  /** Keys whose value is unchanged contribute nothing: only the changed keys produce payloads. */
  lemma {:induction false} DeriveKeysSkipsUnchanged(stored: Task, keys: seq<string>, u: Task)
    ensures DeriveKeys(stored, keys, u) == DeriveKeys(stored, Filter(keys, DiffersIn(stored, u)), u)
    decreases |keys|
  {
    if keys != [] {
      DeriveKeysSkipsUnchanged(stored, keys[1..], u);
      var rest := Filter(keys[1..], DiffersIn(stored, u));
      if Get(stored, keys[0]) != Get(u, keys[0]) {
        assert ([keys[0]] + rest)[1..] == rest;
      }
    }
  }

  /** Two updates that agree on the values of `keys` give the same payloads for them. */
  lemma {:induction false} DeriveKeysAgree(stored: Task, keys: seq<string>, u: Task, v: Task)
    requires forall k | k in keys :: Get(u, k) == Get(v, k)
    ensures DeriveKeys(stored, keys, u) == DeriveKeys(stored, keys, v)
    decreases |keys|
  {
    if keys != [] {
      DeriveKeysAgree(stored, keys[1..], u, v);
    }
  }
}
