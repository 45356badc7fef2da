/**
 * The persisted records: tasks (plain objects with the fields of the Task type
 * in types/index.ts), activity log entries with their change payloads, and the
 * user profile.
 */
module Types {
  import opened Values

  /**
   * A task as stored: a plain object. The declared fields are `id`, `title`,
   * `name`, `description`, `status`, `priority`, `tags`, `parent_id`,
   * `assignees`, `start_date`, `end_date`, `actual_start_date`,
   * `actual_end_date`, `order`, `archived`, `committed`, `dependencies`,
   * `created_at` and `updated_at`; the stores and forms also carry other keys
   * (`user_id`) and values of other types, so nothing more is imposed.
   */
  type Task = Record

  /** The `user_id` every activity entry is written with. */
  const LocalUserId: string := "local-user"

  /**
   * The payload of an activity entry (the object serialised into its `changes`
   * field): what was created, deleted or changed.
   */
  datatype Change =
    | Created(name: Value, status: Value, priority: Value, description: Value)
    | Deleted
    | DefaultTasksRemoved
    | StatusChanged(oldStatus: Value, newStatus: Value)
    | PriorityChanged(oldPriority: Value, newPriority: Value)
    | DueDateChanged(oldDueDate: Value, newDueDate: Value)
    | StartDateChanged(oldStartDate: Value, newStartDate: Value)
    | AssigneeAdded(added: seq<string>)
    | AssigneeRemoved(removed: seq<string>)
    | AssigneeChanged(oldAssignee: Value, newAssignee: Value)
    | TaskArchived(archived: Value)
    | NameChanged(oldName: Value, newName: Value)
    | DescriptionUpdated
    | FieldUpdated(field: string, oldValue: Value, newValue: Value)

  /** The `event_type` an entry with this payload is logged under. */
  function EventType(c: Change): string {
    match c
    case Created(_, _, _, _) => "Task Created"
    case Deleted => "Task Deleted"
    case DefaultTasksRemoved => "Default Tasks Removed"
    case StatusChanged(_, _) => "Status Changed"
    case PriorityChanged(_, _) => "Priority Changed"
    case DueDateChanged(_, _) => "Due Date Changed"
    case StartDateChanged(_, _) => "Start Date Changed"
    case AssigneeAdded(_) => "Assignee Added"
    case AssigneeRemoved(_) => "Assignee Removed"
    case AssigneeChanged(_, _) => "Assignee Changed"
    case TaskArchived(_) => "Task Archived"
    case NameChanged(_, _) => "Task Name Changed"
    case DescriptionUpdated => "Description Updated"
    case FieldUpdated(_, _, _) => "Task Updated"
  }

  /**
   * A property of the payload as the details dialog reads it after parsing
   * (`changes.old_status`, ...); `Absent` when the payload has no such
   * property. Payloads derived from an update also carry their event type
   * under `type`.
   */
  function Field(c: Change, key: string): Value {
    match c
    case Created(n, s, p, d) =>
      if key == "name" then n else if key == "status" then s
      else if key == "priority" then p else if key == "description" then d else Absent
    case Deleted => if key == "deleted" then Bool(true) else Absent
    case DefaultTasksRemoved => if key == "action" then Str("removed_default_tasks") else Absent
    case _ =>
      if key == "type" then Str(EventType(c))
      else match c
        case StatusChanged(o, n) =>
          if key == "old_status" then o else if key == "new_status" then n else Absent
        case PriorityChanged(o, n) =>
          if key == "old_priority" then o else if key == "new_priority" then n else Absent
        case DueDateChanged(o, n) =>
          if key == "old_due_date" then o else if key == "new_due_date" then n else Absent
        case StartDateChanged(o, n) =>
          if key == "old_start_date" then o else if key == "new_start_date" then n else Absent
        case AssigneeAdded(a) => if key == "assignees_added" then StrList(a) else Absent
        case AssigneeRemoved(r) => if key == "assignees_removed" then StrList(r) else Absent
        case AssigneeChanged(o, n) =>
          if key == "old_assignee" then o else if key == "new_assignee" then n else Absent
        case TaskArchived(a) => if key == "archived" then a else Absent
        case NameChanged(o, n) =>
          if key == "old_name" then o else if key == "new_name" then n else Absent
        case DescriptionUpdated => if key == "description_changed" then Bool(true) else Absent
        case FieldUpdated(f, o, n) =>
          if key == "field" then Str(f) else if key == "old_value" then o
          else if key == "new_value" then n else Absent
        case _ => Absent
  }

  /** An entry of the activity log. */
  datatype ActivityLog = ActivityLog(
    id: string,
    taskId: string,
    taskName: Value,
    eventType: string,
    changes: Change,
    createdAt: string,
    userId: string)

  datatype AvatarType = Emoji | Upload | Url

  /** The profile kept under the `kanban-user` key. */
  datatype Profile = Profile(name: string, avatar: string, avatarType: AvatarType)

  /** `task.name || task.title`: the name an entry about the task carries. */
  function DisplayName(t: Task): Value {
    Or(Get(t, "name"), Get(t, "title"))
  }
}
