/**
 * The board's view of the task list: one column per status, each column the
 * non-archived tasks of that status sorted by their `order`, and the two list
 * updaters the board runs when a dialog creates or updates a task.
 */
module KanbanBoard {
  import opened Wrappers
  import opened Seqs
  import opened Values
  import opened Types
  import opened Sorting
  import opened LocalStore
  import opened Text

  /** A non-empty run of decimal digits. */
  predicate IsDigits(s: string) {
    |s| > 0 && forall c | c in s :: '0' <= c <= '9'
  }

  /**
   * `Number(s)` for the integer forms of a numeric string: surrounding
   * whitespace is ignored, a blank string is 0, and digits may carry one sign.
   * `None` is `NaN`.
   */
  function StringToNumber(s: string): (r: Option<int>)
    ensures (forall c | c in s :: IsSpace(c)) ==> r == Some(0)
    ensures IsDigits(s) ==> r == Some(DigitsValue(s))
  {
    var t := Trim(s);
    TrimEmpty(s);
    DigitsTrimmed(s);
    if t == "" then Some(0)
    else if IsDigits(t) then Some(DigitsValue(t))
    else if t[0] == '-' && IsDigits(t[1..]) then Some(-(DigitsValue(t[1..]) as int))
    else if t[0] == '+' && IsDigits(t[1..]) then Some(DigitsValue(t[1..]))
    else None
  }

  /** Digits carry no whitespace to trim. */
  lemma DigitsTrimmed(s: string)
    ensures IsDigits(s) ==> Trim(s) == s
  {
    if IsDigits(s) {
      TrimNoSpace(s);
    }
  }

  /**
   * The conversion subtraction applies to its operands: `true` is 1, `false`
   * and `null` are 0, a string is read as a number, an array is read as the
   * string its items joined with commas make. `None` is `NaN`.
   */
  function ToNumber(v: Value): (r: Option<int>)
    ensures v.Num? ==> r == Some(v.n)
    ensures v.Bool? ==> r == Some(if v.b then 1 else 0)
    ensures v == Null ==> r == Some(0)
    ensures v.StrList? && v.items == [] ==> r == Some(0)
  {
    match v
    case Num(n) => Some(n)
    case Bool(b) => Some(if b then 1 else 0)
    case Null => Some(0)
    case Absent => None
    case Str(s) => StringToNumber(s)
    case StrList(items) => StringToNumber(Join(items, ","))
  }

  /**
   * The operand `task.order || 0` of the comparator, as a number; an order
   * that reads as `NaN` ranks as 0.
   */
  function OrderRank(t: Task): (r: int)
    ensures !Truthy(Get(t, "order")) ==> r == 0
    ensures Get(t, "order").Num? ==> r == Get(t, "order").n
    ensures Get(t, "order") == Bool(true) ==> r == 1
  {
    var n := ToNumber(Or(Get(t, "order"), Num(0)));
    if n.Some? then n.value else 0
  }

  /** An order written as text, or as a one-item array of that text, ranks as the number the text spells. */
  lemma OrderTextRank(t: Task, n: int)
    requires Get(t, "order") == Str(IntToString(n)) || Get(t, "order") == StrList([IntToString(n)])
    ensures OrderRank(t) == n
  {
    var d := NatToString(if n < 0 then -n else n);
    DigitsValueOfNat(if n < 0 then -n else n);
    var s := IntToString(n);
    assert Join([s], ",") == s;
    assert forall c | c in s :: !IsSpace(c);
    TrimNoSpace(s);
    if n < 0 {
      assert s[1..] == d;
      assert s[0] == '-' && s[0] in s;
    }
  }

  /**
   * `getTasksByStatus`: `tasks.filter(status === s && !archived).sort(by order)`.
   * The column holds exactly the non-archived tasks of the status, each as
   * often as in the list, in non-decreasing order.
   */
  function TasksByStatus(tasks: seq<Task>, status: string): (r: seq<Task>)
    ensures forall t | t in r :: t in tasks && Get(t, "status") == Str(status) && !Truthy(Get(t, "archived"))
    ensures forall t | t in tasks && Get(t, "status") == Str(status) && !Truthy(Get(t, "archived")) :: t in r
    ensures SortedBy(r, OrderRank)
    ensures multiset(r) == multiset(ByStatus(tasks, status))
  {
    var column := ByStatus(tasks, status);
    var r := SortBy(column, OrderRank);
    SameElements(r, column);
    r
  }

  /** Tasks of equal order keep their relative list order in the column. */
  lemma ColumnIsStable(tasks: seq<Task>, status: string, k: int)
    ensures WithRank(TasksByStatus(tasks, status), OrderRank, k) == WithRank(ByStatus(tasks, status), OrderRank, k)
  {
    SortByIsStable(ByStatus(tasks, status), OrderRank, k);
  }

  /** A column of tasks that all share one order is the filtered list unchanged. */
  lemma {:induction false} EqualOrdersKeepListOrder(tasks: seq<Task>, status: string, k: int)
    requires forall t | t in tasks :: OrderRank(t) == k
    ensures TasksByStatus(tasks, status) == ByStatus(tasks, status)
  {
    var column := ByStatus(tasks, status);
    var r := TasksByStatus(tasks, status);
    ColumnIsStable(tasks, status, k);
    assert forall t | t in r :: OrderRank(t) == k;
    FilterKeepsAll(r, RankIs(OrderRank, k));
    FilterKeepsAll(column, RankIs(OrderRank, k));
  }

  /** The four columns: status id and label, in board order. */
  const Columns: seq<(string, string)> :=
    [("todo", "To Do"), ("in-progress", "In Progress"), ("review", "Review"), ("completed", "Completed")]

  /** `statuses.find(s => s.id === status)`: the label of the first column with the id. */
  function FindLabel(columns: seq<(string, string)>, status: string): (r: Option<string>)
    ensures r.Some? <==> exists i | 0 <= i < |columns| :: columns[i].0 == status
    ensures r.Some? ==> exists i | 0 <= i < |columns| :: columns[i] == (status, r.value)
    decreases |columns|
  {
    if columns == [] then None
    else if columns[0].0 == status then Some(columns[0].1)
    else
      var r := FindLabel(columns[1..], status);
      assert forall i | 1 <= i < |columns| :: columns[1..][i - 1] == columns[i];
      r
  }

  /** `getStatusLabel`: the column's label, or the status itself when no column has that id. */
  function StatusLabel(status: string): (r: string)
    ensures status == "todo" ==> r == "To Do"
    ensures status == "in-progress" ==> r == "In Progress"
    ensures status == "review" ==> r == "Review"
    ensures status == "completed" ==> r == "Completed"
    ensures status !in {"todo", "in-progress", "review", "completed"} ==> r == status
  {
    match FindLabel(Columns, status)
    case Some(text) => if text != "" then text else status
    case None => status
  }

  /** `onTaskCreated`: `[...prev, newTask]`. */
  function AddCreated(tasks: seq<Task>, t: Task): (r: seq<Task>)
    ensures |r| == |tasks| + 1 && r[..|tasks|] == tasks && r[|tasks|] == t
  {
    tasks + [t]
  }

  /** A created task that is not archived shows up in the column of its status, after the tasks already there. */
  lemma CreatedShowsInColumn(tasks: seq<Task>, t: Task, status: string)
    requires Get(t, "status") == Str(status) && !Truthy(Get(t, "archived"))
    ensures t in TasksByStatus(AddCreated(tasks, t), status)
    ensures ByStatus(AddCreated(tasks, t), status) == ByStatus(tasks, status) + [t]
  {
    FilterConcat(tasks, [t], InColumn(status));
    FilterSingle(t, InColumn(status));
  }

  /** `prev.map(t => t.id === updatedTask.id ? updatedTask : t)`. */
  function ReplaceUpdated(tasks: seq<Task>, u: Task): (r: seq<Task>)
    ensures |r| == |tasks|
    ensures forall i | 0 <= i < |tasks| :: r[i] == if StrictEquals(Get(tasks[i], "id"), Get(u, "id")) then u else tasks[i]
    decreases |tasks|
  {
    if tasks == [] then []
    else
      var head := if StrictEquals(Get(tasks[0], "id"), Get(u, "id")) then u else tasks[0];
      [head] + ReplaceUpdated(tasks[1..], u)
  }

  /**
   * When the ids on the board are distinct strings and the updated task's id is
   * the one at index `i`, the update replaces that entry and nothing else.
   */
  lemma ReplaceUpdatedAt(tasks: seq<Task>, u: Task, i: nat)
    requires i < |tasks| && Get(tasks[i], "id").Str? && Get(tasks[i], "id") == Get(u, "id")
    requires forall j, k | 0 <= j < k < |tasks| :: Get(tasks[j], "id") != Get(tasks[k], "id")
    ensures ReplaceUpdated(tasks, u) == tasks[i := u]
  {
  }

  /** An update whose id is on no task of the board leaves the board as it is. */
  lemma ReplaceUnknownId(tasks: seq<Task>, u: Task)
    requires forall t | t in tasks :: !StrictEquals(Get(t, "id"), Get(u, "id"))
    ensures ReplaceUpdated(tasks, u) == tasks
  {
    var r := ReplaceUpdated(tasks, u);
    forall i | 0 <= i < |tasks| ensures r[i] == tasks[i] {
      assert tasks[i] in tasks;
    }
  }
}
