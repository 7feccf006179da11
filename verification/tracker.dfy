/** The operations of `TaskTracker`: each takes the collection (and, where
    the program reads the clock, the current time) and returns the new
    collection, whether it was saved, and the log lines. */
module Tracker {
  import opened Wrappers
  import opened Seqs
  import opened Text
  import opened TaskModel

  /** The largest id in the collection, 0 when it is empty (`ids.max || 0`). */
  function MaxId(tasks: seq<Task>): (m: nat)
    ensures forall i :: 0 <= i < |tasks| ==> tasks[i].id <= m
    ensures |tasks| == 0 ==> m == 0
    ensures |tasks| > 0 ==> exists i :: 0 <= i < |tasks| && tasks[i].id == m
  {
    if |tasks| == 0 then 0
    else
      var rest := MaxId(tasks[1..]);
      if tasks[0].id >= rest then tasks[0].id
      else
        assert exists i :: 0 <= i < |tasks[1..]| && tasks[1..][i].id == rest;
        var i :| 0 <= i < |tasks[1..]| && tasks[1..][i].id == rest;
        assert tasks[i + 1].id == rest;
        rest
  }

  /** The id `add` hands out. */
  function NextId(tasks: seq<Task>): (id: nat)
    ensures id >= 1
    ensures forall i :: 0 <= i < |tasks| ==> tasks[i].id < id
  {
    MaxId(tasks) + 1
  }

  /** `add_task`: appends a fresh `todo` task and saves. */
  function Add(tasks: seq<Task>, description: string, now: Timestamp): (r: Step)
    ensures |r.tasks| == |tasks| + 1 && r.tasks[..|tasks|] == tasks
    ensures r.tasks[|tasks|].id == NextId(tasks)
    ensures forall i :: 0 <= i < |tasks| ==> tasks[i].id < r.tasks[|tasks|].id
    ensures r.tasks[|tasks|].description == description
    ensures r.tasks[|tasks|].status == Todo
    ensures r.tasks[|tasks|].createdAt == now && r.tasks[|tasks|].updatedAt == now
    ensures r.saved
    ensures r.log == [LogLine(Info, "Task added: " + NatToString(NextId(tasks)) + " - " + description)]
  {
    var t := Task(NextId(tasks), description, Todo, now, now);
    Step(tasks + [t], true, [LogLine(Info, "Task added: " + NatToString(t.id) + " - " + t.description)])
  }

  /** `find_task`: the position of the first task that answers to `id`. */
  function FindTask(tasks: seq<Task>, id: string): (r: Option<nat>)
    ensures r.None? <==> NoMatch(tasks, id)
    ensures r.Some? ==> r.value < |tasks| && Matches(tasks[r.value], id)
    ensures r.Some? ==> forall j :: 0 <= j < r.value ==> !Matches(tasks[j], id)
  {
    if |tasks| == 0 then None
    else if Matches(tasks[0], id) then Some(0)
    else
      match FindTask(tasks[1..], id)
      case None => None
      case Some(i) => Some(i + 1)
  }

  function NotFound(id: string): LogLine {
    LogLine(Warn, "Task not found with id: " + id)
  }

  /** `update_task`: rewrites the description of the first matching task. */
  function Update(tasks: seq<Task>, id: string, description: string, now: Timestamp): (r: Step)
    ensures NoMatch(tasks, id) ==> r == Step(tasks, false, [NotFound(id)])
    ensures !NoMatch(tasks, id) ==>
      var i := FindTask(tasks, id).value;
      && r.saved
      && SameExceptAt(tasks, r.tasks, i)
      && r.tasks[i].id == tasks[i].id
      && r.tasks[i].status == tasks[i].status
      && r.tasks[i].createdAt == tasks[i].createdAt
      && r.tasks[i].description == description
      && r.tasks[i].updatedAt == now
      && r.log == [LogLine(Info, "Task updated: " + NatToString(tasks[i].id) + " - " + description)]
  {
    match FindTask(tasks, id)
    case None => Step(tasks, false, [NotFound(id)])
    case Some(i) =>
      var t := tasks[i].(description := description, updatedAt := now);
      Step(tasks[i := t], true, [LogLine(Info, "Task updated: " + NatToString(t.id) + " - " + t.description)])
  }

  /** `delete_task`'s `reject!`: every task answering to `id` goes. */
  function Without(tasks: seq<Task>, id: string): (r: seq<Task>)
  {
    Filter(tasks, (t: Task) => !Matches(t, id))
  }

  /** `delete_task`: removes every matching task, then saves and logs
      whether or not anything matched. */
  function Delete(tasks: seq<Task>, id: string): (r: Step)
    ensures r.saved && r.log == [LogLine(Info, "Task deleted with id: " + id)]
    ensures NoMatch(r.tasks, id)
    ensures forall i :: 0 <= i < |tasks| && !Matches(tasks[i], id) ==> tasks[i] in r.tasks
    ensures forall i :: 0 <= i < |r.tasks| ==> r.tasks[i] in tasks
    ensures NoMatch(tasks, id) ==> r.tasks == tasks
  {
    Step(Without(tasks, id), true, [LogLine(Info, "Task deleted with id: " + id)])
  }

  function InvalidStatus(status: string): LogLine {
    LogLine(Warn, "Invalid status: " + status + ". Valid statuses are: " + Join(ValidStatuses, ", "))
  }

  /** `mark_task`: sets the status of the first matching task, provided the
      new status is one of `ValidStatuses`. A missing task is reported
      before the status is looked at. */
  function Mark(tasks: seq<Task>, id: string, status: string, now: Timestamp): (r: Step)
    ensures NoMatch(tasks, id) ==> r == Step(tasks, false, [NotFound(id)])
    ensures !NoMatch(tasks, id) && status !in ValidStatuses ==> r == Step(tasks, false, [InvalidStatus(status)])
    ensures !NoMatch(tasks, id) && status in ValidStatuses ==>
      var i := FindTask(tasks, id).value;
      && r.saved
      && SameExceptAt(tasks, r.tasks, i)
      && r.tasks[i].id == tasks[i].id
      && r.tasks[i].description == tasks[i].description
      && r.tasks[i].createdAt == tasks[i].createdAt
      && StatusName(r.tasks[i].status) == status
      && r.tasks[i].updatedAt == now
      && r.log == [LogLine(Info, "Task marked as " + status + ": " + NatToString(tasks[i].id) + " - " + tasks[i].description)]
  {
    match FindTask(tasks, id)
    case None => Step(tasks, false, [NotFound(id)])
    case Some(i) =>
      match ParseStatus(status)
      case None => Step(tasks, false, [InvalidStatus(status)])
      case Some(s) =>
        var t := tasks[i].(status := s, updatedAt := now);
        Step(tasks[i := t], true,
             [LogLine(Info, "Task marked as " + status + ": " + NatToString(t.id) + " - " + t.description)])
  }

  /** The tasks `list_tasks` shows: all of them without a filter (`nil`),
      otherwise those whose status text equals the filter. */
  function Select(tasks: seq<Task>, filter: Option<string>): (r: seq<Task>)
    ensures filter.None? ==> r == tasks
    ensures filter.Some? ==> forall i :: 0 <= i < |r| ==> r[i] in tasks && StatusName(r[i].status) == filter.value
    ensures filter.Some? ==> forall i :: 0 <= i < |tasks| && StatusName(tasks[i].status) == filter.value ==> tasks[i] in r
  {
    match filter
    case None => tasks
    case Some(name) => Filter(tasks, (t: Task) => StatusName(t.status) == name)
  }

  /** One line of the listing: `id - [status] description`. */
  function FormatTask(t: Task): (line: string)
    ensures |line| >= 1 && IsDigit(line[0])
  {
    NatToString(t.id) + " - [" + StatusName(t.status) + "] " + t.description
  }

  const NoTasksFound: string := "No tasks found."

  /** `list_tasks`: one line per selected task, in collection order, or the
      single line "No tasks found." when nothing is selected. */
  function List(tasks: seq<Task>, filter: Option<string>): (lines: seq<LogLine>)
    ensures Select(tasks, filter) == [] <==> lines == [LogLine(Info, NoTasksFound)]
    ensures Select(tasks, filter) != [] ==>
      && |lines| == |Select(tasks, filter)|
      && forall i :: 0 <= i < |lines| ==> lines[i] == LogLine(Info, FormatTask(Select(tasks, filter)[i]))
  {
    var shown := Select(tasks, filter);
    if |shown| == 0 then [LogLine(Info, NoTasksFound)]
    else
      var lines := seq(|shown|, i requires 0 <= i < |shown| => LogLine(Info, FormatTask(shown[i])));
      assert lines[0].text[0] != NoTasksFound[0];
      lines
  }

  const UnknownCommand: LogLine := LogLine(Warn, "Unknown command. Use: add, update, delete, mark, or list.")

  /** The argument at position `k`, or "" where Ruby would pass `nil`: for
      `delete` and `mark` the two behave alike, since `nil` prints as "" and
      neither equals a rendered id nor a valid status. */
  function ArgOr(args: seq<string>, k: nat): string {
    if k < |args| then args[k] else ""
  }

  /** `run`: the first argument picks the command, the rest are its
      arguments. `None` is the one case where the program raises:
      `update` with no arguments at all, where `args[1..-1]` is `nil`. */
  function Run(tasks: seq<Task>, args: seq<string>, now: Timestamp): (r: Option<Step>)
    ensures r.None? <==> args == ["update"]
    ensures r.Some? && (r.value.saved || r.value.tasks != tasks) ==> |args| >= 1 && args[0] in {"add", "update", "delete", "mark"}
    ensures |args| == 0 || args[0] !in {"add", "update", "delete", "mark", "list"} ==> r == Some(Step(tasks, false, [UnknownCommand]))
    ensures |args| >= 1 && args[0] == "list" ==> r.Some? && r.value.tasks == tasks && !r.value.saved
  {
    if |args| == 0 then Some(Step(tasks, false, [UnknownCommand]))
    else
      var rest := args[1..];
      match args[0]
      case "add" => Some(Add(tasks, Join(rest, " "), now))
      case "update" =>
        if |rest| == 0 then None
        else Some(Update(tasks, rest[0], Join(rest[1..], " "), now))
      case "delete" => Some(Delete(tasks, ArgOr(rest, 0)))
      case "mark" => Some(Mark(tasks, ArgOr(rest, 0), ArgOr(rest, 1), now))
      case "list" => Some(Step(tasks, false, List(tasks, if |rest| > 0 then Some(rest[0]) else None)))
      case _ => Some(Step(tasks, false, [UnknownCommand]))
  }
}
