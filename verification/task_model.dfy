/** The records the tracker works on: a task, its status, the lines the
    tracker logs, and the outcome of one command. */
module TaskModel {
  import opened Wrappers
  import opened Text

  /** The wall-clock text (`Time.now.iso8601`) a command stamps on the tasks
      it touches; the caller supplies it and the model never looks inside. */
  type Timestamp = string

  datatype Status = Todo | InProgress | Done

  /** The text stored in a task's `status` field. */
  function StatusName(s: Status): string {
    match s
    case Todo => "todo"
    case InProgress => "in-progress"
    case Done => "done"
  }

  /** `VALID_STATUSES`, in the order the warning lists them. */
  const ValidStatuses: seq<string> := ["todo", "in-progress", "done"]

  /** The status a name denotes, or `None` when the name is not one of
      `ValidStatuses` (`VALID_STATUSES.include?`). */
  function ParseStatus(name: string): (r: Option<Status>)
    ensures r.Some? <==> name in ValidStatuses
    ensures r.Some? ==> StatusName(r.value) == name
    ensures forall s: Status :: StatusName(s) == name ==> r == Some(s)
  {
    if name == "todo" then Some(Todo)
    else if name == "in-progress" then Some(InProgress)
    else if name == "done" then Some(Done)
    else None
  }

  /** One task record. Ids are assigned by the tracker; `createdAt` is set
      once and `updatedAt` on every change. */
  datatype Task = Task(id: nat, description: string, status: Status, createdAt: Timestamp, updatedAt: Timestamp)

  /** The lookup rule of the program: the id printed in decimal must equal
      the command-line text exactly. */
  predicate Matches(t: Task, id: string) {
    NatToString(t.id) == id
  }

  /** No task of the collection answers to `id`. */
  predicate NoMatch(tasks: seq<Task>, id: string) {
    forall j :: 0 <= j < |tasks| ==> !Matches(tasks[j], id)
  }

  datatype Level = Info | Warn

  /** One line written to the logger. */
  datatype LogLine = LogLine(level: Level, text: string)

  /** What one command leaves behind: the collection, whether it was handed
      to storage, and what was logged, in order. */
  datatype Step = Step(tasks: seq<Task>, saved: bool, log: seq<LogLine>)

  /** No two tasks share an id. */
  predicate UniqueIds(tasks: seq<Task>) {
    forall i, j :: 0 <= i < j < |tasks| ==> tasks[i].id != tasks[j].id
  }

  /** The shape every collection built by the tracker's own commands has:
      ids are positive and grow strictly along the collection. */
  predicate Consistent(tasks: seq<Task>) {
    && (forall i :: 0 <= i < |tasks| ==> tasks[i].id >= 1)
    && (forall i, j :: 0 <= i < j < |tasks| ==> tasks[i].id < tasks[j].id)
  }

  /** `a` and `b` have the same length and agree everywhere except perhaps at `k`. */
  predicate SameExceptAt(a: seq<Task>, b: seq<Task>, k: nat) {
    && |a| == |b|
    && forall j :: 0 <= j < |a| && j != k ==> a[j] == b[j]
  }
}
