/** Properties that relate the tracker's operations to each other: the id
    invariant every command keeps, the lookup rule, and the observable
    effect of one command on the next `list`. */
module TrackerProperties {
  import opened Wrappers
  import opened Seqs
  import opened Text
  import opened TaskModel
  import opened Tracker

  // ---------------------------------------------------------------------
  // Lookup by id

  /** A task answers to `id` exactly when `id` is a canonical decimal
      numeral whose value is the task's id. */
  lemma MatchesIsExactDecimal(t: Task, id: string)
    ensures Matches(t, id) <==> IsCanonical(id) && ParseDecimal(id) == t.id
  {
    NatToStringCharacterization(t.id, id);
  }

  /** A zero-padded id such as "01" never finds a task. */
  lemma LeadingZeroNeverMatches(t: Task, id: string)
    requires |id| >= 2 && id[0] == '0'
    ensures !Matches(t, id)
  {
  }

  /** In a collection without duplicate ids, at most one task answers to
      any given id. */
  lemma AtMostOneMatch(tasks: seq<Task>, id: string, i: nat, j: nat)
    requires UniqueIds(tasks)
    requires i < |tasks| && j < |tasks|
    requires Matches(tasks[i], id) && Matches(tasks[j], id)
    ensures i == j
  {
    NatToStringInjective(tasks[i].id, tasks[j].id);
  }

  lemma ConsistentIdsAreUnique(tasks: seq<Task>)
    requires Consistent(tasks)
    ensures UniqueIds(tasks)
  {
  }

  // ---------------------------------------------------------------------
  // add

  /** `add` hands out one more than the largest id, or 1 on an empty
      collection. */
  lemma NextIdIsMaxPlusOne(tasks: seq<Task>)
    ensures |tasks| == 0 ==> NextId(tasks) == 1
    ensures forall i :: 0 <= i < |tasks| ==> tasks[i].id < NextId(tasks)
    ensures |tasks| > 0 ==> exists i :: 0 <= i < |tasks| && tasks[i].id + 1 == NextId(tasks)
  {
    if |tasks| > 0 {
      var i :| 0 <= i < |tasks| && tasks[i].id == MaxId(tasks);
      assert tasks[i].id + 1 == NextId(tasks);
    }
  }

  /** `add` keeps the id invariant: the new id is above every existing one. */
  lemma AddKeepsConsistent(tasks: seq<Task>, description: string, now: Timestamp)
    requires Consistent(tasks)
    ensures Consistent(Add(tasks, description, now).tasks)
  {
  }

  /** A run of `add` commands, one per description, in order. */
  function AddAll(tasks: seq<Task>, descriptions: seq<string>, now: Timestamp): seq<Task>
    decreases |descriptions|
  {
    if |descriptions| == 0 then tasks
    else AddAll(Add(tasks, descriptions[0], now).tasks, descriptions[1..], now)
  }

  /** When the ids so far are 1, 2, ..., n, the next id is n + 1. */
  lemma NextIdOfDenseIds(tasks: seq<Task>)
    requires forall i :: 0 <= i < |tasks| ==> tasks[i].id == i + 1
    ensures NextId(tasks) == |tasks| + 1
  {
    if |tasks| > 0 {
      assert tasks[|tasks| - 1].id == |tasks|;
    }
  }

  lemma {:induction false} AddAllKeepsDenseIds(tasks: seq<Task>, descriptions: seq<string>, now: Timestamp)
    requires forall i :: 0 <= i < |tasks| ==> tasks[i].id == i + 1
    ensures |AddAll(tasks, descriptions, now)| == |tasks| + |descriptions|
    ensures forall i :: 0 <= i < |AddAll(tasks, descriptions, now)| ==> AddAll(tasks, descriptions, now)[i].id == i + 1
    decreases |descriptions|
  {
    if |descriptions| > 0 {
      var r := Add(tasks, descriptions[0], now).tasks;
      NextIdOfDenseIds(tasks);
      forall i | 0 <= i < |r|
        ensures r[i].id == i + 1
      {
        if i < |tasks| {
          assert r[i] == r[..|tasks|][i];
        }
      }
      AddAllKeepsDenseIds(r, descriptions[1..], now);
    }
  }

  /** Starting from an empty collection, successive `add`s number their
      tasks 1, 2, 3, ... in order. */
  lemma AddsFromEmptyNumberFromOne(descriptions: seq<string>, now: Timestamp)
    ensures |AddAll([], descriptions, now)| == |descriptions|
    ensures forall i :: 0 <= i < |descriptions| ==> AddAll([], descriptions, now)[i].id == i + 1
  {
    AddAllKeepsDenseIds([], descriptions, now);
  }

  /** After `add`, an unfiltered `list` ends with the new `todo` task. */
  lemma AddThenListShowsNewTask(tasks: seq<Task>, description: string, now: Timestamp)
    ensures
      var lines := List(Add(tasks, description, now).tasks, None);
      && |lines| == |tasks| + 1
      && lines[|tasks|] == LogLine(Info, FormatTask(Task(NextId(tasks), description, Todo, now, now)))
  {
  }

  // ---------------------------------------------------------------------
  // update and mark

  /** `update` never changes an id, so it keeps the id invariant. */
  lemma UpdateKeepsConsistent(tasks: seq<Task>, id: string, description: string, now: Timestamp)
    requires Consistent(tasks)
    ensures Consistent(Update(tasks, id, description, now).tasks)
  {
  }

  /** After `update`, the same id still finds the same task. */
  lemma UpdateKeepsLookup(tasks: seq<Task>, id: string, description: string, now: Timestamp)
    ensures FindTask(Update(tasks, id, description, now).tasks, id) == FindTask(tasks, id)
  {
  }

  /** `mark` never changes an id, so it keeps the id invariant. */
  lemma MarkKeepsConsistent(tasks: seq<Task>, id: string, status: string, now: Timestamp)
    requires Consistent(tasks)
    ensures Consistent(Mark(tasks, id, status, now).tasks)
  {
  }

  /** Every status can be reached from every other in one `mark`. */
  lemma MarkReachesEveryStatus(tasks: seq<Task>, id: string, s: Status, now: Timestamp)
    requires !NoMatch(tasks, id)
    ensures
      var i := FindTask(tasks, id).value;
      Mark(tasks, id, StatusName(s), now).tasks[i].status == s
  {
  }

  // ---------------------------------------------------------------------
  // list

  /** `list` keeps collection order: selecting from a concatenation selects
      from each part, in order. */
  lemma SelectKeepsOrder(a: seq<Task>, b: seq<Task>, filter: Option<string>)
    ensures Select(a + b, filter) == Select(a, filter) + Select(b, filter)
  {
    if filter.Some? {
      FilterAppend(a, b, (t: Task) => StatusName(t.status) == filter.value);
    }
  }

  /** A single task is listed once when it passes the filter, and not at all
      otherwise. Together with `SelectKeepsOrder` this fixes both the order
      and the multiplicity of the listed tasks. */
  lemma SelectOne(t: Task, filter: Option<string>)
    ensures Select([t], filter) == if filter.None? || StatusName(t.status) == filter.value then [t] else []
  {
  }

  /** After `mark <id> done`, `list done` shows the task and `list todo`
      shows no task with that id. */
  lemma MarkDoneThenList(tasks: seq<Task>, id: string, now: Timestamp)
    requires Consistent(tasks)
    requires !NoMatch(tasks, id)
    ensures
      var i := FindTask(tasks, id).value;
      var r := Mark(tasks, id, "done", now).tasks;
      && r[i] in Select(r, Some("done"))
      && NoMatch(Select(r, Some("todo")), id)
  {
    var i := FindTask(tasks, id).value;
    var r := Mark(tasks, id, "done", now).tasks;
    assert "done" in ValidStatuses;
    assert StatusName(r[i].status) == "done";
    var todo := Select(r, Some("todo"));
    forall k | 0 <= k < |todo|
      ensures !Matches(todo[k], id)
    {
      var j :| 0 <= j < |r| && r[j] == todo[k];
      if Matches(r[j], id) {
        MarkKeepsConsistent(tasks, id, "done", now);
        AtMostOneMatch(r, id, i, j);
        assert false;
      }
    }
  }

  // ---------------------------------------------------------------------
  // delete

  /** Removing tasks never breaks the id invariant. */
  lemma {:induction false} FilterKeepsConsistent(tasks: seq<Task>, keep: Task -> bool)
    requires Consistent(tasks)
    ensures Consistent(Filter(tasks, keep))
  {
    if |tasks| > 0 {
      var rest := tasks[1..];
      FilterKeepsConsistent(rest, keep);
      var f := Filter(rest, keep);
      forall k | 0 <= k < |f|
        ensures f[k].id > tasks[0].id
      {
        var j :| 0 <= j < |rest| && rest[j] == f[k];
        assert tasks[j + 1] == f[k];
      }
    }
  }

  lemma DeleteKeepsConsistent(tasks: seq<Task>, id: string)
    requires Consistent(tasks)
    ensures Consistent(Delete(tasks, id).tasks)
  {
    FilterKeepsConsistent(tasks, (t: Task) => !Matches(t, id));
  }

  /** `delete` keeps the surviving tasks in their original relative order:
      deleting from a concatenation deletes from each part. */
  lemma DeleteKeepsOrder(a: seq<Task>, b: seq<Task>, id: string)
    ensures Delete(a + b, id).tasks == Delete(a, id).tasks + Delete(b, id).tasks
  {
    FilterAppend(a, b, (t: Task) => !Matches(t, id));
  }

  /** `delete` keeps a part of the collection in which nothing matches. */
  lemma WithoutNoMatch(tasks: seq<Task>, id: string)
    requires NoMatch(tasks, id)
    ensures Without(tasks, id) == tasks
  {
  }

  /** `delete` drops a single matching task. */
  lemma WithoutMatch(t: Task, id: string)
    requires Matches(t, id)
    ensures Without([t], id) == []
  {
  }

  /** Tasks after the found one carry larger ids, so none of them matches. */
  lemma NoMatchAfterFound(tasks: seq<Task>, id: string, i: nat)
    requires Consistent(tasks)
    requires i < |tasks| && Matches(tasks[i], id)
    ensures NoMatch(tasks[i + 1..], id)
  {
    var b := tasks[i + 1..];
    forall k | 0 <= k < |b|
      ensures !Matches(b[k], id)
    {
      assert b[k] == tasks[i + 1 + k];
      NatToStringInjective(b[k].id, tasks[i].id);
    }
  }

  /** Deleting from `a + [x] + b` where only `x` matches leaves `a + b`. */
  lemma WithoutSplit(a: seq<Task>, x: Task, b: seq<Task>, id: string)
    requires NoMatch(a, id) && Matches(x, id) && NoMatch(b, id)
    ensures Without(a + [x] + b, id) == a + b
  {
    DeleteKeepsOrder(a + [x], b, id);
    DeleteKeepsOrder(a, [x], id);
    WithoutNoMatch(a, id);
    WithoutMatch(x, id);
    WithoutNoMatch(b, id);
    assert a + [] == a;
  }

  /** In a collection the tracker built, `delete` removes exactly the task
      that `find_task` would find, and nothing else. */
  lemma DeleteRemovesExactlyTheFoundTask(tasks: seq<Task>, id: string)
    requires Consistent(tasks)
    requires !NoMatch(tasks, id)
    ensures
      var i := FindTask(tasks, id).value;
      Delete(tasks, id).tasks == tasks[..i] + tasks[i + 1..]
  {
    var i := FindTask(tasks, id).value;
    var a, x, b := tasks[..i], tasks[i], tasks[i + 1..];
    assert NoMatch(a, id) by {
      forall k | 0 <= k < |a|
        ensures !Matches(a[k], id)
      {
        assert a[k] == tasks[k];
      }
    }
    assert NoMatch(b, id) by {
      NoMatchAfterFound(tasks, id, i);
    }
    assert tasks == a + [x] + b;
    WithoutSplit(a, x, b, id);
  }

  /** After `delete <id>`, an unfiltered `list` shows no task with that id,
      whether or not one existed. */
  lemma DeleteThenListOmitsId(tasks: seq<Task>, id: string)
    ensures NoMatch(Select(Delete(tasks, id).tasks, None), id)
  {
  }

  /** Ids are not reserved: once the newest task is deleted, the next `add`
      can hand out an id no larger than the deleted one. */
  lemma DeletingNewestAllowsReuse(tasks: seq<Task>)
    requires Consistent(tasks) && |tasks| > 0
    ensures
      var newest := tasks[|tasks| - 1];
      NextId(Delete(tasks, NatToString(newest.id)).tasks) <= newest.id
  {
  }

  /** The smallest case: add, delete it, add again, and id 1 is handed out twice. */
  lemma IdOneHandedOutTwice(a: string, b: string, now: Timestamp)
    ensures
      var first := Add([], a, now).tasks;
      var second := Add(Delete(first, "1").tasks, b, now).tasks;
      && first[0].id == 1
      && |second| == 1 && second[0].id == 1
  {
  }

  // ---------------------------------------------------------------------
  // The dispatcher

  /** Every command keeps the id invariant. */
  lemma RunKeepsConsistent(tasks: seq<Task>, args: seq<string>, now: Timestamp)
    requires Consistent(tasks)
    ensures Run(tasks, args, now).Some? ==> Consistent(Run(tasks, args, now).value.tasks)
  {
    if |args| > 0 {
      var rest := args[1..];
      match args[0]
      case "add" => AddKeepsConsistent(tasks, Join(rest, " "), now);
      case "update" =>
        if |rest| > 0 {
          UpdateKeepsConsistent(tasks, rest[0], Join(rest[1..], " "), now);
        }
      case "delete" => DeleteKeepsConsistent(tasks, ArgOr(rest, 0));
      case "mark" => MarkKeepsConsistent(tasks, ArgOr(rest, 0), ArgOr(rest, 1), now);
      case _ =>
    }
  }

  // ---------------------------------------------------------------------
  // A whole session, one command at a time

  lemma RenderOneAndTwo()
    ensures NatToString(1) == "1" && NatToString(2) == "2"
  {
  }

  lemma SessionAddFirst(t1: Timestamp)
    ensures Run([], ["add", "buy", "milk"], t1).value.tasks == [Task(1, "buy milk", Todo, t1, t1)]
  {
    assert ["add", "buy", "milk"][1..] == ["buy", "milk"];
    assert Join(["buy", "milk"], " ") == "buy milk";
  }

  lemma SessionAddSecond(t1: Timestamp, t2: Timestamp)
    ensures
      var s1 := [Task(1, "buy milk", Todo, t1, t1)];
      Run(s1, ["add", "write", "report"], t2).value.tasks == s1 + [Task(2, "write report", Todo, t2, t2)]
  {
    var s1 := [Task(1, "buy milk", Todo, t1, t1)];
    assert ["add", "write", "report"][1..] == ["write", "report"];
    assert Join(["write", "report"], " ") == "write report";
    NextIdOfDenseIds(s1);
  }

  lemma SessionMark(t1: Timestamp, t2: Timestamp, t3: Timestamp)
    ensures
      var s2 := [Task(1, "buy milk", Todo, t1, t1), Task(2, "write report", Todo, t2, t2)];
      Run(s2, ["mark", "1", "in-progress"], t3).value.tasks
        == [Task(1, "buy milk", InProgress, t1, t3), Task(2, "write report", Todo, t2, t2)]
  {
  }

  lemma SessionListInProgress(t1: Timestamp, t2: Timestamp, t3: Timestamp)
    ensures
      var s3 := [Task(1, "buy milk", InProgress, t1, t3), Task(2, "write report", Todo, t2, t2)];
      Select(s3, Some("in-progress")) == [s3[0]]
  {
    var s3 := [Task(1, "buy milk", InProgress, t1, t3), Task(2, "write report", Todo, t2, t2)];
    var keep := (t: Task) => StatusName(t.status) == "in-progress";
    assert s3 == [s3[0]] + [s3[1]];
    FilterAppend([s3[0]], [s3[1]], keep);
    FilterSingleton(s3[0], keep);
    FilterSingleton(s3[1], keep);
    assert [s3[0]] + [] == [s3[0]];
  }

  lemma SessionDelete(t1: Timestamp, t2: Timestamp, t3: Timestamp, t4: Timestamp)
    ensures
      var s3 := [Task(1, "buy milk", InProgress, t1, t3), Task(2, "write report", Todo, t2, t2)];
      Run(s3, ["delete", "2"], t4).value.tasks == [s3[0]]
  {
    var s3 := [Task(1, "buy milk", InProgress, t1, t3), Task(2, "write report", Todo, t2, t2)];
    RenderOneAndTwo();
    assert ArgOr(["2"], 0) == "2";
    assert !Matches(s3[0], "2") && Matches(s3[1], "2");
    assert s3 == [s3[0]] + [s3[1]] + [];
    WithoutSplit([s3[0]], s3[1], [], "2");
  }

  lemma SessionUpdate(t1: Timestamp, t3: Timestamp, t4: Timestamp)
    ensures
      var s4 := [Task(1, "buy milk", InProgress, t1, t3)];
      Run(s4, ["update", "1", "buy", "oat", "milk"], t4).value.tasks == [Task(1, "buy oat milk", InProgress, t1, t4)]
  {
    var s4 := [Task(1, "buy milk", InProgress, t1, t3)];
    RenderOneAndTwo();
    assert ["update", "1", "buy", "oat", "milk"][1..] == ["1", "buy", "oat", "milk"];
    assert ["1", "buy", "oat", "milk"][1..] == ["buy", "oat", "milk"];
    assert ["buy", "oat", "milk"][1..] == ["oat", "milk"];
    assert Join(["buy", "oat", "milk"], " ") == "buy oat milk";
    assert FindTask(s4, "1") == Some(0);
  }

  /** Start empty; add "buy milk" and "write report"; mark 1 in-progress;
      `list in-progress` shows only task 1; delete 2; update 1. */
  lemma SessionScenario(t1: Timestamp, t2: Timestamp, t3: Timestamp, t4: Timestamp)
    ensures
      var s1 := Run([], ["add", "buy", "milk"], t1).value.tasks;
      var s2 := Run(s1, ["add", "write", "report"], t2).value.tasks;
      var s3 := Run(s2, ["mark", "1", "in-progress"], t3).value.tasks;
      var s4 := Run(s3, ["delete", "2"], t4).value.tasks;
      var s5 := Run(s4, ["update", "1", "buy", "oat", "milk"], t4).value.tasks;
      && s1 == [Task(1, "buy milk", Todo, t1, t1)]
      && s2 == s1 + [Task(2, "write report", Todo, t2, t2)]
      && s3 == [Task(1, "buy milk", InProgress, t1, t3), Task(2, "write report", Todo, t2, t2)]
      && Select(s3, Some("in-progress")) == [s3[0]]
      && s4 == [s3[0]]
      && s5 == [Task(1, "buy oat milk", InProgress, t1, t4)]
  {
    SessionAddFirst(t1);
    SessionAddSecond(t1, t2);
    SessionMark(t1, t2, t3);
    SessionListInProgress(t1, t2, t3);
    SessionDelete(t1, t2, t3, t4);
    SessionUpdate(t1, t3, t4);
  }
}
