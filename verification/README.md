# Task tracker — a Dafny model of `TaskTracker`

This project models the in-memory core of a command-line task tracker written
in Ruby. The tracker holds an ordered collection of tasks. Each task has an
integer `id`, a `description`, a `status` (`todo`, `in-progress` or `done`)
and two timestamps, `createdAt` and `updatedAt`. One command runs per
invocation: `add`, `update`, `delete`, `mark` or `list`.

Each command is modelled as a pure function. It takes the collection, and the
current time where the program reads the clock. It returns a `Step`:

- the new collection;
- whether the collection was handed to storage for saving;
- the log lines written, each with its level and exact text.

Modules:

- `Wrappers`: `Option`, which stands for Ruby's `nil`.
- `Seqs`: an order-preserving `Filter`, the shape of `select` and `reject!`.
- `Text`: `NatToString` (Ruby's `Integer#to_s`), its inverse `ParseDecimal`, and `Join`.
- `TaskModel`: `Status`, `Task`, `LogLine`, `Step`, the lookup rule `Matches`, and the id invariant `Consistent`.
- `Tracker`: `add_task`, `find_task`, `update_task`, `delete_task`, `mark_task`, `list_tasks` and the `run` dispatcher.
- `TrackerProperties`: lemmas that relate the operations to each other.

A task is looked up by comparing the id, printed in decimal, with the
command-line text. So `"01"`, `"+1"` or `" 1"` never find task 1
(`MatchesIsExactDecimal`).

`Consistent` is the id invariant: ids are positive and strictly increasing
along the collection. Every command keeps it (`RunKeepsConsistent`). On such
a collection, at most one task matches any id, and `delete` removes exactly
the task that `find_task` finds.

Ids are not reserved. `add` assigns the largest existing id plus one
(task-tracker.rb:56), so once the newest task is deleted, its id is handed
out again by the next `add`.
`DeletingNewestAllowsReuse` states this in general, and
`IdOneHandedOutTwice` shows it on the smallest case.

## Model

| member | source | states |
|---|---|---|
| Text.NatToStringCharacterization | task-tracker.rb:114 | a string is the decimal rendering of `n` exactly when it is a canonical numeral (digits only, no leading zero) whose value is `n` |
| Text.NatToStringInjective | task-tracker.rb:80 | two different ids never render to the same text, so an id string selects at most one id |
| TaskModel.ParseStatus | task-tracker.rb:88 | a status name is accepted exactly when it is one of `VALID_STATUSES`, and it then denotes the status with that name |
| Tracker.MaxId | task-tracker.rb:56 | the result is at least every id, is 0 for an empty collection, and is otherwise the id of some task (the largest id, or 0) |
| Tracker.NextId | task-tracker.rb:56 | the id `add` assigns is at least 1 and larger than every id already in the collection |
| Tracker.Add | task-tracker.rb:54-65 | exactly one task is appended at the end; earlier tasks keep their order and content; the new task's id is `NextId` (the largest id plus one, above every existing id), with the given description, status `todo` and `createdAt = updatedAt = now`; the collection is saved and "Task added: id - description" is logged |
| Tracker.FindTask | task-tracker.rb:113-115 | the result is the position of the first task whose rendered id equals the input, and it is `nil` exactly when no task matches |
| Tracker.Update | task-tracker.rb:67-77 | with no match: the collection is unchanged, nothing is saved, and "Task not found" is warned; otherwise only the description and `updatedAt` of the first matching task change, with id, status and `createdAt` kept; the collection is saved and "Task updated: id - description" is logged |
| Tracker.Delete | task-tracker.rb:79-83 | afterwards no task matches the id; every non-matching task survives and nothing new appears; a non-matching id leaves the collection unchanged; it always saves and logs the deletion |
| Tracker.Mark | task-tracker.rb:85-99 | with no match: unchanged, not saved, "not found" warned (before the status is checked); a match with a status outside `VALID_STATUSES`: unchanged, not saved, "Invalid status" warned; a match with a valid status: only the status and `updatedAt` of the first matching task change; the collection is saved and "Task marked as status: id - description" is logged |
| Tracker.Select | task-tracker.rb:102 | without a filter every task is selected, in order; with a filter exactly the tasks whose status text equals the filter are selected (order and multiplicity: `SelectKeepsOrder`, `SelectOne`) |
| Tracker.List | task-tracker.rb:101-111 | "No tasks found." is logged exactly when the selection is empty; otherwise one `id - [status] description` line is logged per selected task, in order |
| Tracker.Run | task-tracker.rb:34-50 | only `add`, `update`, `delete` and `mark` can change or save the collection; `list` never does; a missing or unknown command only logs a warning; within the modelled inputs, `run` raises only on `update` with no arguments |
| TrackerProperties.SelectKeepsOrder | task-tracker.rb:102-109 | selecting from a concatenation selects from each part, in order, so `list` shows tasks in collection order |
| TrackerProperties.SelectOne | task-tracker.rb:102 | a single task is selected once when it has the filter's status (or there is no filter), and not at all otherwise |
| TrackerProperties.MatchesIsExactDecimal | task-tracker.rb:113-114 | a task matches an input exactly when the input is a canonical decimal numeral equal to the task's id |
| TrackerProperties.LeadingZeroNeverMatches | task-tracker.rb:114 | a zero-padded input such as "01" finds no task |
| TrackerProperties.AtMostOneMatch | task-tracker.rb:80 | when ids are unique, at most one task matches a given input |
| TrackerProperties.NextIdIsMaxPlusOne | task-tracker.rb:56 | the assigned id is 1 on an empty collection and otherwise one more than some existing id, which is the largest |
| TrackerProperties.AddKeepsConsistent | task-tracker.rb:55-62 | `add` keeps ids positive and strictly increasing, and therefore unique |
| TrackerProperties.AddsFromEmptyNumberFromOne | task-tracker.rb:54-62 | a run of `add`s from an empty collection numbers its tasks 1, 2, 3, … in order |
| TrackerProperties.AddThenListShowsNewTask | task-tracker.rb:101-110 | after `add`, an unfiltered `list` has one more line, and its last line shows the new `todo` task |
| TrackerProperties.UpdateKeepsConsistent | task-tracker.rb:67-71 | `update` keeps the id invariant |
| TrackerProperties.UpdateKeepsLookup | task-tracker.rb:113-114 | after `update`, the same input still finds the same task |
| TrackerProperties.MarkKeepsConsistent | task-tracker.rb:85-91 | `mark` keeps the id invariant |
| TrackerProperties.MarkReachesEveryStatus | task-tracker.rb:85-91 | whatever a task's current status, one `mark` sets it to any of the three statuses |
| TrackerProperties.MarkDoneThenList | task-tracker.rb:85-110 | after `mark <id> done`, `list done` includes the task and `list todo` includes no task with that id |
| TrackerProperties.DeleteKeepsConsistent | task-tracker.rb:79-80 | `delete` keeps the id invariant |
| TrackerProperties.DeleteKeepsOrder | task-tracker.rb:80 | deleting from a concatenation deletes from each part, so the surviving tasks keep their relative order |
| TrackerProperties.DeleteRemovesExactlyTheFoundTask | task-tracker.rb:79-80 | on a consistent collection, `delete` removes exactly the task `find_task` finds and keeps everything before and after it |
| TrackerProperties.DeleteThenListOmitsId | task-tracker.rb:79-110 | after `delete <id>`, an unfiltered `list` shows no task with that id, whether or not one existed |
| TrackerProperties.DeletingNewestAllowsReuse | task-tracker.rb:56 | after the newest task is deleted, the next id assigned is no larger than the deleted one |
| TrackerProperties.IdOneHandedOutTwice | task-tracker.rb:54-83 | add, delete "1", add: the second task again gets id 1 |
| TrackerProperties.RunKeepsConsistent | task-tracker.rb:34-50 | every command the dispatcher runs keeps the id invariant |
| TrackerProperties.SessionScenario | task-tracker.rb:34-115 | a whole session: add two tasks (ids 1 and 2), mark 1 in-progress, list in-progress (task 1 only), delete 2, update 1, with the exact resulting collections |

## Left out

- Storage (`TaskStorage.load`, `TaskStorage.save`, task-tracker.rb:7-23): file I/O and JSON parsing and printing. The model records only whether a command hands the collection to `save` (`Step.saved`). Load failures and save errors are not modelled, nor the exceptions they let escape: `load` rescues only `JSON::ParserError`, so a read error from `File.read` escapes, and `save` does not rescue `JSON::GeneratorError`.
- Logger: lines are returned as values with their level and text. The logger's own formatting is not modelled; that covers the timestamp, the severity prefix and the process id.
- Clock: `Time.now.iso8601` becomes a `now` parameter of type `Timestamp`. The model never looks inside it. `add_task` reads the clock twice, and the two readings can differ at a second boundary. The model uses one `now` for both.
- Loosely typed JSON records: a task is a typed record. Coercion by `to_i` of a non-integer id read from the file is not modelled. Neither is a status outside the three, which could only come from an edited file.
- Consistent: holds for collections built by the tracker's own commands. A hand-edited file with duplicate or unordered ids is outside the model. The operations themselves do not assume it.
- Dispatcher `nil` arguments: `delete` or `mark` with a missing argument receives "" in the model. This matches Ruby: `nil` prints as "", and neither `nil` nor "" equals a rendered id or a valid status. `list` with no argument passes `None`. `list ""` filters by the empty status, because "" is truthy in Ruby.
- Dispatcher failure: `update` with no arguments raises in Ruby (`args[1..-1]` is `nil`). `Run` returns `None` for it and does not model the exception further.
- Script entry: the `__FILE__` guard and the process exit are not modelled.
- Concurrency: unlocked concurrent access to the backing file by several processes is not modelled.
- Tracker.Run: its contract states only which commands can change or save the collection, which one raises, and that unknown commands change nothing. What each command does is stated on the operation it calls and tied to `Run` by `RunKeepsConsistent` and `SessionScenario`.
- Tracker.Select: its own contract states membership only. Order and multiplicity are stated by `SelectKeepsOrder` and `SelectOne`, which together determine the selection exactly.
