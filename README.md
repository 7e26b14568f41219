# Pomodoro to-do timer, modelled in Dafny

`script.js` is a browser page: a to-do list with a work/break countdown.
This project models the three pieces of logic under the page wiring:

- **The task store** (`task_store.dfy`, module `TaskStore`). The
  module-level `tasks` array becomes the `seq<Task>` field of class `Store`.
  `Add`, `Done` and `Del` change it in place, as `add`, `done` and `del` do.
  `List()` and `DoneList()` are the `list()` and `donelist()` projections
  (filter by `isDone`, then map to names). `Done` and `Del` act on the first
  record whose name matches; with no match they change nothing. Their
  specifications are the recursive reference functions `MarkFirstDone` and
  `RemoveFirst`. The lemmas say what each operation does to the two
  projections.
- **The selection rule** (`task_select.dfy`, module `TaskSelect`). The
  `selectedTaskName` variable is cleared to `None` (the page's `null`)
  whenever `renderTaskSelect` finds it is no longer a pending name.
- **The timer** (`timer.dfy`, module `Pomodoro`). Class `Timer` holds
  `mode`, `remainingTime`, `isRunning`, and `ticking` for `intervalId`.
  `ticking` is true while a repeating tick is scheduled. `Tick`, `Start`,
  `Stop` and `Reset` are the tick callback and the three button handlers.
  Each is specified by a function on the `State` snapshot. `Valid` is the
  invariant they keep: `1 <= remainingTime <= Duration(mode)` and
  `isRunning == ticking`.
- **The countdown text** (`time_display.dfy`, module `TimeDisplay`). This is
  the `MM:SS` arithmetic of `updateDisplay`. It is proved to read back:
  minutes * 60 + seconds gives the input.

`wrappers.dfy` holds a small `Option` type.

Three facts about the code shape the model:

- A stored count is never 0. `tick` reloads the next phase in the same call
  that reaches zero (script.js:242-252), so the invariant is
  `1 <= remainingTime`.
- `tick` has no precondition. It does not check `isRunning`
  (script.js:241-257); only the interval calls it, and only while the
  interval is held.
- Names need not be unique, and `done`/`del` act on the first match only
  (script.js:45, 66). If the first record called `A` is already done and a
  later one is pending, `done("A")` changes nothing and `A` stays pending.
  So the lemmas saying a name leaves a list require `DistinctNames`
  (`DistinctDoneDel`, `SelectionClearedByDoneOrDel`).

## Model

| member | source | states |
|---|---|---|
| `TaskStore.Store.constructor` | script.js:3 | the store starts with no records |
| `TaskStore.Store.Add` | script.js:9-11 | the records become the old ones followed by `{name, isDone: false}`; nothing is validated |
| `TaskStore.Store.Done` | script.js:44-49 | the records become `MarkFirstDone(old records, name)` |
| `TaskStore.Store.Del` | script.js:65-70 | the records become `RemoveFirst(old records, name)` |
| `TaskStore.IsDone` | script.js:18-20 | whether a record is done; no contract, used as the filter of `donelist()` (see `Partition`) |
| `TaskStore.IsNotDone` | script.js:27-29 | the negation of `IsDone`; no contract, used as the filter of `list()` (see `Partition`) |
| `TaskStore.Filter` | script.js:36-37 | `Array.prototype.filter`: never longer than its input; which elements it keeps, and in what order, is in `IndicesWhereSelects`, `IndicesWhereIncreasing`, `IndicesWhereExactly` |
| `TaskStore.Names` | script.js:38 | `.map(task => task.name)`: one name per record; elementwise in `NamesAt` |
| `TaskStore.Pending` | script.js:35-39 | the names `list()` returns: filter by `IsNotDone`, map to names; no contract, its properties are in `Partition`, `AddProjections`, `DoneProjections`, `DelProjections` |
| `TaskStore.Completed` | script.js:55-59 | the names `donelist()` returns: filter by `IsDone`, map to names; no contract, its properties are in the same lemmas |
| `TaskStore.Store.List` | script.js:35-39 | `list()` on the store's records, that is `Pending(tasks)`; no contract of its own |
| `TaskStore.Store.DoneList` | script.js:55-59 | `donelist()` on the store's records, that is `Completed(tasks)`; no contract of its own |
| `TaskStore.FindIndex` | script.js:45 | the result is -1 exactly when no record has the name; otherwise it is the first index with that name |
| `TaskStore.MarkFirstDone` | script.js:44-49 | length is kept; with no match nothing changes; otherwise the record at the first match becomes `{name, true}` and every other record is unchanged |
| `TaskStore.MarkFirstDoneAt` | script.js:47 | on a match, the walk-through definition equals the in-place update at `findIndex` |
| `TaskStore.RemoveFirst` | script.js:65-70 | with no match nothing changes; otherwise length drops by one, records before the first match stay put, and those after move down one place |
| `TaskStore.RemoveFirstAt` | script.js:68 | on a match, the walk-through definition equals `splice(indexFound, 1)` |
| `TaskStore.IndicesWhereSelects` | script.js:36-38 | the filter keeps one element per listed position, read at those positions in order |
| `TaskStore.IndicesWhereIncreasing` | script.js:36-38 | the positions the filter keeps are strictly increasing, so relative order is preserved |
| `TaskStore.IndicesWhereExactly` | script.js:56-58 | a position is kept exactly when its element satisfies the predicate |
| `TaskStore.PartitionCount` | script.js:55-59 | the lengths of `list()` and `donelist()` add up to the number of records |
| `TaskStore.PartitionNames` | script.js:35-59 | together the two lists hold every record's name exactly once (as multisets) |
| `TaskStore.Partition` | script.js:35-39 | every record is in exactly one of `list()` (not done) and `donelist()` (done); each lists its names in record order |
| `TaskStore.AddProjections` | script.js:9-11 | after `add(n)`, `list()` is the old list followed by `n`, and `donelist()` is unchanged |
| `TaskStore.DoneProjections` | script.js:44-49 | on a match, the first record named `n` leaves `list()` if it was pending and takes its place in `donelist()`; every other name keeps its place |
| `TaskStore.DelProjections` | script.js:65-70 | with no match both lists are unchanged; otherwise the first record named `n` leaves whichever list held it and every other name keeps its place |
| `TaskStore.AbsentFromProjections` | script.js:35-59 | a name no record carries is in neither list |
| `TaskStore.DistinctDoneDel` | script.js:44-70 | with distinct names, `done(n)` moves `n` from `list()` to `donelist()`, and `del(n)` removes it from both |
| `TaskStore.DuplicateNameFirstMatch` | script.js:44-70 | with two records named `A`, the first done: `done("A")` changes nothing and `A` stays in `list()`, and `del("A")` removes the done record |
| `TaskStore.DistinctPreserved` | script.js:9-70 | distinct names stay distinct under `add` of a new name, and under every `done` and `del` |
| `TaskSelect.Reconciled` | script.js:166-169 | the result is unselected or a pending name; a selection that is still pending is kept |
| `TaskSelect.ReconciledIdempotent` | script.js:166-169 | reconciling twice is the same as reconciling once |
| `TaskSelect.SelectionClearedByDoneOrDel` | script.js:162-169 | with distinct names, after `done` or `del` of the selected task the next render unselects it |
| `TaskSelect.Picker.constructor` | script.js:159 | nothing is selected at first |
| `TaskSelect.Picker.RenderTaskSelect` | script.js:162-169 | the selection becomes the reconciled one, so it is unselected or a member of `list()` |
| `Pomodoro.AfterTick` | script.js:241-257 | keeps `Valid`; above 1 it only takes a second off (mode and flags unchanged); at 1 it flips the mode, loads the new mode's full duration and stops both flags |
| `Pomodoro.AfterStart` | script.js:261-268 | keeps `Valid`; leaves a running timer as it is; otherwise sets `isRunning` and `ticking`; mode and count are unchanged |
| `Pomodoro.AfterStop` | script.js:272-279 | keeps `Valid`; leaves a stopped timer as it is; otherwise clears both flags; mode and count are unchanged |
| `Pomodoro.AfterReset` | script.js:283-289 | from any state, the result is a stopped full work phase (1500 s, not ticking) |
| `Pomodoro.StartIdempotent` | script.js:262-263 | starting twice is starting once, so no second interval is set |
| `Pomodoro.StopUndoesStart` | script.js:261-279 | stopping a timer just started from rest gives back the resting state |
| `Pomodoro.CountDown` | script.js:241-257 | fewer ticks than the count only lower the count; mode, `isRunning` and `ticking` are unchanged |
| `Pomodoro.PhaseEnds` | script.js:241-257 | ticking a valid timer through its whole count ends in the other mode, full length, stopped |
| `Pomodoro.TicksKeepValid` | script.js:241-257 | `Valid` holds after any number of ticks |
| `Pomodoro.WorkThenBreak` | script.js:204-257 | from the initial state, started, 1500 ticks give `{break, 300, stopped}`; started again, 300 ticks give `{work, 1500, stopped}` |
| `Pomodoro.DisplayWidth` | script.js:213-223 | every count a valid timer holds renders in exactly five characters |
| `Pomodoro.Timer.constructor` | script.js:204-209 | the timer starts in work mode with 1500 s, stopped, with no interval |
| `Pomodoro.Timer.Tick` | script.js:241-257 | the new state is `AfterTick` of the old one, and `Valid` is kept |
| `Pomodoro.Timer.Start` | script.js:261-268 | the new state is `AfterStart` of the old one, and `Valid` is kept |
| `Pomodoro.Timer.Stop` | script.js:272-279 | the new state is `AfterStop` of the old one, and `Valid` is kept |
| `Pomodoro.Timer.Reset` | script.js:283-289 | the new state is the initial one, which is `Valid` |
| `TimeDisplay.Decimal` | script.js:223 | JavaScript's number-to-text conversion in the template: a non-empty digit string; read-back and length in `DecimalSpec` |
| `TimeDisplay.Pad` | script.js:216-221 | the `"0" +` padding below 10: at least two digits; read-back in `PadSpec` |
| `TimeDisplay.Format` | script.js:214-223 | the `MM:SS` text: at least five characters with the colon third from the end; read-back in `FormatReadsBack` |
| `TimeDisplay.DecimalSpec` | script.js:214-223 | the number-to-text conversion gives the shortest digit string that reads back as the number: no leading zero, one digit below 10, two below 100 |
| `TimeDisplay.PadSpec` | script.js:216-221 | a padded field is all digits, reads back as its value, and has at least two digits (exactly two below 100) |
| `TimeDisplay.FormatReadsBack` | script.js:213-223 | the text is minutes, `:`, then two seconds digits below 60; minutes * 60 + seconds is the input; the length is 5 exactly when the input is below 6000; from 600 on the minutes have no leading zero |
| `TimeDisplay.FormatExamples` | script.js:213-223 | 65 gives `01:05`, 0 gives `00:00`, 1500 gives `25:00`, 300 gives `05:00` |

## Left out

- The page wiring is not modelled: element lookup and creation, `innerHTML` clearing, event-listener registration and text assignment (script.js:74-154, 171-200, 222-237).
- The add button's `trim()` check (script.js:82-83) is not modelled. `Store.Add` accepts any name, as `add` itself does. Unique names are not enforced either; lemmas that need them require `DistinctNames`.
- The `change` handler of the task picker (script.js:191-200) is not modelled. It is DOM plumbing that copies the chosen option into `selectedTaskName`.
- `setInterval` / `clearInterval` and one-second timing are not modelled. The interval handle is the boolean `ticking`; a tick is a call to `Timer.Tick`.
- The mode labels and the timer's task-name line (script.js:225-237), and the "unselected" text (script.js:168, 174, 195), are plain text output and are not modelled.
- `TimeDisplay.Format` takes a `nat`. Under `Valid` the count is never negative, so JavaScript's truncating `%` on negative numbers never arises.
- JavaScript numbers are floating point. The counts here are small whole numbers, so they are modelled as unbounded integers.
- `Store.List` and `Store.DoneList` carry no contracts of their own. Their properties are stated on the functions `Pending` and `Completed` they return (`Partition`, `AddProjections`, `DoneProjections`, `DelProjections`).
