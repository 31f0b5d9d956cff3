# To-do manager, modelled in Dafny

This project models `todo_app`, a single-file command-line to-do manager written in Rust
(`todo_app/src/main.rs`). The program keeps a `ToDoList` of `Task`s. Each task is a
description and a completion flag. A worker loop shows a menu, reads a choice with
`read_line`, and runs one of four commands: add a task, complete a task by index,
list the tasks, or exit.

The model has three modules, one per file:

- `Text` (`text.dfy`) covers the parts of Rust's standard library that the program relies on.
  - `str::trim` removes `char::is_whitespace` characters (the Unicode White_Space set) from both ends. A task description therefore loses leading whitespace as well as its newline and any trailing whitespace.
  - `str::parse` for `u32` and `usize` accepts an optional `+` and then one or more ASCII digits. It checks for overflow digit by digit.
  - `unwrap_or(0)`.
  - The decimal text that `{}` prints for an index. It comes with a parse round trip and an injectivity proof.
- `ToDo` (`todo.dfy`) models the entities.
  - `Task` is a class whose `Complete` method assigns its `completed` field.
  - `ToDoList` is a class holding a `seq<Task>`, which its methods update in place.
  - The value view of the list is `seq<TaskValue>`. `CompleteAt` and `Render` are pure functions over it, and the methods are proved against them.
  - `Valid()` states that the list owns each task object once. In Rust a `Vec<Task>` owns its elements, so `AddTask` requires that the task is not already in the list: the task is moved in.
- `Worker` (`worker.dfy`) models the worker loop.
  - `Step` is one command once the choice has been parsed. It maps (list, choice, remaining input) to (new list, output, stop, remaining input).
  - `Run` is the whole loop.
  - The method `Dispatch` runs one command on the `ToDoList` object in place. `Worker` is the `loop` itself, and `RunProgram` is `main`. Each is proved to produce exactly what `Step` or `Run` describes.

Console input is a sequence of lines, each as `read_line` delivers it, newline included.
Console output is the sequence of texts written by `print!` and `println!`, in order. A
`println!` text carries its trailing newline.

## Model

| member | source | states |
|---|---|---|
| Text.TrimStartFacts | todo_app/src/main.rs:76 | trimming the start keeps a suffix of the input, everything removed is whitespace, and what is left does not start with whitespace |
| Text.TrimEndFacts | todo_app/src/main.rs:76 | trimming the end keeps a prefix, everything removed is whitespace, and what is left does not end with whitespace |
| Text.Trim | todo_app/src/main.rs:86 | the trimmed text is no longer than the input and neither of its ends is whitespace |
| Text.TrimOfPadded | todo_app/src/main.rs:86 | any text whose ends are not whitespace, surrounded by any whitespace on both sides, trims back to exactly that text |
| Text.TrimIdempotent | todo_app/src/main.rs:86 | trimming twice gives the same text as trimming once |
| Text.AccumulateFacts | todo_app/src/main.rs:76 | the checked digit loop succeeds exactly when every character is an ASCII digit and the running value never passes the type's maximum, and then it returns the decimal value |
| Text.ParseUnsignedFacts | todo_app/src/main.rs:76 | unsigned parsing succeeds exactly on an optional `+` followed by one or more digits whose value fits the type, and its result is that value; empty text, a lone sign, a `-` or any other character, and overflow are all errors |
| Text.ParseOrZeroFacts | todo_app/src/main.rs:94 | `parse().unwrap_or(0)` yields the parsed value when parsing succeeds, and 0 on every parse error |
| Text.ParseFormatted | todo_app/src/main.rs:49-50 | parsing the decimal text of any value that fits the type gives that value back |
| Text.NatToStringInjective | todo_app/src/main.rs:49-50 | distinct indices are printed as distinct texts |
| ToDo.Task.constructor | todo_app/src/main.rs:12-17 | a new task holds exactly the given description, which may be empty, and is not completed |
| ToDo.Task.Complete | todo_app/src/main.rs:19-21 | completing a task sets its flag and keeps its description |
| ToDo.CompletedProperties | todo_app/src/main.rs:19-21 | completion keeps the description and sets the flag; completing twice is the same as completing once; an already completed task is unchanged |
| ToDo.CompleteAt | todo_app/src/main.rs:37-44 | completing index `i` keeps the length and every description; task `k` is completed afterwards exactly when it was before or `k == i`; the result is `Ok` exactly when `i` is in range, and any error is `Invalid task index` |
| ToDo.CompleteOutOfRange | todo_app/src/main.rs:41-43 | an index at or past the end returns the error and leaves the whole list unchanged, so on an empty list every index fails |
| ToDo.CompleteTwice | todo_app/src/main.rs:37-40 | completing the same index twice leaves the same list as completing it once |
| ToDo.Render | todo_app/src/main.rs:46-55 | the listing has one line per task; line `k` is the decimal `k`, `": "`, the description, and ` [completed]` or ` [not completed]` according to the flag |
| ToDo.RenderAppend | todo_app/src/main.rs:46-55 | adding a task at the end adds exactly its line at the end of the listing and keeps every other line |
| ToDo.LineInjective | todo_app/src/main.rs:48-53 | a listed line determines both its index and its task, with description and flag |
| ToDo.RenderInjective | todo_app/src/main.rs:46-55 | two lists with the same listing hold the same tasks |
| ToDo.ToDoList.constructor | todo_app/src/main.rs:29-31 | a new list is empty |
| ToDo.ToDoList.AddTask | todo_app/src/main.rs:33-35 | the list grows by exactly one; the new last task is the one added; every earlier task keeps its index and value |
| ToDo.ToDoList.CompleteTask | todo_app/src/main.rs:37-44 | the list's values and the result are those `CompleteAt` gives; the same task objects stay in the list, and at most the chosen task object is written |
| ToDo.ToDoList.ListTasks | todo_app/src/main.rs:46-55 | the lines printed are the listing of the current tasks; the list is only read |
| Worker.ChoiceOfNumeral | todo_app/src/main.rs:76 | a choice typed as a decimal number that fits `u32`, with any whitespace around it, selects that number |
| Worker.UnparsableChoiceIsZero | todo_app/src/main.rs:76 | menu input that is not an unsigned numeral once trimmed becomes choice 0 |
| Worker.OverflowingChoiceIsZero | todo_app/src/main.rs:76 | a numeral above the `u32` maximum becomes choice 0 as well |
| Worker.KeyAdd | todo_app/src/main.rs:76 | the line `1` followed by a newline selects choice 1 |
| Worker.KeyComplete | todo_app/src/main.rs:76 | the line `2` followed by a newline selects choice 2 |
| Worker.KeyList | todo_app/src/main.rs:76 | the line `3` followed by a newline selects choice 3 |
| Worker.KeyExit | todo_app/src/main.rs:76 | the line `4` followed by a newline selects choice 4 |
| Worker.TypedDescription | todo_app/src/main.rs:85-86 | a description without surrounding whitespace, read with its newline, is stored exactly as typed |
| Worker.StepOtherChoice | todo_app/src/main.rs:107-109 | a choice outside 1 to 4 prints `Invalid choice`, keeps the list, reads nothing more and continues |
| Worker.StepUnparsable | todo_app/src/main.rs:76-109 | unparsable menu input is an invalid choice: `Invalid choice`, the list unchanged, the loop going on |
| Worker.StepAdd | todo_app/src/main.rs:81-88 | choice 1 reads one line and appends exactly one uncompleted task holding that line trimmed, then continues |
| Worker.StepCompleteReads | todo_app/src/main.rs:89-99 | choice 2 reads exactly one line, completes the index it parses to, and prints the prompt and then the outcome message |
| Worker.StepComplete | todo_app/src/main.rs:89-100 | choice 2 reads one line as an index; a valid index completes that task and prints `Task completed`, any other index prints `Error: Invalid task index` and keeps the list |
| Worker.StepList | todo_app/src/main.rs:101-103 | choice 3 keeps the list, reads nothing, and prints one line per task in index order, each followed by a newline |
| Worker.StepExit | todo_app/src/main.rs:104-106 | choice 4 stops the loop with the list unchanged, printing nothing and reading nothing |
| Worker.StepExtends | todo_app/src/main.rs:80-110 | no command removes or moves a task, changes a description or uncompletes a task, and only choice 1 makes the list longer |
| Worker.RunExtends | todo_app/src/main.rs:65-111 | over the whole loop, on any input, the list only gains tasks and completions |
| Worker.RunUnfold | todo_app/src/main.rs:65-111 | one pass of the loop prints the menu, reads the choice, runs the command, then either stops (choice 4) or continues from the new list on the input left |
| Worker.RunAddPass | todo_app/src/main.rs:81-88 | on input starting with an add choice and a description line, the loop prints the menu and the prompt, then goes on with the new task at the end of the list |
| Worker.RunCompletePass | todo_app/src/main.rs:89-100 | on input starting with a complete choice and an index line, the loop prints the menu, the prompt and the completion message, then goes on from the updated list |
| Worker.RunListPass | todo_app/src/main.rs:101-103 | on input starting with a list choice, the loop prints the menu and the listing, then goes on from the same list |
| Worker.RunInvalidPass | todo_app/src/main.rs:107-109 | on input starting with an invalid choice, the loop prints the menu and `Invalid choice`, then goes on from the same list |
| Worker.RunExitPass | todo_app/src/main.rs:104-106 | on input starting with the exit choice, the loop prints the menu once more and ends, whatever input is left |
| Worker.ListThenExit | todo_app/src/main.rs:101-106 | listing and then exiting prints the listing between two menus and ends with the list unchanged |
| Worker.ListingOfTwo | todo_app/src/main.rs:46-53 | two uncompleted tasks are listed as `0: <first> [not completed]` and `1: <second> [not completed]`, one line each |
| Worker.ListingOfCompleted | todo_app/src/main.rs:46-53 | a single completed task is listed as `0: <description> [completed]` |
| Worker.ScenarioAddAddList | todo_app/src/main.rs:65-111 | from an empty list, two adds and a list print `0: <first> [not completed]` and `1: <second> [not completed]`, the descriptions being the typed lines trimmed, and the exit then ends the loop; the whole output and final list are given exactly |
| Worker.ScenarioAddCompleteList | todo_app/src/main.rs:65-111 | from an empty list, adding a task, completing index 0 and listing prints `Task completed` and then `0: <description> [completed]`; the whole output and final list are given exactly |
| Worker.ScenarioCompleteOnEmpty | todo_app/src/main.rs:89-100 | on an empty list, completing any index prints `Error: Invalid task index` and leaves the list empty |
| Worker.ScenarioNonNumeric | todo_app/src/main.rs:107-109 | non-numeric menu input prints `Invalid choice`, the menu is shown again, and the list is unchanged |
| Worker.Pass | todo_app/src/main.rs:65-110 | one pass of the loop on input not yet used up prints the menu, reads and parses the choice and runs its command in place; the run from here is that pass's output followed by the run on the new list and the input left, or ends there after choice 4; earlier tasks keep their places and added tasks are new objects |
| Worker.Dispatch | todo_app/src/main.rs:80-110 | the command runs on the list in place; the new list, the output, the stop flag and the input left are exactly those `Step` gives; existing tasks keep their places and added tasks are new objects |
| Worker.Worker | todo_app/src/main.rs:63-112 | the worker loop leaves the list, the output and the way it ended exactly as `Run` gives from the list it started with |
| Worker.RunProgram | todo_app/src/main.rs:58-115 | the program's output is that of the loop run from an empty list |

## Left out

- Console I/O (`read_line`, `print!`, `println!`, `flush`): lines read come from an input sequence, and texts written go to an output sequence.
- Threads and locking (`thread::spawn`, `join`, `Arc`, `Mutex::lock`): only the one worker thread ever touches the list, so the model is sequential.
- Panics from `expect` and `unwrap` (a failed read, a failed flush, a poisoned lock, a failed join): these are runtime failures outside the program's logic.
- End of input: after the last line the Rust `read_line` keeps returning nothing. The menu choice then becomes 0, so the program loops for ever printing `Invalid choice`. `Worker.Run` instead stops when the input is used up, after printing the menu once more, and reports that the loop did not end by choice 4. A description or index read at the end of input is the empty text, as in Rust.
- `usize` is taken to be 64 bits wide, the width on the usual targets.
- Text is Dafny's `char`, a Unicode scalar value. The program's byte-level UTF-8 handling is not modelled.
- The `Step` and `Run` functions state only a bound on the input they use up. Their meaning is stated by the `Step…`, `Run…Pass` and `Scenario…` lemmas.
