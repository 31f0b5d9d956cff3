/**
 * The worker loop of todo_app/src/main.rs: each pass prints the menu, reads
 * a choice and runs one command against the list, until the choice is 4.
 * Console input is a sequence of lines, each as `read_line` delivers it (the
 * newline included). Console output is the sequence of texts written by
 * `print!` and `println!`, in order; a `println!` text ends in its newline.
 */
module Worker {
  import opened Text
  import opened ToDo

  /** What each pass prints before reading the choice. */
  const Menu: seq<string> :=
    ["1. Add task\n", "2. Complete task\n", "3. List tasks\n", "4. Exit\n", "Enter your choice: "]
  const DescriptionPrompt: string := "Enter task description: "
  const IndexPrompt: string := "Enter task number to complete: "
  const InvalidChoice: string := "Invalid choice\n"
  const TaskCompleted: string := "Task completed\n"
  /** What `println!("Error: {}", err)` writes for the error of `complete_task`. */
  const IndexError: string := "Error: " + InvalidTaskIndex + "\n"

  /** One `read_line`: the next line, or, at the end of input, the empty text and no more input. */
  function ReadLine(input: seq<string>): (string, seq<string>) {
    if input == [] then ("", []) else (input[0], input[1..])
  }

  /** What `println!` writes for each of `lines`. */
  function Println(lines: seq<string>): (out: seq<string>)
    ensures |out| == |lines|
    ensures forall i :: 0 <= i < |lines| ==> out[i] == lines[i] + "\n"
  {
    seq(|lines|, i requires 0 <= i < |lines| => lines[i] + "\n")
  }

  /** `input.trim().parse::<u32>().unwrap_or(0)`. */
  function Choice(line: string): nat {
    ParseOrZero(Trim(line), U32Max)
  }

  /** `index.trim().parse::<usize>().unwrap_or(0)`. */
  function TaskIndex(line: string): nat {
    ParseOrZero(Trim(line), UsizeMax)
  }

  /** What the worker prints for the result of `complete_task`. */
  function CompletionMessage(r: Result<(), string>): string {
    match r
    case Ok(_) => TaskCompleted
    case Err(e) => "Error: " + e + "\n"
  }

  /** The list, the output, whether the loop breaks, and the input left after one command. */
  datatype StepResult = StepResult(tasks: seq<TaskValue>, out: seq<string>, stop: bool, rest: seq<string>)

  /**
   * One command, once the choice has been read and parsed: 1 reads a
   * description and appends its trimmed text as a new task, 2 reads an
   * index and completes that task, 3 lists, 4 breaks the loop, and every
   * other value (0 included, which is what unparsable text becomes) is an
   * invalid choice.
   */
  function Step(vs: seq<TaskValue>, choice: nat, rest: seq<string>): (r: StepResult)
    ensures |r.rest| <= |rest|
  {
    match choice
    case 1 =>
      var (description, rest') := ReadLine(rest);
      StepResult(vs + [NewTask(Trim(description))], [DescriptionPrompt], false, rest')
    case 2 =>
      var (index, rest') := ReadLine(rest);
      var (vs', result) := CompleteAt(vs, TaskIndex(index));
      StepResult(vs', [IndexPrompt, CompletionMessage(result)], false, rest')
    case 3 =>
      StepResult(vs, Println(Render(vs)), false, rest)
    case 4 =>
      StepResult(vs, [], true, rest)
    case _ =>
      StepResult(vs, [InvalidChoice], false, rest)
  }

  /** The list, the whole output, and whether the loop ended by choice 4 (rather than by running out of input). */
  datatype RunResult = RunResult(tasks: seq<TaskValue>, out: seq<string>, exited: bool)

  /** The worker loop from list `vs` on `input`: menu, choice, command, until exit or end of input. */
  function Run(vs: seq<TaskValue>, input: seq<string>): RunResult
    decreases |input|
  {
    if input == [] then RunResult(vs, Menu, false)
    else
      var s := Step(vs, Choice(input[0]), input[1..]);
      if s.stop then RunResult(s.tasks, Menu + s.out, true)
      else
        var r := Run(s.tasks, s.rest);
        RunResult(r.tasks, Menu + s.out + r.out, r.exited)
  }

  // ------------------------------------------------------ choice parsing

  /** A choice typed as a decimal number, with any whitespace around it, selects that number. */
  lemma ChoiceOfNumeral(p: string, c: nat, q: string)
    requires AllWhitespace(p) && AllWhitespace(q) && c <= U32Max
    ensures Choice(p + NatToString(c) + q) == c
  {
    var m := NatToString(c);
    assert !IsWhitespace(m[0]) && !IsWhitespace(m[|m| - 1]);
    TrimOfPadded(p, m, q);
    ParseFormatted(c, U32Max);
  }

  /** Text that is not an unsigned numeral once trimmed is coerced to choice 0. */
  lemma UnparsableChoiceIsZero(line: string)
    requires !WellFormed(Trim(line))
    ensures Choice(line) == 0
  {
    ParseOrZeroFacts(Trim(line), U32Max);
  }

  /** A numeral too large for `u32` is coerced to choice 0 as well. */
  lemma OverflowingChoiceIsZero(line: string)
    requires WellFormed(Trim(line)) && DigitsValue(Numeral(Trim(line))) > U32Max
    ensures Choice(line) == 0
  {
    ParseOrZeroFacts(Trim(line), U32Max);
  }

  // ------------------------------------------------------------ dispatch

  /** A choice outside 1 to 4 prints `Invalid choice`, keeps the list, consumes nothing more and continues. */
  lemma StepOtherChoice(vs: seq<TaskValue>, choice: nat, rest: seq<string>)
    requires !(1 <= choice <= 4)
    ensures Step(vs, choice, rest) == StepResult(vs, [InvalidChoice], false, rest)
  {
  }

  /** Input that does not parse as a choice is an invalid choice, and changes nothing. */
  lemma StepUnparsable(vs: seq<TaskValue>, line: string, rest: seq<string>)
    requires !WellFormed(Trim(line))
    ensures Step(vs, Choice(line), rest) == StepResult(vs, [InvalidChoice], false, rest)
  {
    UnparsableChoiceIsZero(line);
  }

  /** Choice 1 reads one line and appends exactly one uncompleted task holding that line trimmed. */
  lemma StepAdd(vs: seq<TaskValue>, choice: nat, description: string, rest: seq<string>)
    requires choice == 1
    ensures var r := Step(vs, choice, [description] + rest);
      r.tasks == vs + [TaskValue(Trim(description), false)] && !r.stop && r.rest == rest
  {
    assert ([description] + rest)[1..] == rest;
  }

  /** Choice 2 reads one line, completes the index it parses to, and prints the prompt and the outcome. */
  lemma StepCompleteReads(vs: seq<TaskValue>, index: string, rest: seq<string>)
    ensures var c := CompleteAt(vs, TaskIndex(index));
      Step(vs, 2, [index] + rest) == StepResult(c.0, [IndexPrompt, CompletionMessage(c.1)], false, rest)
  {
    assert ([index] + rest)[0] == index;
    assert ([index] + rest)[1..] == rest;
  }

  /**
   * Choice 2 reads one line as an index: a valid one completes that task and
   * prints `Task completed`; any other prints `Error: Invalid task index` and
   * keeps the list.
   */
  lemma StepComplete(vs: seq<TaskValue>, choice: nat, index: string, rest: seq<string>)
    requires choice == 2
    ensures var r := Step(vs, choice, [index] + rest);
      var i := TaskIndex(index);
      !r.stop && r.rest == rest &&
      (i < |vs| ==> r.tasks == vs[i := Completed(vs[i])] && r.out == [IndexPrompt, TaskCompleted]) &&
      (i >= |vs| ==> r.tasks == vs && r.out == [IndexPrompt, IndexError])
  {
    StepCompleteReads(vs, index, rest);
    var i := TaskIndex(index);
    if i < |vs| {
      assert CompleteAt(vs, i) == (vs[i := Completed(vs[i])], Ok(()));
      assert CompletionMessage(Ok(())) == TaskCompleted;
    } else {
      assert CompleteAt(vs, i) == (vs, Err(InvalidTaskIndex));
      assert CompletionMessage(Err(InvalidTaskIndex)) == IndexError;
    }
  }

  /** Choice 3 keeps the list and prints exactly one line per task, in index order. */
  lemma StepList(vs: seq<TaskValue>, choice: nat, rest: seq<string>)
    requires choice == 3
    ensures var r := Step(vs, choice, rest);
      r.tasks == vs && !r.stop && r.rest == rest && |r.out| == |vs| &&
      forall k :: 0 <= k < |vs| ==> r.out[k] == Line(k, vs[k]) + "\n"
  {
  }

  /** Choice 4 breaks the loop with the list unchanged and nothing printed. */
  lemma StepExit(vs: seq<TaskValue>, choice: nat, rest: seq<string>)
    requires choice == 4
    ensures Step(vs, choice, rest) == StepResult(vs, [], true, rest)
  {
  }

  // ---------------------------------------------------------- invariants

  /**
   * `ws` is a later state of the list `vs`: no task went away or moved, no
   * description changed, and no completed task became uncompleted.
   */
  ghost predicate Extends(vs: seq<TaskValue>, ws: seq<TaskValue>) {
    |vs| <= |ws| &&
    forall k :: 0 <= k < |vs| ==>
      ws[k].description == vs[k].description && (vs[k].completed ==> ws[k].completed)
  }

  /** Every command leaves a later state of the list, and only choice 1 makes it longer. */
  lemma StepExtends(vs: seq<TaskValue>, choice: nat, rest: seq<string>)
    ensures Extends(vs, Step(vs, choice, rest).tasks)
    ensures choice != 1 ==> |Step(vs, choice, rest).tasks| == |vs|
  {
  }

  /** The whole loop, on any input, only ever adds tasks and completes them. */
  lemma {:induction false} RunExtends(vs: seq<TaskValue>, input: seq<string>)
    ensures Extends(vs, Run(vs, input).tasks)
    decreases |input|
  {
    if input != [] {
      var s := Step(vs, Choice(input[0]), input[1..]);
      StepExtends(vs, Choice(input[0]), input[1..]);
      if !s.stop {
        RunExtends(s.tasks, s.rest);
      }
    }
  }

  // -------------------------------------------------------------- the loop

  function Prepend(out: seq<string>, r: RunResult): RunResult {
    RunResult(r.tasks, out + r.out, r.exited)
  }

  /** One pass of the loop: the menu, then one command, then (unless it was 4) the rest of the loop. */
  lemma RunUnfold(vs: seq<TaskValue>, line: string, input: seq<string>)
    ensures var s := Step(vs, Choice(line), input);
      Run(vs, [line] + input) ==
        if s.stop then RunResult(s.tasks, Menu + s.out, true)
        else Prepend(Menu + s.out, Run(s.tasks, s.rest))
  {
    assert ([line] + input)[0] == line;
    assert ([line] + input)[1..] == input;
  }

  lemma PrependPrepend(a: seq<string>, b: seq<string>, r: RunResult)
    ensures Prepend(a, Prepend(b, r)) == Prepend(a + b, r)
  {
    assert a + (b + r.out) == a + b + r.out;
  }

  // ---------------------------------------------------------------- runs

  /** The menu digits as typed, newline included, select their command. */
  lemma KeyAdd()
    ensures Choice("1\n") == 1
  {
    ChoiceOfNumeral([], 1, "\n");
    assert [] + NatToString(1) + "\n" == "1\n";
  }

  lemma KeyComplete()
    ensures Choice("2\n") == 2
  {
    ChoiceOfNumeral([], 2, "\n");
    assert [] + NatToString(2) + "\n" == "2\n";
  }

  lemma KeyList()
    ensures Choice("3\n") == 3
  {
    ChoiceOfNumeral([], 3, "\n");
    assert [] + NatToString(3) + "\n" == "3\n";
  }

  lemma KeyExit()
    ensures Choice("4\n") == 4
  {
    ChoiceOfNumeral([], 4, "\n");
    assert [] + NatToString(4) + "\n" == "4\n";
  }

  /** A description typed without surrounding whitespace is stored exactly as typed. */
  lemma TypedDescription(d: string)
    requires Trimmed(d)
    ensures Trim(d + "\n") == d
  {
    TrimOfPadded([], d, "\n");
    assert [] + d + "\n" == d + "\n";
  }

  /** A pass that adds: menu and prompt, then the loop goes on with the new task at the end. */
  lemma RunAddPass(vs: seq<TaskValue>, line: string, description: string, input: seq<string>, r: RunResult)
    requires Choice(line) == 1
    requires Run(vs + [NewTask(Trim(description))], input) == r
    ensures Run(vs, [line, description] + input) == Prepend(Menu + [DescriptionPrompt], r)
  {
    assert [line, description] + input == [line] + ([description] + input);
    RunUnfold(vs, line, [description] + input);
    StepAdd(vs, 1, description, input);
  }

  /** A pass that completes: menu, prompt and message, then the loop goes on from the updated list. */
  lemma RunCompletePass(vs: seq<TaskValue>, line: string, index: string, input: seq<string>, r: RunResult)
    requires Choice(line) == 2
    requires Run(CompleteAt(vs, TaskIndex(index)).0, input) == r
    ensures Run(vs, [line, index] + input) ==
      Prepend(Menu + [IndexPrompt, CompletionMessage(CompleteAt(vs, TaskIndex(index)).1)], r)
  {
    assert [line, index] + input == [line] + ([index] + input);
    RunUnfold(vs, line, [index] + input);
    assert ([index] + input)[1..] == input;
  }

  /** A pass that lists: menu and listing, then the loop goes on from the same list. */
  lemma RunListPass(vs: seq<TaskValue>, line: string, input: seq<string>, r: RunResult)
    requires Choice(line) == 3
    requires Run(vs, input) == r
    ensures Run(vs, [line] + input) == Prepend(Menu + Println(Render(vs)), r)
  {
    RunUnfold(vs, line, input);
  }

  /** A pass with an invalid choice: menu and `Invalid choice`, then the loop goes on unchanged. */
  lemma RunInvalidPass(vs: seq<TaskValue>, line: string, input: seq<string>, r: RunResult)
    requires !(1 <= Choice(line) <= 4)
    requires Run(vs, input) == r
    ensures Run(vs, [line] + input) == Prepend(Menu + [InvalidChoice], r)
  {
    RunUnfold(vs, line, input);
  }

  /** The exit pass: the menu, and the loop ends there, whatever input is left. */
  lemma RunExitPass(vs: seq<TaskValue>, line: string, input: seq<string>)
    requires Choice(line) == 4
    ensures Run(vs, [line] + input) == RunResult(vs, Menu, true)
  {
    RunUnfold(vs, line, input);
    assert Menu + [] == Menu;
  }

  /** Listing and then exiting prints the listing between two menus. */
  lemma ListThenExit(vs: seq<TaskValue>, l: string, x: string)
    requires Choice(l) == 3 && Choice(x) == 4
    ensures Run(vs, [l, x]) == RunResult(vs, Menu + Println(Render(vs)) + Menu, true)
  {
    RunExitPass(vs, x, []);
    assert [x] + [] == [x];
    RunListPass(vs, l, [x], RunResult(vs, Menu, true));
    assert [l] + [x] == [l, x];
  }

  /** Six input lines, as three pairs. */
  lemma ThreePairs(p: string, q: string, r: string, s: string, t: string, u: string)
    ensures [p, q] + ([r, s] + [t, u]) == [p, q, r, s, t, u]
  {
  }

  /** Two adds from an empty list, followed by any further input. */
  lemma AddTwo(a: string, e1: string, e2: string, rest: seq<string>, r: RunResult)
    requires Choice(a) == 1
    requires Run([NewTask(Trim(e1)), NewTask(Trim(e2))], rest) == r
    ensures Run([], [a, e1] + ([a, e2] + rest)) ==
      Prepend(Menu + [DescriptionPrompt], Prepend(Menu + [DescriptionPrompt], r))
  {
    var t1, t2 := NewTask(Trim(e1)), NewTask(Trim(e2));
    assert [t1] + [t2] == [t1, t2];
    RunAddPass([t1], a, e2, rest, r);
    assert [] + [t1] == [t1];
    RunAddPass([], a, e1, [a, e2] + rest, Prepend(Menu + [DescriptionPrompt], r));
  }

  /** The listing of two uncompleted tasks, as printed. */
  lemma ListingOfTwo(d1: string, d2: string)
    ensures Println(Render([NewTask(d1), NewTask(d2)])) ==
      ["0: " + d1 + " [not completed]\n", "1: " + d2 + " [not completed]\n"]
  {
    assert NatToString(0) == "0";
    assert NatToString(1) == "1";
    assert "0" + (": " + (d1 + " [not completed]")) + "\n" == "0: " + d1 + " [not completed]\n";
    assert "1" + (": " + (d2 + " [not completed]")) + "\n" == "1: " + d2 + " [not completed]\n";
  }

  /** The listing of one completed task, as printed. */
  lemma ListingOfCompleted(d: string)
    ensures Println(Render([TaskValue(d, true)])) == ["0: " + d + " [completed]\n"]
  {
    assert NatToString(0) == "0";
    assert "0" + (": " + (d + " [completed]")) + "\n" == "0: " + d + " [completed]\n";
  }

  /**
   * From an empty list, adding two tasks and listing prints both, in the
   * order added, neither completed; then the exit ends the loop.
   */
  lemma ScenarioAddAddList(a: string, l: string, x: string, e1: string, e2: string)
    requires Choice(a) == 1 && Choice(l) == 3 && Choice(x) == 4
    ensures Run([], [a, e1, a, e2, l, x]) ==
      RunResult([TaskValue(Trim(e1), false), TaskValue(Trim(e2), false)],
                Menu + [DescriptionPrompt] + (Menu + [DescriptionPrompt]) +
                (Menu + ["0: " + Trim(e1) + " [not completed]\n", "1: " + Trim(e2) + " [not completed]\n"] + Menu),
                true)
  {
    var two := [NewTask(Trim(e1)), NewTask(Trim(e2))];
    var r := RunResult(two, Menu + Println(Render(two)) + Menu, true);
    ListThenExit(two, l, x);
    AddTwo(a, e1, e2, [l, x], r);
    ThreePairs(a, e1, a, e2, l, x);
    PrependPrepend(Menu + [DescriptionPrompt], Menu + [DescriptionPrompt], r);
    ListingOfTwo(Trim(e1), Trim(e2));
  }

  /**
   * From an empty list, adding a task, completing index 0 and listing shows
   * that task completed.
   */
  lemma ScenarioAddCompleteList(a: string, e: string, c: string, i: string, l: string, x: string)
    requires Choice(a) == 1 && Choice(c) == 2 && TaskIndex(i) == 0 && Choice(l) == 3 && Choice(x) == 4
    ensures Run([], [a, e, c, i, l, x]) ==
      RunResult([TaskValue(Trim(e), true)],
                Menu + [DescriptionPrompt] + (Menu + [IndexPrompt, TaskCompleted]) +
                (Menu + ["0: " + Trim(e) + " [completed]\n"] + Menu), true)
  {
    var t := NewTask(Trim(e));
    var done := [TaskValue(Trim(e), true)];
    var r := RunResult(done, Menu + Println(Render(done)) + Menu, true);
    ListThenExit(done, l, x);
    assert [t][0 := Completed(t)] == done;
    assert CompleteAt([t], 0) == (done, Ok(()));
    assert CompletionMessage(Ok(())) == TaskCompleted;
    RunCompletePass([t], c, i, [l, x], r);
    var r' := Prepend(Menu + [IndexPrompt, TaskCompleted], r);
    assert [] + [t] == [t];
    RunAddPass([], a, e, [c, i] + [l, x], r');
    ThreePairs(a, e, c, i, l, x);
    PrependPrepend(Menu + [DescriptionPrompt], Menu + [IndexPrompt, TaskCompleted], r);
    ListingOfCompleted(Trim(e));
  }

  /** On an empty list, completing any index fails with the invalid-index error and changes nothing. */
  lemma ScenarioCompleteOnEmpty(c: string, i: string, x: string)
    requires Choice(c) == 2 && Choice(x) == 4
    ensures Run([], [c, i, x]) ==
      RunResult([], Menu + [IndexPrompt, IndexError] + Menu, true)
  {
    RunExitPass([], x, []);
    assert [x] + [] == [x];
    assert CompleteAt([], TaskIndex(i)) == ([], Err(InvalidTaskIndex));
    assert CompletionMessage(Err(InvalidTaskIndex)) == IndexError;
    RunCompletePass([], c, i, [x], RunResult([], Menu, true));
    assert [c, i] + [x] == [c, i, x];
  }

  /** Menu input that is not a numeral prints `Invalid choice`; the menu comes back with the list unchanged. */
  lemma ScenarioNonNumeric(vs: seq<TaskValue>, n: string, x: string)
    requires !WellFormed(Trim(n)) && Choice(x) == 4
    ensures Run(vs, [n, x]) == RunResult(vs, Menu + [InvalidChoice] + Menu, true)
  {
    UnparsableChoiceIsZero(n);
    RunExitPass(vs, x, []);
    assert [x] + [] == [x];
    RunInvalidPass(vs, n, [x], RunResult(vs, Menu, true));
    assert [n] + [x] == [n, x];
  }

  /**
   * The body of the worker loop once the choice has been read and parsed: the
   * command runs on the list in place, and the list, output and input left
   * afterwards are those `Step` gives.
   */
  method Dispatch(list: ToDoList, choice: nat, input: seq<string>)
    returns (out: seq<string>, stop: bool, rest: seq<string>)
    requires list.Valid()
    modifies list, list.tasks
    ensures list.Valid()
    ensures |old(list.tasks)| <= |list.tasks| && list.tasks[..|old(list.tasks)|] == old(list.tasks)
    ensures forall k :: |old(list.tasks)| <= k < |list.tasks| ==> fresh(list.tasks[k])
    ensures Step(old(list.Contents()), choice, input) == StepResult(list.Contents(), out, stop, rest)
  {
    rest := input;
    stop := false;
    match choice
    case 1 =>
      var (description, rest') := ReadLine(input);
      rest := rest';
      out := [DescriptionPrompt];
      var task := new Task(Trim(description));
      list.AddTask(task);
    case 2 =>
      var (index, rest') := ReadLine(input);
      rest := rest';
      var result := list.CompleteTask(ParseOrZero(Trim(index), UsizeMax));
      out := [IndexPrompt, CompletionMessage(result)];
    case 3 =>
      var lines := list.ListTasks();
      out := Println(lines);
    case 4 =>
      out := [];
      stop := true;
    case _ =>
      out := [InvalidChoice];
  }

  /**
   * One pass of the worker loop on input that is not used up: the menu, the
   * choice read and parsed, and its command run on the list in place. The
   * output is what the pass prints; the whole loop from here is that output
   * followed by the loop on the new list and the input left, unless the
   * command was the exit.
   */
  method Pass(list: ToDoList, input: seq<string>) returns (out: seq<string>, stop: bool, rest: seq<string>)
    requires list.Valid() && input != []
    modifies list, list.tasks
    ensures list.Valid()
    ensures |old(list.tasks)| <= |list.tasks| && list.tasks[..|old(list.tasks)|] == old(list.tasks)
    ensures forall k :: |old(list.tasks)| <= k < |list.tasks| ==> fresh(list.tasks[k])
    ensures |rest| < |input|
    ensures stop ==> Run(old(list.Contents()), input) == RunResult(list.Contents(), out, true)
    ensures !stop ==> Run(old(list.Contents()), input) == Prepend(out, Run(list.Contents(), rest))
  {
    ghost var before := list.Contents();
    var line := input[0];
    var commandOut;
    commandOut, stop, rest := Dispatch(list, Choice(line), input[1..]);
    assert [line] + input[1..] == input;
    RunUnfold(before, line, input[1..]);
    out := Menu + commandOut;
  }

  /**
   * The worker thread's `loop` over the shared list: its output and the
   * final list are those of `Run` from the list it started with.
   */
  method Worker(list: ToDoList, input: seq<string>) returns (out: seq<string>, exited: bool)
    requires list.Valid()
    modifies list, list.tasks
    ensures list.Valid()
    ensures Run(old(list.Contents()), input) == RunResult(list.Contents(), out, exited)
  {
    ghost var total := Run(list.Contents(), input);
    ghost var owned := list.tasks;
    var rest := input;
    out, exited := [], false;
    while true
      invariant list.Valid()
      invariant forall k :: 0 <= k < |list.tasks| ==>
                  (k < |owned| && list.tasks[k] == owned[k]) || fresh(list.tasks[k])
      invariant total == Prepend(out, Run(list.Contents(), rest))
      decreases |rest|
    {
      if rest == [] {
        out := out + Menu;
        break;
      }
      ghost var previous := list.tasks;
      var passOut, stop, rest' := Pass(list, rest);
      assert forall k :: 0 <= k < |previous| ==> list.tasks[k] == previous[k];
      if stop {
        out, exited := out + passOut, true;
        break;
      }
      PrependPrepend(out, passOut, Run(list.Contents(), rest'));
      out, rest := out + passOut, rest';
    }
  }

  /** `main`: an empty list handed to the worker, whose output is the program's output. */
  method RunProgram(input: seq<string>) returns (out: seq<string>)
    ensures out == Run([], input).out
  {
    var list := new ToDoList();
    var exited;
    out, exited := Worker(list, input);
  }
}
