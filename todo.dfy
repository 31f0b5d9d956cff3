/**
 * `Task` and `ToDoList` of the to-do manager (todo_app/src/main.rs). A task is
 * a description with a completion flag; the list keeps its tasks in insertion
 * order and addresses them by 0-based index. The pure functions here give the
 * value view of that state and what each list operation does to it; the
 * classes are proved against them.
 */
module ToDo {
  import opened Text

  /** What a `Task` holds, as a value. */
  datatype TaskValue = TaskValue(description: string, completed: bool)

  /** `Result<(), String>`, the return type of `complete_task`. */
  datatype Result<T, E> = Ok(value: T) | Err(error: E)

  /** The error text of `complete_task`. */
  const InvalidTaskIndex: string := "Invalid task index"

  /** The value `Task::new(description)` builds: the description as given, not completed. */
  function NewTask(description: string): TaskValue {
    TaskValue(description, false)
  }

  /** The value a task holds after `Task::complete`. */
  function Completed(t: TaskValue): TaskValue {
    t.(completed := true)
  }

  /** Completing keeps the description, sets the flag, and a second completion changes nothing. */
  lemma CompletedProperties(t: TaskValue)
    ensures Completed(t).description == t.description && Completed(t).completed
    ensures Completed(Completed(t)) == Completed(t)
    ensures t.completed ==> Completed(t) == t
  {
  }

  /** A task as the list owns it; `complete` changes its flag in place. */
  class Task {
    var description: string
    var completed: bool

    function Value(): TaskValue
      reads this
    {
      TaskValue(description, completed)
    }

    /** `Task::new`: no validation, so the empty description is allowed. */
    constructor (description: string)
      ensures Value() == NewTask(description)
    {
      this.description := description;
      completed := false;
    }

    /** `Task::complete`. */
    method Complete()
      modifies this
      ensures Value() == Completed(old(Value()))
    {
      completed := true;
    }
  }

  /** The values held by a sequence of tasks, index by index. */
  function Values(ts: seq<Task>): (vs: seq<TaskValue>)
    reads ts
    ensures |vs| == |ts| && forall i :: 0 <= i < |ts| ==> vs[i] == ts[i].Value()
  {
    seq(|ts|, i reads ts requires 0 <= i < |ts| => ts[i].Value())
  }

  /**
   * What `complete_task(index)` does to a list holding `vs`: the new values
   * and the returned result. Only the task at `index` can change, and only
   * its flag, which becomes true; an index past the end is an error.
   */
  function CompleteAt(vs: seq<TaskValue>, index: nat): (r: (seq<TaskValue>, Result<(), string>))
    ensures |r.0| == |vs|
    ensures forall k :: 0 <= k < |vs| ==>
              r.0[k].description == vs[k].description &&
              r.0[k].completed == (vs[k].completed || k == index)
    ensures r.1.Ok? <==> index < |vs|
    ensures r.1.Err? ==> r.1.error == InvalidTaskIndex
  {
    if index < |vs| then (vs[index := Completed(vs[index])], Ok(()))
    else (vs, Err(InvalidTaskIndex))
  }

  /** A failed completion leaves the whole list as it was; on the empty list every index fails. */
  lemma CompleteOutOfRange(vs: seq<TaskValue>, index: nat)
    requires index >= |vs|
    ensures CompleteAt(vs, index) == (vs, Err(InvalidTaskIndex))
  {
  }

  /** Completing the same index twice leaves the list that completing it once does. */
  lemma {:induction false} CompleteTwice(vs: seq<TaskValue>, index: nat)
    ensures CompleteAt(CompleteAt(vs, index).0, index).0 == CompleteAt(vs, index).0
  {
    var once := CompleteAt(vs, index).0;
    var twice := CompleteAt(once, index).0;
    forall k | 0 <= k < |vs|
      ensures twice[k] == once[k]
    {
      assert twice[k].description == once[k].description;
      assert twice[k].completed == once[k].completed;
    }
  }

  // ------------------------------------------------------------- listing

  /** The bracketed status at the end of a listed line. */
  function StatusTag(completed: bool): string {
    if completed then " [completed]" else " [not completed]"
  }

  /** The line `list_tasks` prints for task `t` at index `k`: `"{k}: {description} [{status}]"`. */
  function Line(k: nat, t: TaskValue): string {
    NatToString(k) + (": " + (t.description + StatusTag(t.completed)))
  }

  /** The lines `list_tasks` prints for a list holding `vs`: one per task, in index order. */
  function Render(vs: seq<TaskValue>): (lines: seq<string>)
    ensures |lines| == |vs|
    ensures forall k :: 0 <= k < |vs| ==> lines[k] == Line(k, vs[k])
    decreases |vs|
  {
    if vs == [] then []
    else Render(vs[..|vs| - 1]) + [Line(|vs| - 1, vs[|vs| - 1])]
  }

  /** Adding a task at the end adds its line at the end of the listing and keeps the others. */
  lemma RenderAppend(vs: seq<TaskValue>, t: TaskValue)
    ensures Render(vs + [t]) == Render(vs) + [Line(|vs|, t)]
  {
    assert (vs + [t])[..|vs|] == vs;
  }

  /** The number of decimal digits at the start of `s`. */
  function LeadingDigits(s: string): (n: nat)
    ensures n <= |s|
  {
    if s != [] && IsDigit(s[0]) then 1 + LeadingDigits(s[1..]) else 0
  }

  lemma {:induction false} LeadingDigitsOf(a: string, x: string)
    requires AllDigits(a) && x != [] && !IsDigit(x[0])
    ensures LeadingDigits(a + x) == |a|
    decreases |a|
  {
    if a == [] {
      assert a + x == x;
    } else {
      assert (a + x)[1..] == a[1..] + x;
      LeadingDigitsOf(a[1..], x);
    }
  }

  lemma DigitPrefix(a: string, x: string, b: string, y: string)
    requires AllDigits(a) && AllDigits(b)
    requires x != [] && !IsDigit(x[0]) && y != [] && !IsDigit(y[0])
    requires a + x == b + y
    ensures a == b && x == y
  {
    LeadingDigitsOf(a, x);
    LeadingDigitsOf(b, y);
    assert a == (a + x)[..|a|];
    assert b == (b + y)[..|b|];
  }

  /** Reads the status back from a listed line: whether it ends in " [completed]". */
  function StatusOf(s: string): bool {
    |s| >= 12 && s[|s| - 12..] == " [completed]"
  }

  lemma StatusOfTag(d: string, c: bool)
    ensures StatusOf(d + StatusTag(c)) == c
  {
    var s := d + StatusTag(c);
    if c {
      assert s[|s| - 12..] == " [completed]";
    } else {
      assert s[|s| - 12..] == "t completed]";
      assert "t completed]"[0] != " [completed]"[0];
    }
  }

  lemma TagSuffix(d1: string, c1: bool, d2: string, c2: bool)
    requires d1 + StatusTag(c1) == d2 + StatusTag(c2)
    ensures d1 == d2 && c1 == c2
  {
    var s := d1 + StatusTag(c1);
    StatusOfTag(d1, c1);
    StatusOfTag(d2, c2);
    assert d1 == s[..|d1|];
    assert d2 == s[..|d2|];
  }

  /** Each listed line determines its index and its task: the listing loses nothing. */
  lemma LineInjective(k1: nat, t1: TaskValue, k2: nat, t2: TaskValue)
    requires Line(k1, t1) == Line(k2, t2)
    ensures k1 == k2 && t1 == t2
  {
    var y1 := t1.description + StatusTag(t1.completed);
    var y2 := t2.description + StatusTag(t2.completed);
    DigitPrefix(NatToString(k1), ": " + y1, NatToString(k2), ": " + y2);
    NatToStringInjective(k1, k2);
    assert y1 == (": " + y1)[2..];
    assert y2 == (": " + y2)[2..];
    TagSuffix(t1.description, t1.completed, t2.description, t2.completed);
  }

  /** Two lists with the same listing hold the same tasks. */
  lemma {:induction false} RenderInjective(vs: seq<TaskValue>, ws: seq<TaskValue>)
    requires Render(vs) == Render(ws)
    ensures vs == ws
  {
    forall k | 0 <= k < |vs|
      ensures vs[k] == ws[k]
    {
      LineInjective(k, vs[k], k, ws[k]);
    }
  }

  // -------------------------------------------------------------- the list

  /** `ToDoList`: the tasks it owns, in insertion order. */
  class ToDoList {
    var tasks: seq<Task>

    /** The list owns each task once: no task object appears at two indices. */
    ghost predicate Valid()
      reads this
    {
      forall i, j :: 0 <= i < j < |tasks| ==> tasks[i] != tasks[j]
    }

    /** The values of the tasks, in index order. */
    function Contents(): seq<TaskValue>
      reads this, tasks
    {
      Values(tasks)
    }

    /** `ToDoList::new`: an empty list. */
    constructor ()
      ensures Valid() && tasks == [] && Contents() == []
    {
      tasks := [];
    }

    /**
     * `add_task`: the task goes at the end; the list grows by one and every
     * earlier task stays at its index with its value. The task is moved in,
     * so the list cannot already own it.
     */
    method AddTask(task: Task)
      requires Valid() && task !in tasks
      modifies this
      ensures Valid() && tasks == old(tasks) + [task]
      ensures Contents() == old(Contents()) + [task.Value()]
    {
      tasks := tasks + [task];
    }

    /**
     * `complete_task`: a valid index marks that task completed and returns
     * `Ok`; any other index returns the error and changes nothing.
     */
    method CompleteTask(index: nat) returns (r: Result<(), string>)
      requires Valid()
      modifies if index < |tasks| then {tasks[index]} else {}
      ensures Valid() && tasks == old(tasks)
      ensures (Contents(), r) == CompleteAt(old(Contents()), index)
    {
      if index < |tasks| {
        ghost var before := Contents();
        tasks[index].Complete();
        assert Contents() == before[index := Completed(before[index])];
        r := Ok(());
      } else {
        r := Err(InvalidTaskIndex);
      }
    }

    /** `list_tasks`: the lines it prints, one per task in index order; the list is only read. */
    method ListTasks() returns (lines: seq<string>)
      ensures lines == Render(Contents())
    {
      lines := [];
      for i := 0 to |tasks|
        invariant |lines| == i
        invariant forall k :: 0 <= k < i ==> lines[k] == Line(k, tasks[k].Value())
      {
        lines := lines + [Line(i, tasks[i].Value())];
      }
    }
  }
}
