/** The terminal front end (TodoList.js): a numbered menu over one list.
    Each answer to "Choose an option" is given already read as an integer,
    together with the line typed at "Enter your task" (only read for
    option 1). What the program prints is the sequence of its
    `console.log` messages, one element per call. */
module Terminal {
  import opened JsString

  /** The four messages of `showMenu`, printed at start-up (see `Launch`)
      and after every option except "exit". */
  const Menu: seq<string> :=
    ["\nAdd your work to remember.", "1: Add a task.", "2: View Your task.", "3: Exit."]

  /** `console.log("Task Added: ", task)` separates its two arguments with a
      space, so the added task follows two spaces. */
  const AddedPrefix := "Task Added:  "
  const ListHeading := "\nYour Todo List."
  const Goodbye := "Good Bye You have a good day."
  const InvalidOption := "\nInvalid Option"

  /** One round of input: the chosen option and the task line. */
  datatype Entry = Entry(option: int, task: string)

  /** The list, what was printed, and whether the menu is still prompting. */
  datatype Outcome = Outcome(todos: seq<string>, output: seq<string>, open: bool)

  /** The lines of the "View" option: task `i` is printed as its number
      `i + 1`, a period, a space and the task, in list order. */
  function Listing(todos: seq<string>): (lines: seq<string>)
    ensures |lines| == |todos|
    ensures forall i :: 0 <= i < |todos| ==> lines[i] == NatToString(i + 1) + ". " + todos[i]
  {
    if todos == [] then []
    else Listing(todos[..|todos| - 1]) + [NatToString(|todos|) + ". " + todos[|todos| - 1]]
  }

  /** `handleInput`, as a function of the list before the round:
      1 appends the task exactly as typed and shows the menu again,
      2 prints the listing and shows the menu again, 3 says goodbye and
      closes the prompt, anything else reports an invalid option and
      shows the menu again. */
  function Respond(todos: seq<string>, e: Entry): Outcome
  {
    if e.option == 1 then
      Outcome(todos + [e.task], [AddedPrefix + e.task] + Menu, true)
    else if e.option == 2 then
      Outcome(todos, [ListHeading] + Listing(todos) + Menu, true)
    else if e.option == 3 then
      Outcome(todos, [Goodbye], false)
    else
      Outcome(todos, [InvalidOption] + Menu, true)
  }

  /** Only option 1 changes the list, only option 3 stops the menu, and
      the added task is the typed line itself, untrimmed and unchecked. */
  lemma RespondCases(todos: seq<string>, e: Entry)
    ensures Respond(todos, e).open <==> e.option != 3
    ensures e.option == 1 ==> Respond(todos, e).todos == todos + [e.task]
    ensures e.option != 1 ==> Respond(todos, e).todos == todos
    ensures Respond(todos, e).open ==> Respond(todos, e).output[|Respond(todos, e).output| - 4..] == Menu
  {
  }

  /** A whole run of the menu over the entries typed, stopping at the first "exit". */
  function Session(todos: seq<string>, entries: seq<Entry>): Outcome
    decreases |entries|
  {
    if entries == [] then Outcome(todos, [], true)
    else
      var first := Respond(todos, entries[0]);
      if !first.open then first
      else
        var rest := Session(first.todos, entries[1..]);
        Outcome(rest.todos, first.output + rest.output, rest.open)
  }

  /** The tasks typed, in order. */
  function TasksOf(entries: seq<Entry>): (tasks: seq<string>)
    ensures |tasks| == |entries|
    ensures forall k :: 0 <= k < |entries| ==> tasks[k] == entries[k].task
  {
    if entries == [] then [] else [entries[0].task] + TasksOf(entries[1..])
  }

  /** Adding only: the list ends up as the old list followed by the typed
      tasks in the order they were entered, and the menu is still open. */
  lemma {:induction false} SessionAddsInOrder(todos: seq<string>, entries: seq<Entry>)
    requires forall k :: 0 <= k < |entries| ==> entries[k].option == 1
    ensures Session(todos, entries).todos == todos + TasksOf(entries)
    ensures Session(todos, entries).open
    decreases |entries|
  {
    if entries != [] {
      var e := entries[0];
      var tail := entries[1..];
      var first := Respond(todos, e);
      assert first.todos == todos + [e.task] && first.open;
      assert forall k :: 0 <= k < |tail| ==> tail[k].option == 1 by {
        forall k | 0 <= k < |tail| ensures tail[k].option == 1 {
          assert tail[k] == entries[k + 1];
        }
      }
      SessionAddsInOrder(first.todos, tail);
      var rest := Session(first.todos, tail);
      assert Session(todos, entries).todos == rest.todos && Session(todos, entries).open == rest.open;
      calc {
        Session(todos, entries).todos;
        rest.todos;
        (todos + [e.task]) + TasksOf(tail);
        todos + ([e.task] + TasksOf(tail));
        { assert TasksOf(entries) == [e.task] + TasksOf(tail); }
        todos + TasksOf(entries);
      }
    }
  }

  /** The menu is still prompting after a run exactly when no entry chose "exit". */
  lemma {:induction false} SessionOpenIff(todos: seq<string>, entries: seq<Entry>)
    ensures Session(todos, entries).open <==> forall k :: 0 <= k < |entries| ==> entries[k].option != 3
    decreases |entries|
  {
    if entries != [] {
      var first := Respond(todos, entries[0]);
      if first.open {
        SessionOpenIff(first.todos, entries[1..]);
        assert forall k :: 1 <= k < |entries| ==> entries[k] == entries[1..][k - 1];
      }
    }
  }

  /** Whatever is entered after "exit" has no effect. */
  lemma {:induction false} SessionStopsAtExit(todos: seq<string>, entries: seq<Entry>, k: nat)
    requires k < |entries| && entries[k].option == 3
    ensures Session(todos, entries) == Session(todos, entries[..k + 1])
    ensures !Session(todos, entries).open
    decreases k
  {
    var first := Respond(todos, entries[0]);
    assert entries[..k + 1][0] == entries[0];
    if k > 0 && first.open {
      assert entries[..k + 1][1..] == entries[1..][..k];
      SessionStopsAtExit(first.todos, entries[1..], k - 1);
    }
  }

  /** The terminal never removes a task: the old list stays a prefix. */
  lemma {:induction false} SessionKeepsPrefix(todos: seq<string>, entries: seq<Entry>)
    ensures |Session(todos, entries).todos| >= |todos|
    ensures Session(todos, entries).todos[..|todos|] == todos
    decreases |entries|
  {
    if entries != [] {
      var first := Respond(todos, entries[0]);
      if first.open {
        SessionKeepsPrefix(first.todos, entries[1..]);
        assert first.todos[..|todos|] == todos;
      }
    }
  }

  class TodoConsole {
    /** `const todos = []`, the module-level list that `handleInput` pushes to. */
    var todos: seq<string>
    /** False once `rl.close()` has run. */
    var open: bool

    constructor ()
      ensures todos == [] && open
    {
      todos := [];
      open := true;
    }

    /** The `forEach` of option 2: one line per task, in list order. */
    method PrintTasks() returns (lines: seq<string>)
      ensures lines == Listing(todos)
    {
      lines := [];
      var i := 0;
      while i < |todos|
        invariant 0 <= i <= |todos|
        invariant lines == Listing(todos[..i])
      {
        assert todos[..i + 1][..i] == todos[..i];
        lines := lines + [NatToString(i + 1) + ". " + todos[i]];
        i := i + 1;
      }
      assert todos[..i] == todos;
    }

    /** `handleInput` for one entry, while the prompt is open. */
    method HandleInput(e: Entry) returns (out: seq<string>)
      requires open
      modifies this
      ensures Outcome(todos, out, open) == Respond(old(todos), e)
    {
      if e.option == 1 {
        todos := todos + [e.task];
        out := [AddedPrefix + e.task] + Menu;
      } else if e.option == 2 {
        var lines := PrintTasks();
        out := [ListHeading] + lines + Menu;
      } else if e.option == 3 {
        out := [Goodbye];
        open := false;
      } else {
        out := [InvalidOption] + Menu;
      }
    }

    /** The re-prompting menu: handles entries until they run out or one exits. */
    method Run(entries: seq<Entry>) returns (out: seq<string>)
      requires open
      modifies this
      ensures Outcome(todos, out, open) == Session(old(todos), entries)
    {
      ghost var start := todos;
      out := [];
      var i := 0;
      assert Continue(Outcome(todos, out, open), entries) == Session(start, entries);
      while i < |entries| && open
        invariant 0 <= i <= |entries|
        invariant Continue(Outcome(todos, out, open), entries[i..]) == Session(start, entries)
      {
        ContinueStep(Outcome(todos, out, open), entries[i..]);
        assert entries[i..][0] == entries[i] && entries[i..][1..] == entries[i + 1..];
        var printed := HandleInput(entries[i]);
        out := out + printed;
        i := i + 1;
      }
      assert out + [] == out;
    }
  }

  /** Resuming the menu in state `o` over the entries still to come. */
  ghost function Continue(o: Outcome, entries: seq<Entry>): Outcome
  {
    if !o.open then o
    else
      var rest := Session(o.todos, entries);
      Outcome(rest.todos, o.output + rest.output, rest.open)
  }

  /** Resuming is handling the next entry, then resuming after it. */
  lemma ContinueStep(o: Outcome, entries: seq<Entry>)
    requires o.open && entries != []
    ensures var step := Respond(o.todos, entries[0]);
            Continue(o, entries) ==
            Continue(Outcome(step.todos, o.output + step.output, step.open), entries[1..])
  {
    var step := Respond(o.todos, entries[0]);
    var rest := Session(step.todos, entries[1..]);
    assert o.output + (step.output + rest.output) == (o.output + step.output) + rest.output;
  }

  /** The whole program: `const todos = []`, the first `showMenu()`, then
      the menu over the entries typed. */
  method Launch(entries: seq<Entry>) returns (todos: seq<string>, out: seq<string>, open: bool)
    ensures var session := Session([], entries);
            todos == session.todos && out == Menu + session.output && open == session.open
  {
    var console := new TodoConsole();
    var printed := console.Run(entries);
    todos, out, open := console.todos, Menu + printed, console.open;
  }
}
