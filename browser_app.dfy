/** The browser front end (app.js): class `TodoApp` keeps the list and the
    text of the input box, validates and appends on "add", splices on
    "delete", and renders a count label and numbered rows. A notification is
    returned as the message and type the page would show. */
module Browser {
  import opened JsString
  import opened JsArray

  /** The longest task, in UTF-16 code units, that `addTask` accepts. */
  const MaxTaskLength := 100

  datatype Notification = Notification(message: string, kind: string)

  /** A task as `addTask` stores it: non-empty, with no white space at either
      end, and at most 100 code units long. */
  predicate IsAcceptedTask(t: string)
  {
    IsTrimmed(t) && Utf16Length(t) <= MaxTaskLength
  }

  /** An accepted task is one that `trim` leaves unchanged, non-empty and within the cap. */
  lemma AcceptedIffTrimmed(t: string)
    ensures IsAcceptedTask(t) <==> (t != [] && Trim(t) == t && Utf16Length(t) <= MaxTaskLength)
  {
    TrimmedIff(t);
  }

  /** `${this.todos[index]}`: the element's text, or "undefined" when the
      index is not a position of the array. */
  function ElementText(s: seq<string>, index: int): (t: string)
    ensures 0 <= index < |s| ==> t == s[index]
    ensures !(0 <= index < |s|) ==> t == "undefined"
  {
    if 0 <= index < |s| then s[index] else "undefined"
  }

  class TodoApp {
    var todos: seq<string>
    /** `taskInput.value`, the text typed into the input box. */
    var input: string

    ghost predicate Valid()
      reads this
    {
      forall k :: 0 <= k < |todos| ==> IsAcceptedTask(todos[k])
    }

    /** Starts from the list read back from storage, with an empty input box. */
    constructor (stored: seq<string>)
      ensures todos == stored && input == []
    {
      todos := stored;
      input := [];
    }

    /** `addTask`: the trimmed input is refused when empty or longer than 100
        code units, leaving list and input box as they were; otherwise it is
        appended, the input box is cleared and success is reported. */
    method AddTask() returns (note: Notification)
      modifies this
      ensures var t := Trim(old(input));
              t == [] ==>
                todos == old(todos) && input == old(input) &&
                note == Notification("Please enter a task!", "error")
      ensures var t := Trim(old(input));
              t != [] && Utf16Length(t) > MaxTaskLength ==>
                todos == old(todos) && input == old(input) &&
                note == Notification("Task is too long! Maximum 100 characters.", "error")
      ensures var t := Trim(old(input));
              t != [] && Utf16Length(t) <= MaxTaskLength ==>
                todos == old(todos) + [t] && input == [] &&
                note == Notification("Task Added: " + t, "success")
      ensures old(Valid()) ==> Valid()
    {
      var taskText := Trim(input);
      if taskText == [] {
        return Notification("Please enter a task!", "error");
      }
      if Utf16Length(taskText) > MaxTaskLength {
        return Notification("Task is too long! Maximum 100 characters.", "error");
      }
      if Valid() {
        PushKeeps(todos, taskText, IsAcceptedTask);
      }
      todos := todos + [taskText];
      input := [];
      note := Notification("Task Added: " + taskText, "success");
    }

    /** `deleteTask(index)`: `splice(index, 1)` without a bounds check, so a
        position in the list removes that task, a negative one counts from the
        end, and one past the end removes nothing; the notification quotes
        `todos[index]`, which is "undefined" outside the list. */
    method DeleteTask(index: int) returns (note: Notification)
      modifies this
      ensures todos == SpliceOne(old(todos), index).rest && input == old(input)
      ensures 0 <= index < |old(todos)| ==> todos == old(todos)[..index] + old(todos)[index + 1..]
      ensures index >= |old(todos)| ==> todos == old(todos)
      ensures note == Notification("Task deleted: " + ElementText(old(todos), index), "info")
      ensures old(Valid()) ==> Valid()
    {
      var taskText := ElementText(todos, index);
      var spliced := SpliceOne(todos, index);
      if 0 <= index < |todos| {
        SpliceInRange(todos, index);
      } else if index >= |todos| {
        SpliceOutOfRange(todos, index);
      }
      if Valid() {
        SpliceKeeps(todos, index, IsAcceptedTask);
      }
      todos := spliced.rest;
      note := Notification("Task deleted: " + taskText, "info");
    }
  }

  /** The count label of `renderTasks`. */
  function CountLabel(n: nat): string
  {
    NatToString(n) + " task" + (if n != 1 then "s" else "")
  }

  /** "1 task" for one task and "N tasks" otherwise, zero included. */
  lemma CountLabelCases(n: nat)
    ensures n == 1 ==> CountLabel(n) == "1 task"
    ensures n != 1 ==> CountLabel(n) == NatToString(n) + " tasks"
  {
  }

  /** A run of digits followed by a non-digit is determined by the whole text. */
  lemma DigitPrefixUnique(a: string, x: string, b: string, y: string)
    requires forall k :: 0 <= k < |a| ==> IsDigit(a[k])
    requires forall k :: 0 <= k < |b| ==> IsDigit(b[k])
    requires x != [] && !IsDigit(x[0]) && y != [] && !IsDigit(y[0])
    requires a + x == b + y
    ensures a == b && x == y
  {
    assert a == (a + x)[..|a|] && b == (b + y)[..|b|];
  }

  /** Different numbers of tasks never show the same label. */
  lemma CountLabelInjective(m: nat, n: nat)
    requires CountLabel(m) == CountLabel(n)
    ensures m == n
  {
    var sm := if m != 1 then "s" else "";
    var sn := if n != 1 then "s" else "";
    assert CountLabel(m) == NatToString(m) + (" task" + sm);
    assert CountLabel(n) == NatToString(n) + (" task" + sn);
    DigitPrefixUnique(NatToString(m), " task" + sm, NatToString(n), " task" + sn);
    NatToStringInjective(m, n);
  }

  /** One rendered task row: its `data-index`, the bold number, and the task text. */
  datatype Row = Row(index: nat, number: string, text: string)

  /** The task list area: the empty-state panel, or one row per task. */
  datatype ListView = EmptyState | Items(rows: seq<Row>)

  /** `this.todos.map((task, index) => ...)`: row `index` shows `${index + 1}.`. */
  function Rows(todos: seq<string>): seq<Row>
  {
    seq(|todos|, i requires 0 <= i < |todos| => Row(i, NatToString(i + 1) + ".", todos[i]))
  }

  function Render(todos: seq<string>): ListView
  {
    if |todos| == 0 then EmptyState else Items(Rows(todos))
  }

  /** The task at index `i` is shown in row `i`, numbered `i + 1` in decimal
      (digits only, no leading zero) followed by a period. */
  lemma RenderNumbering(todos: seq<string>, i: nat)
    requires i < |todos|
    ensures Render(todos).Items? && |Render(todos).rows| == |todos|
    ensures var row := Render(todos).rows[i];
            var num := row.number;
            row.index == i && row.text == todos[i] &&
            |num| >= 2 && num[|num| - 1] == '.' &&
            ParseDecimal(num[..|num| - 1]) == i + 1
    ensures var num := Render(todos).rows[i].number;
            (forall k :: 0 <= k < |num| - 1 ==> IsDigit(num[k])) && num[0] != '0'
  {
    var num := NatToString(i + 1) + ".";
    assert num[..|num| - 1] == NatToString(i + 1);
    ParseNatToString(i + 1);
  }

  /** After deleting task `i`, the rows before it are unchanged and every
      later task moves up one row and is renumbered one lower. */
  lemma RenderAfterDelete(todos: seq<string>, i: nat, k: nat)
    requires i < |todos| && k < |todos| - 1
    ensures var after := Rows(SpliceOne(todos, i).rest);
            |after| == |todos| - 1 &&
            (k < i ==> after[k] == Rows(todos)[k]) &&
            (k >= i ==> after[k].text == todos[k + 1] &&
                        after[k].number == NatToString(k + 1) + ".")
  {
    SpliceInRange(todos, i);
  }

  /** `getNotificationIcon` with its fallback to the info icon. */
  function NotificationIcon(kind: string): (icon: string)
    ensures kind == "success" ==> icon == "check-circle"
    ensures kind == "error" ==> icon == "exclamation-circle"
    ensures kind != "success" && kind != "error" ==> icon == "info-circle"
  {
    if kind == "success" then "check-circle"
    else if kind == "error" then "exclamation-circle"
    else if kind == "info" then "info-circle"
    else "info-circle"
  }

  /** `getNotificationColor` with its fallback to the info colour. */
  function NotificationColor(kind: string): (color: string)
    ensures kind == "success" ==> color == "#28a745"
    ensures kind == "error" ==> color == "#dc3545"
    ensures kind != "success" && kind != "error" ==> color == "#667eea"
  {
    if kind == "success" then "#28a745"
    else if kind == "error" then "#dc3545"
    else if kind == "info" then "#667eea"
    else "#667eea"
  }

  /** Any unknown type is styled exactly like "info", and only "success"
      and "error" get the success and error icon and colour. */
  lemma NotificationFallback(kind: string)
    ensures kind != "success" && kind != "error" ==>
              NotificationIcon(kind) == NotificationIcon("info") &&
              NotificationColor(kind) == NotificationColor("info")
    ensures NotificationIcon(kind) == NotificationIcon("success") ==> kind == "success"
    ensures NotificationIcon(kind) == NotificationIcon("error") ==> kind == "error"
    ensures NotificationColor(kind) == NotificationColor("success") ==> kind == "success"
    ensures NotificationColor(kind) == NotificationColor("error") ==> kind == "error"
  {
  }

  /** A task of exactly 100 characters typed into the box is added; one of
      101 characters is refused and the list stays as it was. */
  method LengthBoundaryScenario() returns (atLimit: Notification, overLimit: Notification, count: nat)
    ensures atLimit.kind == "success" && count == 1
    ensures overLimit == Notification("Task is too long! Maximum 100 characters.", "error")
  {
    var hundred := seq(100, _ => 'a');
    var longer := hundred + ['a'];
    Utf16LengthBmp(hundred);
    TrimOfTrimmed(hundred);
    TrimOfTrimmed(longer);
    var app := new TodoApp([]);
    app.input := hundred;
    atLimit := app.AddTask();
    app.input := longer;
    overLimit := app.AddTask();
    count := |app.todos|;
  }
}
