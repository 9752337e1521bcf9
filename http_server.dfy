/** The HTTP front end (server.js): the `/api/todos` routes acting on one
    in-memory list. A request body's `task` member is given as an option
    (absent or a string); the route parameter of DELETE is given already
    converted to an integer. */
module Http {
  import opened JsString
  import opened JsArray

  datatype Option<T> = None | Some(value: T)

  /** The JSON bodies the routes send. */
  datatype Body =
    | TodoList(todos: seq<string>)
    | Added(message: string, todos: seq<string>)
    | Deleted(message: string, deletedTask: string, todos: seq<string>)
    | Failure(error: string)

  datatype Response = Response(status: int, body: Body)

  /** The guard of the POST route: `!task || task.trim() === ''`. */
  predicate PostRejects(task: Option<string>)
  {
    task.None? || task.value == [] || Trim(task.value) == []
  }

  /** POST is refused exactly for a missing task or one made only of white space. */
  lemma PostRejectsIff(task: Option<string>)
    ensures PostRejects(task) <==> (task.None? || AllSpace(task.value))
  {
    if task.Some? {
      TrimEmptyIff(task.value);
    }
  }

  /** An accepted task is stored as a well-formed task, whatever its length. */
  lemma AcceptedIsStored(task: string)
    requires !PostRejects(Some(task))
    ensures IsTrimmed(Trim(task)) && Trim(Trim(task)) == Trim(task)
  {
    TrimIdempotent(task);
  }

  class TodoServer {
    /** `let todos = []`: the module-level list every route shares. */
    var todos: seq<string>

    /** Every stored task is non-empty, with no white space at either end. */
    ghost predicate Valid()
      reads this
    {
      forall k :: 0 <= k < |todos| ==> IsTrimmed(todos[k])
    }

    constructor ()
      ensures todos == [] && Valid()
    {
      todos := [];
    }

    /** GET /api/todos: the list itself, with status 200; nothing changes. */
    method GetTodos() returns (r: Response)
      ensures r.status == 200 && r.body.TodoList? && r.body.todos == todos
    {
      r := Response(200, TodoList(todos));
    }

    /** POST /api/todos: a missing or blank task is refused with 400 and no
        change; otherwise the trimmed task goes to the end of the list, with
        no maximum length, and the reply carries the updated list. */
    method PostTodo(task: Option<string>) returns (r: Response)
      modifies this
      ensures PostRejects(task) <==> (task.None? || AllSpace(task.value))
      ensures PostRejects(task) ==>
                r == Response(400, Failure("Task cannot be empty")) && todos == old(todos)
      ensures !PostRejects(task) ==>
                todos == old(todos) + [Trim(task.value)] &&
                r == Response(200, Added("Task added successfully", todos))
      ensures old(Valid()) ==> Valid()
    {
      PostRejectsIff(task);
      if PostRejects(task) {
        return Response(400, Failure("Task cannot be empty"));
      }
      var t := Trim(task.value);
      if Valid() {
        AcceptedIsStored(task.value);
        PushKeeps(todos, t, IsTrimmed);
      }
      todos := todos + [t];
      r := Response(200, Added("Task added successfully", todos));
    }

    /** DELETE /api/todos/:index: an index outside the list is refused with
        404 and no change; otherwise the task at that index is removed, the
        later ones move down by one, and the reply names the removed task. */
    method DeleteTodo(index: int) returns (r: Response)
      modifies this
      ensures (index < 0 || index >= |old(todos)|) ==>
                r == Response(404, Failure("Task not found")) && todos == old(todos)
      ensures 0 <= index < |old(todos)| ==>
                todos == old(todos)[..index] + old(todos)[index + 1..] &&
                r == Response(200, Deleted("Task deleted successfully", old(todos)[index], todos))
      ensures old(Valid()) ==> Valid()
    {
      if index < 0 || index >= |todos| {
        return Response(404, Failure("Task not found"));
      }
      SpliceInRange(todos, index);
      var spliced := SpliceOne(todos, index);
      todos := spliced.rest;
      r := Response(200, Deleted("Task deleted successfully", spliced.removed[0], todos));
    }
  }

  /** Two adds and a delete of the first: on a fresh server the list is then
      just the second task, trimmed, and GET reports exactly that. */
  method AddAddDeleteScenario(first: string, second: string) returns (listed: Response)
    requires !PostRejects(Some(first)) && !PostRejects(Some(second))
    ensures listed == Response(200, TodoList([Trim(second)]))
  {
    var a, b := Trim(first), Trim(second);
    var server := new TodoServer();
    var r := server.PostTodo(Some(first));
    assert server.todos == [a];
    r := server.PostTodo(Some(second));
    assert server.todos == [a, b];
    r := server.DeleteTodo(0);
    assert server.todos == [a, b][1..];
    listed := server.GetTodos();
  }
}
