# todoJS: a todo list with three front ends, modelled in Dafny

The repository keeps one ordered list of task strings in three near-duplicate
front ends. This project models each front end's list operations and the
JavaScript built-ins they rely on:

- `JsString` (js_string.dfy): `String.prototype.trim` over the ECMAScript
  white-space set, JavaScript's `length` in UTF-16 code units, and the decimal
  text `${n}` produces for a non-negative integer.
- `JsArray` (js_array.dfy): `Array.prototype.splice(start, 1)` with the
  ECMAScript treatment of negative and past-the-end start positions.
- `Browser` (browser_app.dfy, app.js): class `TodoApp` with the list and the
  input box text; `AddTask` (trim, reject empty, reject more than 100 code
  units, append), `DeleteTask` (splice without a bounds check); the count
  label, the numbered rows of `renderTasks`, and the notification icon and
  colour lookups.
- `Http` (http_server.dfy, server.js): class `TodoServer` with the shared
  list; GET, POST and DELETE on `/api/todos`, each returning a status code and
  a JSON body as a datatype.
- `Terminal` (terminal_menu.dfy, TodoList.js): class `TodoConsole`;
  `HandleInput` for one menu choice, `PrintTasks` for the listing loop, and
  `Run` for the re-prompting menu, each tied to the pure `Respond`, `Listing`
  and `Session` functions; `Launch` for the whole program, which prints the
  menu once before the first entry.

Each state-changing method states its whole new state (list, input box, open
flag) and its reply in terms of the old state. Invariants are kept beside
them: the server stores only non-empty trimmed tasks, and the browser stores
only non-empty trimmed tasks of at most 100 code units once it starts from
such a list. Lemmas about the pure functions cover the rest: what trim
removes, the iff between "trims to empty" and "all white space", how splice
shifts positions, how rows are numbered and renumbered, the label's
injectivity, and the terminal session's order, prefix and exit behaviour.

Behaviour of the code worth knowing:

- Only app.js caps a task at 100 characters. server.js appends any
  non-blank task, and TodoList.js appends the raw line, even an empty one.
- No add operation returns the new task's position: the server replies with
  the whole list and the browser returns nothing.
- app.js `deleteTask` has no bounds check. Through `splice`, a negative
  index removes a task counted from the end, while its notification reads
  `todos[index]` and so says "undefined". The page only ever passes
  rendered indices, so its own buttons never take this path.
- The browser does not validate the list it hydrates from storage. So "no
  blank task in the list" is proved as an invariant that `AddTask` and
  `DeleteTask` preserve, not as a fact about every state.
- The terminal prints the menu once at start-up (`Launch`) and again after
  every option except "exit".

## Model

| member | source | states |
|---|---|---|
| JsString.TrimStart | app.js:37 | everything dropped from the front is white space, and the result does not start with white space |
| JsString.TrimEnd | app.js:37 | the result is a prefix of the input, everything dropped from the end is white space, and the result does not end with white space |
| JsString.Trim | app.js:37 | `trim()` is `TrimEnd(TrimStart(s))`: never longer than the input, and either empty or non-empty with no white space at either end |
| JsString.TrimStartCut | app.js:37 | `TrimStart` cuts off an all-white prefix and returns exactly the rest of the input |
| JsString.TrimEndCut | app.js:37 | `TrimEnd` cuts off an all-white suffix and returns exactly the part before it |
| JsString.TrimIsInfix | server.js:27 | `trim` returns a contiguous part of the input, with only white space cut off on either side, and with no white space at either end |
| JsString.TrimCuts | server.js:27 | gives the two positions where `trim` cuts: `trim(s) == s[i..j]`, with `s[..i]` and `s[j..]` all white space |
| JsString.TrimEmptyIff | server.js:27 | `task.trim() === ''` holds exactly when every character of the task is white space |
| JsString.TrimOfTrimmed | server.js:31 | a text with non-white first and last characters is unchanged by `trim` |
| JsString.TrimmedIff | server.js:31 | a task is trimmed (non-empty, no white space at either end) exactly when it is non-empty and `trim` leaves it unchanged |
| JsString.TrimIdempotent | server.js:31 | trimming a trimmed task changes nothing, so stored tasks are already trimmed |
| JsString.Utf16Length | app.js:44 | `length` lies between the number of code points and twice that |
| JsString.Utf16LengthBmp | app.js:44 | `length` equals the number of code points for text in the Basic Multilingual Plane |
| JsString.NatToString | app.js:78 | the decimal text of a count is non-empty, all digits, and has no leading zero unless the count is 0 |
| JsString.ParseNatToString | TodoList.js:30 | reading the printed number back gives the number |
| JsString.NatToStringInjective | app.js:94 | different numbers print differently |
| JsArray.ActualStart | app.js:70 | splice's start is the index itself in range, counts from the end when negative, and is clamped to `[0, length]` |
| JsArray.SpliceOne | app.js:70 | `splice(start, 1)` removes exactly the element at `ActualStart` and leaves `s[..k] + s[k+1..]`, or removes nothing when that position is the end; the removed part with the rest is a permutation of the old array; nothing is removed exactly when start is past the end or the array is empty |
| JsArray.SpliceInRange | server.js:41 | for `0 <= i < length`, splice removes exactly `s[i]`, leaves `s[..i] + s[i+1..]`, keeps earlier positions and shifts later ones down by one |
| JsArray.SpliceNegative | app.js:70 | a negative index within the array removes the element counted from the end |
| JsArray.SpliceOutOfRange | app.js:70 | an index at or past the end leaves the array unchanged and removes nothing |
| JsArray.SpliceBeforeStart | app.js:70 | a negative index before the start of a non-empty array is clamped to 0 and removes the first element |
| JsArray.SpliceRestFrom | app.js:70 | splice only removes: every element left behind was in the old array |
| JsArray.SpliceKeeps | app.js:70 | a property every element has still holds of every element once `splice` has run; the browser uses it to keep its tasks accepted |
| JsArray.PushKeeps | app.js:50 | `push` of an element with a property onto an array whose elements all have it gives such an array; the browser and the server use it to keep their tasks accepted or trimmed |
| Browser.ElementText | app.js:69 | `todos[index]` is that task in range and "undefined" otherwise |
| Browser.AcceptedIffTrimmed | app.js:37-50 | a task `addTask` would store is exactly a non-empty text that `trim` leaves unchanged and that is at most 100 code units long |
| Browser.TodoApp.constructor | app.js:4-5 | the app starts from the stored list, with an empty input box |
| Browser.TodoApp.AddTask | app.js:36-66 | empty trimmed input: list and box unchanged, "Please enter a task!" error; trimmed length over 100: unchanged, "too long" error; otherwise the trimmed text is appended at the end, the box is cleared, and "Task Added" success is reported; the accepted-task invariant is preserved |
| Browser.TodoApp.DeleteTask | app.js:68-74 | the new list is `splice(index, 1)` of the old one, which in range is `old[..index] + old[index+1..]` and past the end is the old list; the info notification quotes `todos[index]`; the invariant is preserved |
| Browser.CountLabel | app.js:78 | the label `${n} task${n !== 1 ? 's' : ''}`; its meaning is stated by `CountLabelCases` and `CountLabelInjective` |
| Browser.CountLabelCases | app.js:78 | the label is "1 task" for one task and "N tasks" for every other N, including 0 |
| Browser.CountLabelInjective | app.js:78 | different task counts never produce the same label |
| Browser.Rows | app.js:91-102 | the `map` over the tasks: one row per task with its index, its number and its text, characterised by `RenderNumbering` and `RenderAfterDelete` |
| Browser.Render | app.js:80-102 | the empty-state panel for an empty list, the rows otherwise, characterised by `RenderNumbering` |
| Browser.RenderNumbering | app.js:80-94 | a non-empty list renders one row per task; row i has data-index i and the task text, and its number is digits with no leading zero that read back as i+1, followed by "." |
| Browser.RenderAfterDelete | app.js:70-94 | after deleting task i, earlier rows are unchanged and each later task moves up one row with its number lowered by one |
| Browser.NotificationIcon | app.js:149-156 | success, error and info map to their icons, and every other type falls back to the info icon |
| Browser.NotificationColor | app.js:158-165 | success, error and info map to their colours, and every other type falls back to the info colour |
| Browser.NotificationFallback | app.js:149-165 | an unknown type is styled exactly like info, and only "success" gets the success icon and only "error" the error colour |
| Browser.LengthBoundaryScenario | app.js:44-50 | a task of exactly 100 characters is added, and one of 101 is refused with the "too long" error |
| Http.PostRejectsIff | server.js:27-29 | POST is refused exactly when the task is missing or entirely white space |
| Http.AcceptedIsStored | server.js:31 | an accepted task is stored non-empty and trimmed, whatever its length |
| Http.PostRejects | server.js:27 | the guard of the POST route: the task is missing, empty, or trims to empty; `PostRejectsIff` states that it holds exactly for a missing or all-white task |
| Http.TodoServer.constructor | server.js:18 | the server starts with an empty list |
| Http.TodoServer.GetTodos | server.js:21-23 | GET answers 200 with exactly the current list and changes nothing |
| Http.TodoServer.PostTodo | server.js:25-33 | missing, empty or blank task: 400 "Task cannot be empty" and no change; otherwise `trim(task)` is appended, with no length cap, and the 200 reply's `todos` is the updated list; the stored-task invariant is preserved |
| Http.TodoServer.DeleteTodo | server.js:35-43 | index < 0 or ≥ length: 404 "Task not found" and no change; otherwise the list becomes `old[..index] + old[index+1..]` and the 200 reply carries `deletedTask == old[index]` and the new list; the invariant is preserved |
| Http.AddAddDeleteScenario | server.js:25-43 | for any two tasks the POST route accepts, POST a, POST b, DELETE 0 on a fresh server leaves exactly `[trim(b)]`, which GET reports with 200 |
| Terminal.Listing | TodoList.js:29-31 | the view lists one line per task, in list order, line i being `"<i+1>. <task>"` |
| Terminal.Respond | TodoList.js:18-43 | `handleInput` for one entry, with the menu that follows it; its meaning is stated by `RespondCases` |
| Terminal.RespondCases | TodoList.js:18-43 | only option 1 changes the list, and it appends the typed text unchanged; only option 3 stops prompting; every other option ends by showing the menu again |
| Terminal.TasksOf | TodoList.js:20-21 | the tasks typed, one per entry, in entry order |
| Terminal.Session | TodoList.js:10-43 | the menu re-prompting over the entries typed until one chooses exit; its meaning is stated by `SessionAddsInOrder`, `SessionOpenIff`, `SessionStopsAtExit` and `SessionKeepsPrefix` |
| Terminal.SessionAddsInOrder | TodoList.js:19-23 | a run of adds leaves the old list followed by the typed tasks in call order, with the menu still open |
| Terminal.SessionOpenIff | TodoList.js:34-37 | the menu keeps prompting after a run exactly when no entry chose option 3 |
| Terminal.SessionStopsAtExit | TodoList.js:34-37 | entries after an exit have no effect on list or output |
| Terminal.SessionKeepsPrefix | TodoList.js:18-43 | the terminal never removes or reorders existing tasks: the old list stays a prefix |
| Terminal.TodoConsole.constructor | TodoList.js:8 | the terminal starts with an empty list and an open prompt |
| Terminal.TodoConsole.PrintTasks | TodoList.js:29-31 | the `forEach` loop prints exactly the listing of the current list |
| Terminal.TodoConsole.HandleInput | TodoList.js:18-43 | one menu choice changes the list, the printed lines and the open flag exactly as the menu's response to that choice says |
| Terminal.TodoConsole.Run | TodoList.js:10-16 | the re-prompting loop ends in exactly the list, transcript and open flag of the whole session over the entries |
| Terminal.ContinueStep | TodoList.js:10-16 | resuming the menu over the remaining entries is handling the next entry and then resuming after it |
| Terminal.Launch | TodoList.js:8-45 | the whole program starts from an empty list, prints the menu once at start-up and then the session transcript, and ends with the session's list and open flag |

## Left out

- DOM work in app.js is not modelled: element lookup, event listeners,
  focus and blur styling, the HTML markup of rows and the empty state,
  keyframe styles, notification elements and their timers. Rendering is the
  pure `Render` of the list, and a notification is the (message, type) pair
  it would show.
- `escapeHtml` is not modelled: it delegates to the DOM. Row text is the
  task before escaping.
- Storage is not modelled: no `localStorage` or JSON encoding and decoding.
  The browser starts from an arbitrary list.
- The keyboard shortcuts (Enter, Ctrl/Cmd+Enter, Escape) are not modelled.
  They are DOM event handlers that call `addTask` or clear the input box.
- Express plumbing is not modelled: setup, JSON body parsing, static files,
  `sendFile` on `/`, and `listen`. Concurrent requests are not modelled
  either. Each route runs to completion on the shared list.
- Http.TodoServer.PostTodo: a `task` that is present but not a string is
  not modelled. In the source a falsy one (`null`, `0`, `false`) gets the
  same 400 as a missing task, and any other (a non-zero number, `true`, an
  object, an array) makes `task.trim` throw.
- Http.TodoServer.DeleteTodo: `parseInt` is not modelled, and the index is
  an integer. A non-numeric parameter gives NaN in the source, passes the
  bounds check and makes `splice` act on position 0. That path is out of
  scope.
- Terminal: readline I/O and its prompts ("Choose an option: ", "Enter your
  task: ") are not modelled; `rl.close()` is the `open` flag becoming
  false, after which no entry is handled. The option arrives as a decoded
  integer, so JavaScript's loose `option == 1` on the typed string (for
  example " 1") is not modelled.
- JsString.IsSpace uses the ECMAScript white-space and line-terminator code
  points, with the space separators of current Unicode. Lone UTF-16
  surrogates are not representable, because a Dafny `char` is a Unicode
  scalar value.
- Browser.NotificationIcon and Browser.NotificationColor: type names that
  hit `Object.prototype` members (such as "toString") are not modelled. In
  the source they return an inherited function instead of the fallback.
