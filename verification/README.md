# To-do list client: task-list reconciliation and editing state

This project models the client-side logic of a small React to-do list. Every
network call, socket subscription and `localStorage` access is replaced by an
explicit input: each operation takes the already-settled server response it
depends on, as `Ok(value)` or `Failed`. It then returns the new state and the
requests it issued, in order. The model has three parts:

- **The dashboard page** (`DashboardPage`, module `Dashboard`, with the list
  operations in `TaskList`). The local list is a `seq<Task>` keyed by `_id`
  (`id` here). A fetch replaces the list. A create, whether from the form's
  callback or a `taskCreated` push, prepends. An update maps every entry with
  the incoming id to the new value. A delete filters those entries out. The
  status toggle writes "Completed" or "To-Do". Failed or unconfirmed requests
  change nothing. `Dashboard.Run` applies a sequence of delivered events in
  order.
- **The create form** (`TaskForm`, module `TaskForm`). A title that
  ECMAScript's `String.prototype.trim` reduces to `""` is rejected (module
  `JsText`). Otherwise the form posts `{title, dueDate, status: "To-Do",
  priority: "normal"}` with the title untrimmed. The fields are cleared only
  on success.
- **The single-page editor** (`App`, module `App`). Its state is
  `(token, tasks, title, editingTask)`. On mount, a URL token is preferred over
  the stored one. A save updates the edited task or creates a new one; the
  status button writes lower-case "completed" or "in progress"; editing can
  be started and cancelled; and every successful write and every push event
  (signed in) ends in a refetch. The editor never edits its list locally:
  `App.TasksComeFromServer` shows that after any actions its list is the
  one it started with, empty after a mount (one with no token, or whose
  fetch failed), or the list delivered by a GET that one of the actions
  actually issued.

The model follows the code as written:

- A create is a plain prepend with no duplicate check. The page prepends
  the task from the form callback and again from any `taskCreated`
  broadcast. If the broadcast also reaches the client that created the
  task, that client lists it twice (`Dashboard.DoubleDelivery`). Whether the
  server sends it there is outside the client code. A merge that ignored an
  id it already held would avoid the duplicate, but the code does not do
  that.
- The dashboard toggle is an involution only on "Completed" and "To-Do".
  "In Progress" toggled twice becomes "To-Do".
- The dashboard's button label tests for lower-case "completed", a value its
  own toggle never writes. The editor variant uses lower-case statuses
  throughout.
- The toggle writes the server's response over the entries carrying the
  *clicked* task's id, whatever id that response carries.

## Model

| member | source | states |
|---|---|---|
| JsText.Trim | src/components/TaskForm.js:11 | `trim` yields the empty (falsy) string exactly when every character is ECMAScript white space or a line terminator |
| TaskList.Reload | src/pages/DashboardPage.js:33-40 | a successful fetch adopts the server's list verbatim; a failed one leaves the list unchanged |
| TaskList.Prepend | src/pages/DashboardPage.js:42-44 | a create puts the task first, keeps every old entry in order one place later, and raises the count of its id by one |
| TaskList.ReplaceWhere | src/pages/DashboardPage.js:20-23 | an update keeps the length, replaces exactly the entries carrying the id, leaves every other entry in its position, and changes nothing for an absent id |
| TaskList.RemoveWhere | src/pages/DashboardPage.js:25-28 | a delete keeps exactly the entries not carrying the id, shortens the list by the number of entries carrying the id, and changes nothing for an absent id; with `TaskList.RemoveDistributes` this fixes how many copies of each entry survive and in what order |
| TaskList.CreateKeepsUniqueIdsIff | src/pages/DashboardPage.js:15-18 | a prepend keeps ids distinct if and only if they were distinct and the id was not yet present |
| TaskList.DoubleCreateDuplicates | src/pages/DashboardPage.js:42-44 | creating the same task twice lists its id twice more than before, so ids are no longer unique |
| TaskList.UpdateIdempotent | src/pages/DashboardPage.js:21 | applying the same update twice equals applying it once |
| TaskList.UpdateKeepsUniqueIds | src/pages/DashboardPage.js:21 | an update whose value keeps its id preserves id uniqueness |
| TaskList.RemoveDistributes | src/pages/DashboardPage.js:26 | filtering distributes over concatenation, so surviving entries keep their relative order |
| TaskList.RemoveIdempotent | src/pages/DashboardPage.js:50 | after a delete no entry carries the id, and deleting it again changes nothing |
| TaskList.RemoveKeepsUniqueIds | src/pages/DashboardPage.js:26 | a delete never introduces a duplicate id |
| TaskForm.Submit | src/components/TaskForm.js:9-29 | no request exactly for a blank title; otherwise a POST of the untrimmed title and due date with status "To-Do" and priority "normal"; the callback gets the server's task and the fields clear only on success; otherwise the fields are unchanged |
| Dashboard.NextStatus | src/pages/DashboardPage.js:60 | the toggle always changes the status, writes only "To-Do" or "Completed", and writes "To-Do" exactly for "Completed" |
| Dashboard.Toggled | src/pages/DashboardPage.js:58-61 | the PUT body is the task with its status replaced by the toggle's next status ("To-Do" for "Completed", "Completed" otherwise) and nothing else changed |
| Dashboard.HandleDelete | src/pages/DashboardPage.js:46-55 | no request without confirmation; otherwise one DELETE; the list changes (filtered by id) only when confirmed and the DELETE succeeds |
| Dashboard.Step | src/pages/DashboardPage.js:10-69 | each event's effect: fetch sends a GET and replaces; push create prepends, push update maps, push delete filters, and none of them sends a request; typing sets only its own form field and sends nothing; submit sends the form's request and prepends the created task; delete sends a DELETE only when confirmed and filters only on success; toggle PUTs the toggled task and writes the server's answer over the clicked id, or changes nothing on failure |
| Dashboard.SubmitOnPage | src/components/TaskForm.js:11-27 | on the page, a blank submit changes nothing, a successful one prepends the server's task and clears the form, a failed one changes nothing |
| Dashboard.LoadDiscardsHistory | src/pages/DashboardPage.js:35-36 | after any events, a successful fetch leaves exactly the server's list |
| Dashboard.FailuresKeepTasks | src/pages/DashboardPage.js:46-68 | any run of failed, unconfirmed or typing events leaves the list unchanged |
| Dashboard.DoubleDelivery | src/pages/DashboardPage.js:15-18 | a successful form create followed by the broadcast of the same task lists it twice and breaks id uniqueness |
| Dashboard.ToggleTwiceIff | src/pages/DashboardPage.js:57-61 | toggling twice restores the status if and only if it was "Completed" or "To-Do" |
| Dashboard.ToggledTwiceIff | src/pages/DashboardPage.js:58-61 | two toggles give back the whole task if and only if its status was "Completed" or "To-Do" |
| Dashboard.InProgressTwice | src/pages/DashboardPage.js:60 | "In Progress" toggled twice becomes "To-Do" |
| Dashboard.ToggleLabel | src/pages/DashboardPage.js:83 | the button reads "Mark as Incomplete" exactly for lower-case "completed" and "Mark Completed" otherwise |
| Dashboard.LabelAfterToggle | src/pages/DashboardPage.js:83 | the label reads "Mark as Incomplete" exactly for lower-case "completed", so after any toggle it reads "Mark Completed" |
| Dashboard.ToggleUpdatesOnlyThatTask | src/pages/DashboardPage.js:62-64 | a successful toggle keeps the length and replaces only the entries carrying the clicked task's id |
| Dashboard.ToggleScenario | src/pages/DashboardPage.js:57-65 | a "To-Do" task whose toggle the server confirms as "Completed" appears completed in the list |
| Dashboard.DeleteScenario | src/pages/DashboardPage.js:46-51 | deleting "1" from tasks "1", "2" leaves task "2" |
| App.Mount | src/App.js:17-31 | a non-empty URL token wins and is saved; otherwise a non-empty stored token is used; with neither the token stays "", nothing is fetched and the sign-in view shows; with a token the list is fetched with it |
| App.AddOrUpdate | src/App.js:58-76 | a blank title does nothing; with an edited task a PUT of its id carrying only the title, otherwise a POST carrying only the title; on success the title and edit clear and the list is refetched; on failure nothing changes |
| App.NextStatus | src/App.js:163-167 | the button sends "in progress" exactly for "completed" and "completed" otherwise |
| App.StatusLabel | src/App.js:171 | the button reads "Mark In Progress" exactly for "completed" and "Mark Completed" otherwise |
| App.ToggleStatus | src/App.js:78-85 | a PUT of only the next status; on success a refetch; on failure nothing changes |
| App.Delete | src/App.js:87-92 | a DELETE with no prompt; on success a refetch; on failure nothing changes |
| App.StartEditing | src/App.js:94-97 | the task becomes the one edited and its title fills the field; token and list unchanged |
| App.CancelEditing | src/App.js:99-102 | editing ends and the field empties; token and list unchanged |
| App.SignOut | src/App.js:104-108 | the stored token is removed and the sign-in view shows |
| App.ReloadKeepsSession | src/App.js:20-28 | once a mount has found a token, a reload without a URL token finds the same token in storage and fetches with it |
| App.SignOutEndsSession | src/App.js:104-107 | after sign-out, a reload without a URL token shows the sign-in view and fetches nothing |
| App.PushReceived | src/App.js:34-49 | a push event refetches with the current token only when the token is non-empty |
| App.ToggleTwiceIff | src/App.js:163-167 | the status toggled twice is restored if and only if it was "completed" or "in progress" |
| App.LabelMatchesRequest | src/App.js:163-171 | the button reads "Mark In Progress" exactly when the click sends "in progress" |
| App.EditThenSave | src/App.js:58-66 | saving right after Edit PUTs the task's own title under its id and, on success, leaves editing |
| App.CancelUndoesStart | src/App.js:94-102 | starting to edit and then cancelling is the same as cancelling |
| App.Apply | src/App.js:128-178 | typing sets only the title, Edit and Cancel set only the edit and title, and none of them calls the server or touches storage; each button and push goes to its handler; only mount and sign-out change the token or storage; every call of any other action carries the current token |
| App.ApplyTasks | src/App.js:51-56 | one action leaves the list alone, is a mount that leaves it empty, or adopts the list delivered by a GET the action issued as its last call |
| App.TasksComeFromServer | src/App.js:51-56 | after any actions the list is the one it started with, empty after some mount, or the list delivered by a GET that one of the actions, applied to the state the earlier ones left, actually issued |

## Left out

- src/pages/LoginPage.js: it reads a URL parameter, writes `localStorage` and navigates. It has no logic beyond a presence check; the editor's mount carries the same check.
- HTTP transport (the `api` module and axios), the socket.io connection, its subscription and teardown, and `localStorage`. Each response is an input, each request an output, and storage writes are reported as values.
- Concurrency: overlapping in-flight requests and the order their responses arrive in. Events are applied one at a time in a given delivery order. React's stale-closure capture of `title`, `editingTask` and `token` is therefore not modelled.
- `window.confirm`, which is a boolean input, and every toast notification, which are dropped.
- Rendering, styles, and `toLocaleDateString` formatting. The model keeps only the toggle and status button labels and the choice of the sign-in view.
- The dashboard's socket URL and its disconnect on unmount. The mount's `fetchTasks` is the `Loaded` event carrying its response.
- JavaScript strings are UTF-16 code-unit sequences; the model uses Unicode scalar values, so lone surrogates are not represented.
- Task records are fixed to the six fields the client reads or writes. JSON objects with other or missing fields are not modelled, nor a `task.title` that is not a string.
- App.SignOut: the page reload to "/" that follows is not modelled, so the list and title are kept in the state.
