/** The single-page editor (`App`): one token, the task list, the title
    field and the task being edited. It never edits its list locally:
    every successful write, and every push event while signed in, is
    followed by a refetch that replaces the list wholesale. Requests that
    fail are not caught, so a failed write leaves the state as it was and
    skips the refetch. */
module App {
  import opened Wrappers
  import opened JsText
  import opened TaskList
  import opened Api

  /** The lower-case status values this variant reads and writes. */
  const Completed := "completed"
  const InProgress := "in progress"

  /** Texts of the status button. */
  const MarkInProgress := "Mark In Progress"
  const MarkCompleted := "Mark Completed"

  datatype State = State(token: string, tasks: seq<Task>, title: string, editing: Option<Task>)

  /** The state before the mount effect has run. */
  const Initial := State("", [], "", None)

  /** What an action does to the token kept in `localStorage`. */
  datatype StorageWrite = Untouched | Saved(token: string) | Removed

  /** The state after an action, the calls it made in order, and its
      effect on the stored token. */
  datatype Step = Step(state: State, calls: seq<Call>, storage: StorageWrite)

  /** JavaScript truthiness of a string that may be `null`. */
  predicate Truthy(o: Option<string>) {
    o.Some? && o.value != ""
  }

  /** With an empty token the page renders only the sign-in view. */
  predicate ShowsLogin(s: State) {
    s.token == ""
  }

  /** The mount effect: the `token` URL parameter wins over the stored
      token, and a URL token is saved. With a token the list is fetched. */
  function Mount(url: Option<string>, stored: Option<string>, fetched: Response<seq<Task>>): (r: Step)
    ensures Truthy(url) ==> r.state.token == url.value && r.storage == Saved(url.value)
    ensures !Truthy(url) && Truthy(stored) ==> r.state.token == stored.value && r.storage == Untouched
    ensures !Truthy(url) && !Truthy(stored) ==> r == Step(Initial, [], Untouched) && ShowsLogin(r.state)
    ensures r.calls == (if ShowsLogin(r.state) then [] else [Call(r.state.token, GetTasks)])
    ensures r.state.tasks == (if ShowsLogin(r.state) then [] else Reload([], fetched))
    ensures r.state.title == "" && r.state.editing == None
  {
    if Truthy(url) then
      Step(Initial.(token := url.value, tasks := Reload([], fetched)),
           [Call(url.value, GetTasks)], Saved(url.value))
    else if Truthy(stored) then
      Step(Initial.(token := stored.value, tasks := Reload([], fetched)),
           [Call(stored.value, GetTasks)], Untouched)
    else
      Step(Initial, [], Untouched)
  }

  /** A write followed, on success, by the refetch every handler ends in.
      `next` is the state the handler's setters leave before the refetch. */
  function WriteThenRefetch(s: State, request: Request, written: Response<()>,
                            next: State, fetched: Response<seq<Task>>): (r: Step)
    ensures |r.calls| > 0 && r.calls[0] == Call(s.token, request) && r.storage == Untouched
    ensures written.Failed? ==> r.state == s && |r.calls| == 1
    ensures written.Ok? ==> r.calls[1..] == [Call(s.token, GetTasks)]
    ensures written.Ok? ==> r.state == next.(tasks := Reload(next.tasks, fetched))
    ensures forall i :: 0 <= i < |r.calls| ==> r.calls[i].bearer == s.token
  {
    match written
    case Failed => Step(s, [Call(s.token, request)], Untouched)
    case Ok(_) =>
      Step(next.(tasks := Reload(next.tasks, fetched)),
           [Call(s.token, request), Call(s.token, GetTasks)], Untouched)
  }

  /** `addOrUpdateTask`: a blank title does nothing; otherwise PUT the title
      of the task being edited, or POST a new task, each carrying only the
      title; on success clear the title and the edit, then refetch. */
  function AddOrUpdate(s: State, written: Response<()>, fetched: Response<seq<Task>>): (r: Step)
    ensures IsBlank(s.title) ==> r == Step(s, [], Untouched)
    ensures !IsBlank(s.title) && s.editing.Some? ==>
              |r.calls| > 0 && r.calls[0] == Call(s.token, PutTask(s.editing.value.id, TitleBody(s.title)))
    ensures !IsBlank(s.title) && s.editing.None? ==>
              |r.calls| > 0 && r.calls[0] == Call(s.token, PostTask(TitleBody(s.title)))
    ensures !IsBlank(s.title) && written.Failed? ==> r.state == s && |r.calls| == 1
    ensures !IsBlank(s.title) && written.Ok? ==>
              r.state == State(s.token, Reload(s.tasks, fetched), "", None)
              && r.calls == r.calls[..1] + [Call(s.token, GetTasks)]
    ensures forall i :: 0 <= i < |r.calls| ==> r.calls[i].bearer == s.token
  {
    if Trim(s.title) == "" then Step(s, [], Untouched)
    else
      match s.editing
      case Some(task) =>
        WriteThenRefetch(s, PutTask(task.id, TitleBody(s.title)), written,
                         s.(editing := None, title := ""), fetched)
      case None =>
        WriteThenRefetch(s, PostTask(TitleBody(s.title)), written, s.(title := ""), fetched)
  }

  /** The status the button asks for: "completed" becomes "in progress",
      anything else becomes "completed". */
  function NextStatus(status: string): (r: string)
    ensures r == Completed || r == InProgress
    ensures r == InProgress <==> status == Completed
  {
    if status == Completed then InProgress else Completed
  }

  /** The status button's text: it offers "in progress" exactly for a
      completed task. */
  function StatusLabel(status: string): (r: string)
    ensures r == MarkInProgress || r == MarkCompleted
    ensures r == MarkInProgress <==> status == Completed
  {
    if status == Completed then MarkInProgress else MarkCompleted
  }

  /** The status button: `updateStatus(task._id, next)` PUTs only the status. */
  function ToggleStatus(s: State, task: Task, written: Response<()>, fetched: Response<seq<Task>>): (r: Step)
    ensures |r.calls| > 0 && r.calls[0] == Call(s.token, PutTask(task.id, StatusBody(NextStatus(task.status))))
    ensures written.Failed? ==> r.state == s && |r.calls| == 1
    ensures written.Ok? ==> r.state == s.(tasks := Reload(s.tasks, fetched))
    ensures written.Ok? ==> r.calls[1..] == [Call(s.token, GetTasks)]
    ensures forall i :: 0 <= i < |r.calls| ==> r.calls[i].bearer == s.token
  {
    WriteThenRefetch(s, PutTask(task.id, StatusBody(NextStatus(task.status))), written, s, fetched)
  }

  /** `deleteTask`: no confirmation prompt in this variant. */
  function Delete(s: State, id: string, written: Response<()>, fetched: Response<seq<Task>>): (r: Step)
    ensures |r.calls| > 0 && r.calls[0] == Call(s.token, DeleteTask(id))
    ensures written.Failed? ==> r.state == s && |r.calls| == 1
    ensures written.Ok? ==> r.state == s.(tasks := Reload(s.tasks, fetched))
    ensures written.Ok? ==> r.calls[1..] == [Call(s.token, GetTasks)]
    ensures forall i :: 0 <= i < |r.calls| ==> r.calls[i].bearer == s.token
  {
    WriteThenRefetch(s, DeleteTask(id), written, s, fetched)
  }

  /** `startEditing`: the task becomes the one edited and its title fills the field. */
  function StartEditing(s: State, task: Task): (r: State)
    ensures r.editing == Some(task) && r.title == task.title
    ensures r.token == s.token && r.tasks == s.tasks
  {
    s.(editing := Some(task), title := task.title)
  }

  /** `cancelEditing`: back to adding, with an empty field. */
  function CancelEditing(s: State): (r: State)
    ensures r.editing == None && r.title == ""
    ensures r.token == s.token && r.tasks == s.tasks
  {
    s.(editing := None, title := "")
  }

  /** `signOut`: the stored token is removed and the sign-in view shows.
      The page reload that follows is not modelled. */
  function SignOut(s: State): (r: Step)
    ensures ShowsLogin(r.state) && r.storage == Removed && r.calls == []
    ensures r.state.tasks == s.tasks
  {
    Step(s.(token := ""), [], Removed)
  }

  /** Any of the three push events: refetch, but only with a token. */
  function PushReceived(s: State, fetched: Response<seq<Task>>): (r: Step)
    ensures ShowsLogin(s) ==> r == Step(s, [], Untouched)
    ensures !ShowsLogin(s) ==> r.calls == [Call(s.token, GetTasks)]
    ensures !ShowsLogin(s) ==> r.state == s.(tasks := Reload(s.tasks, fetched))
    ensures forall i :: 0 <= i < |r.calls| ==> r.calls[i].bearer == s.token
  {
    if s.token == "" then Step(s, [], Untouched)
    else Step(s.(tasks := Reload(s.tasks, fetched)), [Call(s.token, GetTasks)], Untouched)
  }

  /** The value `localStorage` holds for the token after a write. */
  function StoredAfter(stored: Option<string>, w: StorageWrite): Option<string> {
    match w
    case Untouched => stored
    case Saved(token) => Some(token)
    case Removed => None
  }

  /** A session survives a reload: once a mount has found a token, reloading
      without a URL token finds the same token in storage and fetches with it. */
  lemma ReloadKeepsSession(url: Option<string>, stored: Option<string>,
                           fetched: Response<seq<Task>>, refetched: Response<seq<Task>>)
    requires !ShowsLogin(Mount(url, stored, fetched).state)
    ensures var first := Mount(url, stored, fetched);
            var again := Mount(None, StoredAfter(stored, first.storage), refetched);
            again.state.token == first.state.token && again.calls == first.calls
  {
  }

  /** After signing out, reloading without a URL token shows the sign-in view
      and fetches nothing. */
  lemma SignOutEndsSession(s: State, stored: Option<string>, fetched: Response<seq<Task>>)
    ensures var again := Mount(None, StoredAfter(stored, SignOut(s).storage), fetched);
            ShowsLogin(again.state) && again.calls == []
  {
  }

  /** Toggling twice restores a status exactly when it is one of the two
      values the button writes. */
  lemma ToggleTwiceIff(status: string)
    ensures NextStatus(NextStatus(status)) == status <==> status == Completed || status == InProgress
  {
  }

  /** The label announces the status the click will send. */
  lemma LabelMatchesRequest(status: string)
    ensures StatusLabel(status) == MarkInProgress <==> NextStatus(status) == InProgress
    ensures StatusLabel(status) == MarkCompleted <==> NextStatus(status) == Completed
  {
  }

  /** Pressing Edit and then saving without typing PUTs the task's own title
      back and, on success, leaves editing mode. */
  lemma EditThenSave(s: State, task: Task, written: Response<()>, fetched: Response<seq<Task>>)
    requires !IsBlank(task.title)
    ensures AddOrUpdate(StartEditing(s, task), written, fetched).calls[0]
              == Call(s.token, PutTask(task.id, TitleBody(task.title)))
    ensures written.Ok? ==> AddOrUpdate(StartEditing(s, task), written, fetched).state.editing == None
  {
  }

  /** Cancelling forgets whatever editing began. */
  lemma CancelUndoesStart(s: State, task: Task)
    ensures CancelEditing(StartEditing(s, task)) == CancelEditing(s)
  {
  }

  /** One user action or push event, with the responses it depends on. */
  datatype Event =
    | Mounted(url: Option<string>, stored: Option<string>, fetched: Response<seq<Task>>)
    | TitleTyped(title: string)
    | SavePressed(written: Response<()>, fetched: Response<seq<Task>>)
    | StatusPressed(task: Task, written: Response<()>, fetched: Response<seq<Task>>)
    | DeletePressed(id: string, written: Response<()>, fetched: Response<seq<Task>>)
    | EditPressed(task: Task)
    | CancelPressed
    | SignedOut
    | Pushed(fetched: Response<seq<Task>>)

  /** The wiring of the page: typing, Edit and Cancel change only the fields
      they set and call nothing; the buttons and push events go to their
      handlers; only a mount or a sign-out touches the token or storage. */
  function Apply(s: State, e: Event): (r: Step)
    ensures e.TitleTyped? ==> r == Step(s.(title := e.title), [], Untouched)
    ensures e.EditPressed? ==> r == Step(s.(editing := Some(e.task), title := e.task.title), [], Untouched)
    ensures e.CancelPressed? ==> r == Step(s.(editing := None, title := ""), [], Untouched)
    ensures e.Mounted? ==> r == Mount(e.url, e.stored, e.fetched)
    ensures e.SavePressed? ==> r == AddOrUpdate(s, e.written, e.fetched)
    ensures e.StatusPressed? ==> r == ToggleStatus(s, e.task, e.written, e.fetched)
    ensures e.DeletePressed? ==> r == Delete(s, e.id, e.written, e.fetched)
    ensures e.SignedOut? ==> r == SignOut(s)
    ensures e.Pushed? ==> r == PushReceived(s, e.fetched)
    ensures !e.Mounted? && !e.SignedOut? ==> r.state.token == s.token && r.storage == Untouched
    ensures !e.Mounted? ==> forall i :: 0 <= i < |r.calls| ==> r.calls[i].bearer == s.token
  {
    match e
    case Mounted(url, stored, fetched) => Mount(url, stored, fetched)
    case TitleTyped(title) => Step(s.(title := title), [], Untouched)
    case SavePressed(written, fetched) => AddOrUpdate(s, written, fetched)
    case StatusPressed(task, written, fetched) => ToggleStatus(s, task, written, fetched)
    case DeletePressed(id, written, fetched) => Delete(s, id, written, fetched)
    case EditPressed(task) => Step(StartEditing(s, task), [], Untouched)
    case CancelPressed => Step(CancelEditing(s), [], Untouched)
    case SignedOut => SignOut(s)
    case Pushed(fetched) => PushReceived(s, fetched)
  }

  /** The state after applying `es` in order. */
  function Run(s: State, es: seq<Event>): State
    decreases |es|
  {
    if es == [] then s else Run(Apply(s, es[0]).state, es[1..])
  }

  /** The fetch response `e` carries, whether or not the action gets as far
      as issuing the GET it belongs to. */
  function Carried(e: Event): Response<seq<Task>> {
    match e
    case Mounted(_, _, fetched) => fetched
    case SavePressed(_, fetched) => fetched
    case StatusPressed(_, _, fetched) => fetched
    case DeletePressed(_, _, fetched) => fetched
    case Pushed(fetched) => fetched
    case _ => Failed
  }

  /** The list delivered by a GET that `e`, applied to `s`, actually issued
      as its last call, when that GET succeeded. */
  function Delivered(s: State, e: Event): Option<seq<Task>> {
    var calls := Apply(s, e).calls;
    if |calls| > 0 && calls[|calls| - 1].request == GetTasks && Carried(e).Ok?
    then Some(Carried(e).value) else None
  }

  /** Some event of `es`, applied to the state the events before it left,
      issued a GET that delivered exactly `ts`. */
  predicate FromServer(s: State, es: seq<Event>, ts: seq<Task>) {
    exists i :: 0 <= i < |es| && Delivered(Run(s, es[..i]), es[i]) == Some(ts)
  }

  /** Some event of `es` is a mount. */
  predicate Mounts(es: seq<Event>) {
    exists i :: 0 <= i < |es| && es[i].Mounted?
  }

  /** One event either leaves the list alone, is a mount that empties it, or
      adopts the list a GET it issued delivered. */
  lemma ApplyTasks(s: State, e: Event)
    ensures var ts := Apply(s, e).state.tasks;
            ts == s.tasks || (e.Mounted? && ts == []) || Delivered(s, e) == Some(ts)
  {
  }

  /** A GET issued after the first event is still issued within the whole run. */
  lemma FromServerLater(s: State, es: seq<Event>, ts: seq<Task>)
    requires es != [] && FromServer(Apply(s, es[0]).state, es[1..], ts)
    ensures FromServer(s, es, ts)
  {
    var s1 := Apply(s, es[0]).state;
    var i :| 0 <= i < |es[1..]| && Delivered(Run(s1, es[1..][..i]), es[1..][i]) == Some(ts);
    assert es[..i + 1][0] == es[0] && es[..i + 1][1..] == es[1..][..i];
    assert Run(s, es[..i + 1]) == Run(s1, es[1..][..i]);
    assert Delivered(Run(s, es[..i + 1]), es[i + 1]) == Some(ts);
  }

  /** A GET issued by the first event is one issued within the run. */
  lemma FromServerFirst(s: State, es: seq<Event>, ts: seq<Task>)
    requires es != [] && Delivered(s, es[0]) == Some(ts)
    ensures FromServer(s, es, ts)
  {
    assert es[..0] == [];
    assert Delivered(Run(s, es[..0]), es[0]) == Some(ts);
  }

  /** The editor never composes a list of its own: after any events, its list
      is the one it started with, empty after a mount, or the list some GET
      issued along the way delivered. */
  lemma {:induction false} TasksComeFromServer(s: State, es: seq<Event>)
    ensures var ts := Run(s, es).tasks;
            ts == s.tasks || (Mounts(es) && ts == []) || FromServer(s, es, ts)
    decreases |es|
  {
    if es != [] {
      var s1 := Apply(s, es[0]).state;
      ApplyTasks(s, es[0]);
      TasksComeFromServer(s1, es[1..]);
      var ts := Run(s1, es[1..]).tasks;
      if FromServer(s1, es[1..], ts) {
        FromServerLater(s, es, ts);
      } else if Mounts(es[1..]) && ts == [] {
        var i :| 0 <= i < |es[1..]| && es[1..][i].Mounted?;
        assert es[i + 1].Mounted?;
      } else if ts == s1.tasks && s1.tasks != s.tasks && !(es[0].Mounted? && ts == []) {
        FromServerFirst(s, es, ts);
      }
    }
  }
}
