/** The dashboard page (`DashboardPage`): the local task list, the create
    form it hosts, and every event that changes them: the initial fetch,
    the three push events, the form's create callback, delete and the
    status toggle. Each event carries the settled server response it
    depends on; events are applied one at a time in delivery order. */
module Dashboard {
  import opened Wrappers
  import opened JsText
  import opened TaskList
  import opened Api
  import TaskForm

  /** Status values the dashboard's toggle reads and writes. */
  const Completed := "Completed"
  const ToDo := "To-Do"
  const InProgress := "In Progress"

  /** Texts of the toggle button. */
  const MarkIncomplete := "Mark as Incomplete"
  const MarkCompleted := "Mark Completed"

  /** The state of the page: its task list and the form's fields. */
  datatype Page = Page(tasks: seq<Task>, form: TaskForm.Form)

  const Initial := Page([], TaskForm.Empty)

  /** One delivered event. `Loaded` is `fetchTasks`, run on mount: its GET
      and how that settled. `confirmed` is the answer to the delete prompt. */
  datatype Event =
    | Loaded(fetched: Response<seq<Task>>)
    | PushCreated(task: Task)
    | PushUpdated(task: Task)
    | PushDeleted(id: string)
    | TitleTyped(title: string)
    | DueDateTyped(dueDate: string)
    | Submitted(posted: Response<Task>)
    | DeleteClicked(id: string, confirmed: bool, deleted: Response<()>)
    | ToggleClicked(task: Task, put: Response<Task>)

  /** The page after an event and the requests the event sent, in order. */
  datatype Outcome = Outcome(page: Page, requests: seq<Request>)

  /** The status the toggle asks for: "Completed" goes back to "To-Do",
      anything else (including "In Progress") becomes "Completed". */
  function NextStatus(status: string): (r: string)
    ensures r != status
    ensures r == ToDo || r == Completed
    ensures r == ToDo <==> status == Completed
  {
    if status == Completed then ToDo else Completed
  }

  /** The body of the toggle's PUT: the task with only its status changed. */
  function Toggled(t: Task): (r: Task)
    ensures r.status == NextStatus(t.status)
    ensures r == t.(status := r.status)
  {
    t.(status := NextStatus(t.status))
  }

  /** The toggle button's text. It compares against lower-case "completed",
      a value the dashboard's own toggle never writes. */
  function ToggleLabel(status: string): (r: string)
    ensures r == MarkIncomplete || r == MarkCompleted
    ensures r == MarkIncomplete <==> status == "completed"
  {
    if status == "completed" then MarkIncomplete else MarkCompleted
  }

  /** `handleDelete`: nothing without confirmation; otherwise a DELETE, and
      on success the entries carrying `id` are filtered out. */
  function HandleDelete(p: Page, id: string, confirmed: bool, deleted: Response<()>): (r: Outcome)
    ensures r.requests == (if confirmed then [DeleteTask(id)] else [])
    ensures !confirmed || deleted.Failed? ==> r.page == p
    ensures confirmed && deleted.Ok? ==> r.page == p.(tasks := RemoveWhere(p.tasks, id))
  {
    if !confirmed then Outcome(p, [])
    else
      match deleted
      case Ok(_) => Outcome(p.(tasks := RemoveWhere(p.tasks, id)), [DeleteTask(id)])
      case Failed => Outcome(p, [DeleteTask(id)])
  }

  /** The effect of one event on the page. Push events and typing send no
      request; only the fetch, a non-blank submit, a confirmed delete and
      the toggle do. */
  function Step(p: Page, e: Event): (r: Outcome)
    ensures e.Loaded? ==> r.page.tasks == Reload(p.tasks, e.fetched) && r.requests == [GetTasks]
    ensures e.PushCreated? ==> r.page.tasks == Prepend(p.tasks, e.task)
    ensures e.PushUpdated? ==> r.page.tasks == ReplaceWhere(p.tasks, e.task.id, e.task)
    ensures e.PushDeleted? ==> r.page.tasks == RemoveWhere(p.tasks, e.id)
    ensures e.PushCreated? || e.PushUpdated? || e.PushDeleted? || e.TitleTyped? || e.DueDateTyped? ==>
              r.requests == []
    ensures e.TitleTyped? ==> r.page == p.(form := p.form.(title := e.title))
    ensures e.DueDateTyped? ==> r.page == p.(form := p.form.(dueDate := e.dueDate))
    ensures e.Submitted? ==>
              var s := TaskForm.Submit(p.form, e.posted);
              && r.requests == (if s.request.Some? then [s.request.value] else [])
              && r.page.form == s.form
              && r.page.tasks == (if s.created.Some? then Prepend(p.tasks, s.created.value) else p.tasks)
    ensures e.DeleteClicked? ==> r.requests == (if e.confirmed then [DeleteTask(e.id)] else [])
    ensures e.DeleteClicked? && e.confirmed && e.deleted.Ok? ==>
              r.page == p.(tasks := RemoveWhere(p.tasks, e.id))
    ensures e.DeleteClicked? && (!e.confirmed || e.deleted.Failed?) ==> r.page == p
    ensures e.ToggleClicked? ==> r.requests == [PutTask(e.task.id, TaskBody(Toggled(e.task)))]
    ensures e.ToggleClicked? && e.put.Failed? ==> r.page == p
    ensures e.ToggleClicked? && e.put.Ok? ==>
              r.page.tasks == ReplaceWhere(p.tasks, e.task.id, e.put.value)
    ensures !e.TitleTyped? && !e.DueDateTyped? && !e.Submitted? ==> r.page.form == p.form
  {
    match e
    case Loaded(fetched) => Outcome(p.(tasks := Reload(p.tasks, fetched)), [GetTasks])
    case PushCreated(task) => Outcome(p.(tasks := Prepend(p.tasks, task)), [])
    case PushUpdated(task) => Outcome(p.(tasks := ReplaceWhere(p.tasks, task.id, task)), [])
    case PushDeleted(id) => Outcome(p.(tasks := RemoveWhere(p.tasks, id)), [])
    case TitleTyped(title) => Outcome(p.(form := p.form.(title := title)), [])
    case DueDateTyped(dueDate) => Outcome(p.(form := p.form.(dueDate := dueDate)), [])
    case Submitted(posted) =>
      var s := TaskForm.Submit(p.form, posted);
      var tasks := match s.created
        case Some(task) => Prepend(p.tasks, task)
        case None => p.tasks;
      Outcome(Page(tasks, s.form), match s.request case Some(q) => [q] case None => [])
    case DeleteClicked(id, confirmed, deleted) => HandleDelete(p, id, confirmed, deleted)
    case ToggleClicked(task, put) =>
      var request := PutTask(task.id, TaskBody(Toggled(task)));
      match put
      case Ok(server) => Outcome(p.(tasks := ReplaceWhere(p.tasks, task.id, server)), [request])
      case Failed => Outcome(p, [request])
  }

  /** Applies `es` in order, collecting the requests they send. */
  function Run(p: Page, es: seq<Event>): (r: Outcome)
    decreases |es|
  {
    if es == [] then Outcome(p, [])
    else
      var before := Run(p, es[..|es| - 1]);
      var last := Step(before.page, es[|es| - 1]);
      Outcome(last.page, before.requests + last.requests)
  }

  /** Submit within the page: a blank title sends nothing and changes
      nothing; a successful create prepends the server's task and clears
      the form; a failed create leaves both list and form alone. */
  lemma SubmitOnPage(p: Page, posted: Response<Task>)
    ensures IsBlank(p.form.title) ==> Step(p, Submitted(posted)) == Outcome(p, [])
    ensures !IsBlank(p.form.title) && posted.Ok? ==>
              Step(p, Submitted(posted)).page == Page([posted.value] + p.tasks, TaskForm.Empty)
    ensures !IsBlank(p.form.title) && posted.Failed? ==> Step(p, Submitted(posted)).page == p
  {
  }

  /** Replace-all: whatever happened before, a successful fetch leaves
      exactly the server's list. */
  lemma LoadDiscardsHistory(p: Page, es: seq<Event>, server: seq<Task>)
    ensures Run(p, es + [Loaded(Ok(server))]).page.tasks == server
  {
  }

  /** Events that leave the task list as it is: failed or unconfirmed
      requests, failed fetches and typing into the form. */
  predicate KeepsTasks(e: Event) {
    match e
    case Loaded(fetched) => fetched.Failed?
    case Submitted(posted) => posted.Failed?
    case DeleteClicked(_, confirmed, deleted) => !confirmed || deleted.Failed?
    case ToggleClicked(_, put) => put.Failed?
    case TitleTyped(_) => true
    case DueDateTyped(_) => true
    case _ => false
  }

  /** However many such events arrive, the list is what it was. */
  lemma {:induction false} FailuresKeepTasks(p: Page, es: seq<Event>)
    requires forall i :: 0 <= i < |es| ==> KeepsTasks(es[i])
    ensures Run(p, es).page.tasks == p.tasks
    decreases |es|
  {
    if es != [] {
      var init := es[..|es| - 1];
      forall i | 0 <= i < |init| ensures KeepsTasks(init[i]) {
        assert init[i] == es[i];
      }
      FailuresKeepTasks(p, init);
      assert KeepsTasks(es[|es| - 1]);
    }
  }

  /** Two events in a row. */
  lemma RunPair(p: Page, a: Event, b: Event)
    ensures Run(p, [a, b]).page == Step(Step(p, a).page, b).page
  {
    var es := [a, b];
    assert es[..1] == [a];
    assert [a][..0] == [];
    assert Run(p, [a]).page == Step(p, a).page;
  }

  /** A successful form create followed by a push of the same task prepends
      it twice. */
  lemma CreatedThenPushed(p: Page, t: Task)
    requires !IsBlank(p.form.title)
    ensures Run(p, [Submitted(Ok(t)), PushCreated(t)]).page.tasks == Prepend(Prepend(p.tasks, t), t)
  {
    SubmitOnPage(p, Ok(t));
    var p1 := Step(p, Submitted(Ok(t))).page;
    assert p1.tasks == Prepend(p.tasks, t);
    RunPair(p, Submitted(Ok(t)), PushCreated(t));
  }

  /** If the `taskCreated` broadcast also reaches the client that created the
      task, that client lists it twice: once from the form's callback and once
      from the broadcast, and the list no longer has unique ids. */
  lemma DoubleDelivery(p: Page, t: Task)
    requires !IsBlank(p.form.title)
    ensures Run(p, [Submitted(Ok(t)), PushCreated(t)]).page.tasks == [t, t] + p.tasks
    ensures !UniqueIds(Run(p, [Submitted(Ok(t)), PushCreated(t)]).page.tasks)
  {
    CreatedThenPushed(p, t);
    DoubleCreateDuplicates(p.tasks, t);
  }

  /** Toggling twice restores a status exactly when it was one of the two
      values the toggle writes. */
  lemma ToggleTwiceIff(status: string)
    ensures NextStatus(NextStatus(status)) == status <==> status == Completed || status == ToDo
  {
  }

  /** The same for the whole PUT body: two toggles give back the task exactly
      when its status is one the toggle writes. */
  lemma ToggledTwiceIff(t: Task)
    ensures Toggled(Toggled(t)) == t <==> t.status == Completed || t.status == ToDo
  {
    ToggleTwiceIff(t.status);
  }

  /** "In Progress" toggled twice comes back as "To-Do". */
  lemma InProgressTwice()
    ensures NextStatus(NextStatus(InProgress)) == ToDo
    ensures NextStatus(NextStatus(InProgress)) != InProgress
  {
  }

  /** The button offers "Mark as Incomplete" only for lower-case
      "completed", so after any toggle it offers "Mark Completed". */
  lemma LabelAfterToggle(status: string)
    ensures ToggleLabel(status) == MarkIncomplete <==> status == "completed"
    ensures ToggleLabel(NextStatus(status)) == MarkCompleted
  {
  }

  /** A toggle whose PUT succeeds writes the server's task over every entry
      carrying the toggled task's id; other entries stay where they were. */
  lemma ToggleUpdatesOnlyThatTask(p: Page, t: Task, server: Task, i: int)
    requires 0 <= i < |p.tasks|
    ensures |Step(p, ToggleClicked(t, Ok(server))).page.tasks| == |p.tasks|
    ensures Step(p, ToggleClicked(t, Ok(server))).page.tasks[i] ==
              (if p.tasks[i].id == t.id then server else p.tasks[i])
  {
  }

  /** One task "1" in state "To-Do"; the server answers the toggle with the
      task completed, and the list shows the completed task. */
  lemma ToggleScenario(t: Task)
    requires t.id == "1" && t.status == ToDo
    ensures Toggled(t).status == Completed
    ensures Step(Page([t], TaskForm.Empty), ToggleClicked(t, Ok(t.(status := Completed)))).page.tasks
              == [t.(status := Completed)]
  {
  }

  /** Deleting "1" from tasks "1" and "2" leaves task "2". */
  lemma DeleteScenario(a: Task, b: Task)
    requires a.id == "1" && b.id == "2"
    ensures Step(Page([a, b], TaskForm.Empty), DeleteClicked("1", true, Ok(()))).page.tasks == [b]
  {
  }
}
