/** The create form of the dashboard (`TaskForm`): two text fields and a
    submit handler that validates the title, posts a fixed-default payload
    and clears the fields only when the post succeeds. */
module TaskForm {
  import opened Wrappers
  import opened JsText
  import opened TaskList
  import opened Api

  /** The two controlled inputs. */
  datatype Form = Form(title: string, dueDate: string)

  /** The form as first rendered, and as left by a successful create. */
  const Empty := Form("", "")

  /** Status and priority every new task is posted with. */
  const DefaultStatus := "To-Do"
  const DefaultPriority := "normal"

  /** What one submit did: the fields afterwards, the request it sent (none
      when validation stopped it) and the task it handed to `onTaskCreated`. */
  datatype Submission = Submission(form: Form, request: Option<Request>, created: Option<Task>)

  /** `handleSubmit`. `posted` is how the create request settles; it is
      ignored when no request is made. */
  function Submit(f: Form, posted: Response<Task>): (r: Submission)
    ensures r.request.None? <==> IsBlank(f.title)
    ensures r.request.Some? ==> r.request.value.PostTask?
    ensures r.request.Some? ==> r.request.value.body.CreateBody?
    ensures r.request.Some? ==> r.request.value.body.title == f.title
    ensures r.request.Some? ==> r.request.value.body.dueDate == f.dueDate
    ensures r.request.Some? ==> r.request.value.body.status == DefaultStatus
    ensures r.request.Some? ==> r.request.value.body.priority == DefaultPriority
    ensures r.created.Some? <==> !IsBlank(f.title) && posted.Ok?
    ensures r.created.Some? ==> r.created.value == posted.value && r.form == Empty
    ensures r.created.None? ==> r.form == f
  {
    if Trim(f.title) == "" then
      Submission(f, None, None)
    else
      var request := PostTask(CreateBody(f.title, f.dueDate, DefaultStatus, DefaultPriority));
      match posted
      case Ok(task) => Submission(Empty, Some(request), Some(task))
      case Failed => Submission(f, Some(request), None)
  }
}
