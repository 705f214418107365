/** The HTTP requests the client issues against the task API. The transport
    is not modelled: an operation reports which requests it made, and the
    caller supplies how each one settled. */
module Api {
  import opened TaskList

  /** The JSON bodies the client sends. */
  datatype Body =
    | TitleBody(title: string)
    | StatusBody(status: string)
    | CreateBody(title: string, dueDate: string, status: string, priority: string)
    | TaskBody(task: Task)

  datatype Request =
    | GetTasks
    | PostTask(body: Body)
    | PutTask(id: string, body: Body)
    | DeleteTask(id: string)

  /** A request together with the token sent as `Authorization: Bearer <token>`. */
  datatype Call = Call(bearer: string, request: Request)
}
