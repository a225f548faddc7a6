/**
 * The REST endpoints: each validates its body (where it has one), delegates
 * to the service and answers with a fixed success status; a failure goes to
 * the exception handler.
 */
module Controller {
  import opened Wrappers
  import opened Calendar
  import opened Model
  import opened Dto
  import opened Mapper
  import opened ExceptionHandling
  import opened Service

  /** The body of a successful answer. */
  datatype Body = One(task: TaskResponse) | Many(tasks: seq<TaskResponse>) | NoBody

  /** ResponseEntity for a successful call. */
  datatype Reply = Reply(body: Body, status: HttpStatus)

  /** What goes back on the wire: a success reply, or the handler's error entity. */
  datatype HttpResponse = Success(reply: Reply) | Problem(entity: ErrorEntity)
  {
    function Status(): HttpStatus
    {
      match this
      case Success(reply) => reply.status
      case Problem(entity) => entity.status
    }
  }

  /**
   * The dispatcher: a reply goes out as it is; a failure is translated by the
   * exception handler, given the request description and the clock reading.
   */
  function Respond(outcome: Result<Reply, Exception>, description: string, now: Timestamp): (h: HttpResponse)
    ensures outcome.Ok? ==> h == Success(outcome.value)
    ensures outcome.Err? ==> h == Problem(Handle(outcome.error, description, now))
  {
    match outcome
    case Ok(reply) => Success(reply)
    case Err(ex) => Problem(Handle(ex, description, now))
  }

  class TaskController {
    const service: TaskService

    ghost predicate Valid()
      reads service
    {
      service.Valid()
    }

    constructor (service: TaskService)
      requires service.Valid()
      ensures this.service == service && Valid()
    {
      this.service := service;
    }

    /** GET /tasks: 200 with every task, possibly none. */
    function GetTasks(): (r: Result<Reply, Exception>)
      reads service
      requires Valid()
      ensures r.Ok? && r.value.status == OK && r.value.body.Many?
      ensures Answers(r.value.body.tasks, service.rows, All)
    {
      Ok(Reply(Many(service.GetAllTasks()), OK))
    }

    /** GET /tasks/{id}: 200 with the task, or the not-found failure. */
    function GetTaskById(id: int): (r: Result<Reply, Exception>)
      reads service
      ensures r.Ok? <==> id in service.rows
      ensures r.Ok? ==> r.value == Reply(One(ToResponse(service.rows[id])), OK)
      ensures r.Err? ==> r.error == TaskNotFound(NotFoundMessage(id))
    {
      match service.GetTaskOrThrow(id)
      case Ok(task) => Ok(Reply(One(task), OK))
      case Err(ex) => Err(ex)
    }

    /** GET /tasks/filter?completed=: the parameter is optional and passed on as it is. */
    function SearchTasks(completed: Option<bool>): (r: Result<Reply, Exception>)
      reads service
      requires Valid()
      ensures r.Ok? && r.value.status == OK && r.value.body.Many?
      ensures completed.None? ==> r == GetTasks()
      ensures completed.Some? ==> Answers(r.value.body.tasks, service.rows, ByStatus(completed.value))
    {
      Ok(Reply(Many(service.FilterTasksByStatus(completed)), OK))
    }

    /** GET /tasks/search?title=: 200 with the tasks whose title contains it, ignoring case. */
    function SearchTasksByTitle(title: string): (r: Result<Reply, Exception>)
      reads service
      requires Valid()
      ensures r.Ok? && r.value.status == OK && r.value.body.Many?
      ensures Answers(r.value.body.tasks, service.rows, TitleContaining(title))
    {
      Ok(Reply(Many(service.SearchTasksByTitle(title)), OK))
    }

    /** POST /tasks: an invalid body never reaches the service; a valid one is created, 201. */
    method AddTask(request: TaskRequest, today: Date) returns (r: Result<Reply, Exception>)
      requires Valid()
      modifies service
      ensures Valid()
      ensures Violations(request, today) != [] ==>
                && r == Err(MethodArgumentNotValid(Violations(request, today)))
                && service.rows == old(service.rows) && service.nextId == old(service.nextId)
      ensures Violations(request, today) == [] ==>
                var id := old(service.nextId);
                && id !in old(service.rows)
                && service.rows == old(service.rows)[id := ToEntity(request).(todoId := id)]
                && r == Ok(Reply(One(ToResponse(service.rows[id])), Created))
    {
      var errors := Violations(request, today);
      if errors != [] {
        return Err(MethodArgumentNotValid(errors));
      }
      ValidRequestFitsColumns(request, today);
      var created := service.CreateTask(request);
      if created.Err? {
        // a validated body always fits the columns, so the insert is never refused
        assert false;
      }
      r := Ok(Reply(One(created.value), Created));
    }

    /** PUT /tasks/{id}: validation first, even for an absent id; then 200 or not-found. */
    method UpdateTask(id: int, request: TaskRequest, today: Date) returns (r: Result<Reply, Exception>)
      requires Valid()
      modifies service
      ensures Valid() && service.nextId == old(service.nextId)
      ensures Violations(request, today) != [] ==>
                r == Err(MethodArgumentNotValid(Violations(request, today))) && service.rows == old(service.rows)
      ensures Violations(request, today) == [] && id !in old(service.rows) ==>
                r == Err(TaskNotFound(NotFoundMessage(id))) && service.rows == old(service.rows)
      ensures Violations(request, today) == [] && id in old(service.rows) ==>
                var updated := TaskRow(id, request.title, request.description,
                                       old(service.rows)[id].isCompleted, request.dueDate);
                && service.rows == old(service.rows)[id := updated]
                && r == Ok(Reply(One(ToResponse(updated)), OK))
    {
      var errors := Violations(request, today);
      if errors != [] {
        return Err(MethodArgumentNotValid(errors));
      }
      var updated := service.UpdateTask(id, request);
      if updated.Err? {
        return Err(updated.error);
      }
      r := Ok(Reply(One(updated.value), OK));
    }

    /** PATCH /tasks/{id}/complete: 200 with the toggled task, or not-found. */
    method UpdateStatus(id: int) returns (r: Result<Reply, Exception>)
      requires Valid()
      modifies service
      ensures Valid() && service.nextId == old(service.nextId)
      ensures id !in old(service.rows) ==>
                r == Err(TaskNotFound(NotFoundMessage(id))) && service.rows == old(service.rows)
      ensures id in old(service.rows) ==>
                && service.rows == old(service.rows)[id := old(service.rows)[id].(isCompleted := !old(service.rows)[id].isCompleted)]
                && r == Ok(Reply(One(ToResponse(service.rows[id])), OK))
    {
      var updated := service.UpdateStatus(id);
      if updated.Err? {
        return Err(updated.error);
      }
      r := Ok(Reply(One(updated.value), OK));
    }

    /** DELETE /tasks/{id}: 204 without a body, or not-found. */
    method DeleteTaskById(id: int) returns (r: Result<Reply, Exception>)
      requires Valid()
      modifies service
      ensures Valid() && service.nextId == old(service.nextId)
      ensures id !in old(service.rows) ==>
                r == Err(TaskNotFound(NotFoundMessage(id))) && service.rows == old(service.rows)
      ensures id in old(service.rows) ==> r == Ok(Reply(NoBody, NoContent)) && service.rows == old(service.rows) - {id}
    {
      var deleted := service.DeleteTask(id);
      if deleted.Err? {
        return Err(deleted.error);
      }
      r := Ok(Reply(NoBody, NoContent));
    }
  }

  /** An absent id is answered 404, with the service's message naming the id. */
  lemma MissingTaskIsNotFound(controller: TaskController, id: int, description: string, now: Timestamp)
    requires id !in controller.service.rows
    ensures Respond(controller.GetTaskById(id), description, now).Status() == NotFound
    ensures Respond(controller.GetTaskById(id), description, now).entity.body.message == NotFoundMessage(id)
    ensures Respond(controller.GetTaskById(id), description, now).entity.body.fieldErrors.None?
  {
  }

  /**
   * The round trip of a valid body: POST answers 201 with a new id and an open
   * task; GET on that id answers 200 with the same task; DELETE answers 204;
   * GET again answers 404.
   */
  method CreateFetchDeleteFetch(controller: TaskController, request: TaskRequest, today: Date,
                                description: string, now: Timestamp)
    returns (created: HttpResponse, fetched: HttpResponse, deleted: HttpResponse, refetched: HttpResponse)
    requires controller.Valid() && IsValid(request, today)
    modifies controller.service
    ensures controller.Valid()
    ensures controller.service.rows == old(controller.service.rows)
    ensures created.Success? && created.Status() == Created && created.reply.body.One?
    ensures created.reply.body.task.todoId !in old(controller.service.rows)
    ensures created.reply.body.task == TaskResponse(created.reply.body.task.todoId, request.title,
                                                    request.description, false, request.dueDate)
    ensures fetched == created.(reply := created.reply.(status := OK))
    ensures deleted == Success(Reply(NoBody, NoContent))
    ensures refetched.Status() == NotFound
  {
    var posted := controller.AddTask(request, today);
    created := Respond(posted, description, now);
    var id := created.reply.body.task.todoId;
    fetched := Respond(controller.GetTaskById(id), description, now);
    var removed := controller.DeleteTaskById(id);
    deleted := Respond(removed, description, now);
    refetched := Respond(controller.GetTaskById(id), description, now);
  }
}
