/** Conversions between the wire shapes and the entity. */
module Mapper {
  import opened Calendar
  import opened Model
  import opened Dto

  /** The field values of the entity built from a request. */
  function ToEntity(request: TaskRequest): TaskRow
  {
    TaskRow(0, request.title, request.description, false, request.dueDate)
  }

  /**
   * toEntity as the source performs it: allocate with the no-argument
   * constructor, then set title, description, due date and completed.
   */
  method ToEntityObject(request: TaskRequest) returns (task: Task)
    ensures fresh(task) && task.Row() == ToEntity(request)
  {
    task := new Task();
    task.SetTitle(request.title);
    task.SetDescription(request.description);
    task.SetDueDate(request.dueDate);
    task.SetCompleted(false);
  }

  function ToResponse(task: TaskRow): TaskResponse
  {
    TaskResponse(task.todoId, task.title, task.description, task.isCompleted, task.dueDate)
  }

  /**
   * A new entity carries no id (the int default 0, for the store to assign),
   * is not completed, and has the request's title, description and due date.
   */
  lemma NewEntityFields(request: TaskRequest)
    ensures ToEntity(request).todoId == 0
    ensures !ToEntity(request).isCompleted
    ensures ToEntity(request).title == request.title
    ensures ToEntity(request).description == request.description
    ensures ToEntity(request).dueDate == request.dueDate
  {
  }

  /** toResponse loses nothing: every entity field reaches the response unchanged. */
  lemma ToResponseCopiesEveryField(a: TaskRow, b: TaskRow)
    ensures ToResponse(a).todoId == a.todoId && ToResponse(a).completed == a.isCompleted
    ensures ToResponse(a).title == a.title && ToResponse(a).description == a.description
    ensures ToResponse(a).dueDate == a.dueDate
    ensures ToResponse(a) == ToResponse(b) <==> a == b
  {
  }

  /** The response for a freshly mapped request: no id yet, not completed, the request's fields. */
  lemma ResponseOfNewEntity(request: TaskRequest)
    ensures ToResponse(ToEntity(request))
            == TaskResponse(0, request.title, request.description, false, request.dueDate)
  {
  }

  /** A request that passes validation maps to an entity the table's columns accept. */
  lemma ValidRequestFitsColumns(request: TaskRequest, today: Date)
    requires IsValid(request, today)
    ensures FitsColumns(ToEntity(request))
  {
  }
}
