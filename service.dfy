/**
 * The task service over its repository. The repository's table is the map
 * `rows` from id to row; ids come from an identity counter, as the table's
 * auto-increment key does, and a row the columns do not admit is refused with
 * a data-access failure.
 */
module Service {
  import opened Wrappers
  import opened Model
  import opened Dto
  import opened Mapper
  import opened ExceptionHandling
  import Text

  const NotFoundPrefix := "Task not found with id: "

  function NotFoundMessage(id: int): string
  {
    NotFoundPrefix + Text.IntToString(id)
  }

  /** The not-found message names the id: two ids give the same message only if they are equal. */
  lemma NotFoundMessageNamesId(a: int, b: int)
    ensures NotFoundMessage(a) == NotFoundMessage(b) <==> a == b
  {
    if NotFoundMessage(a) == NotFoundMessage(b) {
      assert NotFoundMessage(a)[|NotFoundPrefix|..] == Text.IntToString(a);
      assert NotFoundMessage(b)[|NotFoundPrefix|..] == Text.IntToString(b);
      Text.IntToStringInjective(a, b);
    }
  }

  // ---------------------------------------------------------------------------
  // Queries: findAll, findByIsCompleted, findByTitleContainingIgnoreCase.

  datatype Query = All | ByStatus(completed: bool) | TitleContaining(fragment: string)

  predicate Matches(q: Query, t: TaskRow)
  {
    match q
    case All => true
    case ByStatus(completed) => t.isCompleted == completed
    case TitleContaining(fragment) => t.title.Some? && Text.ContainsIgnoreCase(t.title.value, fragment)
  }

  /** Every key holds the row with that id. */
  ghost predicate Keyed(rows: map<int, TaskRow>)
  {
    forall id :: id in rows ==> rows[id].todoId == id
  }

  ghost predicate IdsAscending(r: seq<TaskResponse>)
  {
    forall i, j :: 0 <= i < j < |r| ==> r[i].todoId < r[j].todoId
  }

  /**
   * `r` answers query `q` on the table: each entry is the response for a
   * stored row that matches, every matching row has its entry, and the
   * entries come in ascending id order (so none is repeated).
   */
  ghost predicate Answers(r: seq<TaskResponse>, rows: map<int, TaskRow>, q: Query)
  {
    && (forall i :: 0 <= i < |r| ==>
          && r[i].todoId in rows
          && Matches(q, rows[r[i].todoId])
          && r[i] == ToResponse(rows[r[i].todoId]))
    && (forall id :: id in rows && Matches(q, rows[id]) ==> ToResponse(rows[id]) in r)
    && IdsAscending(r)
  }

  /** The matching rows with ids in [lo, hi), mapped to responses, in id order. */
  function Select(rows: map<int, TaskRow>, q: Query, lo: int, hi: int): (r: seq<TaskResponse>)
    requires Keyed(rows)
    ensures forall i :: 0 <= i < |r| ==>
              && lo <= r[i].todoId < hi
              && r[i].todoId in rows
              && Matches(q, rows[r[i].todoId])
              && r[i] == ToResponse(rows[r[i].todoId])
    ensures forall id :: lo <= id < hi && id in rows && Matches(q, rows[id]) ==> ToResponse(rows[id]) in r
    ensures IdsAscending(r)
    decreases hi - lo
  {
    if lo >= hi then []
    else if lo in rows && Matches(q, rows[lo]) then [ToResponse(rows[lo])] + Select(rows, q, lo + 1, hi)
    else Select(rows, q, lo + 1, hi)
  }

  /** Two id-ascending lists with the same entries are the same list. */
  lemma {:induction false} AscendingSameEntriesEqual(a: seq<TaskResponse>, b: seq<TaskResponse>)
    requires IdsAscending(a) && IdsAscending(b)
    requires forall x :: x in a <==> x in b
    ensures a == b
    decreases |a|
  {
    assert |a| > 0 ==> a[0] in b;
    assert |b| > 0 ==> b[0] in a;
    if |a| > 0 && |b| > 0 {
      var k :| 0 <= k < |b| && b[k] == a[0];
      var j :| 0 <= j < |a| && a[j] == b[0];
      assert a[0].todoId <= a[j].todoId;
      assert b[0].todoId <= b[k].todoId;
      assert j == 0;
      forall x
        ensures x in a[1..] <==> x in b[1..]
      {
        assert x in a[1..] <==> x in a && x != a[0];
        assert x in b[1..] <==> x in b && x != b[0];
      }
      AscendingSameEntriesEqual(a[1..], b[1..]);
      assert a == [a[0]] + a[1..] && b == [b[0]] + b[1..];
    }
  }

  /** A query has exactly one answer: the specification determines the list. */
  lemma AnswerIsUnique(r1: seq<TaskResponse>, r2: seq<TaskResponse>, rows: map<int, TaskRow>, q: Query)
    requires Answers(r1, rows, q) && Answers(r2, rows, q)
    ensures r1 == r2
  {
    forall x
      ensures x in r1 <==> x in r2
    {
      if x in r1 {
        var i :| 0 <= i < |r1| && r1[i] == x;
        assert x == ToResponse(rows[r1[i].todoId]);
      }
      if x in r2 {
        var i :| 0 <= i < |r2| && r2[i] == x;
        assert x == ToResponse(rows[r2[i].todoId]);
      }
    }
    AscendingSameEntriesEqual(r1, r2);
  }

  // ---------------------------------------------------------------------------
  // The service.

  class TaskService {
    /** The task table: id to row. */
    var rows: map<int, TaskRow>
    /** The identity column's next value. */
    var nextId: int
    /** The message of the cause the database reports when a row breaks a column definition. */
    const rejection: Option<string>

    ghost predicate Valid()
      reads this
    {
      && nextId >= 1
      && (forall id :: id in rows ==> 1 <= id < nextId)
      && Keyed(rows)
      && (forall id :: id in rows ==> FitsColumns(rows[id]))
    }

    /** A service over an empty table. */
    constructor (rejection: Option<string>)
      ensures Valid() && rows == map[] && this.rejection == rejection
    {
      rows := map[];
      nextId := 1;
      this.rejection := rejection;
    }

    function GetAllTasks(): (r: seq<TaskResponse>)
      reads this
      requires Valid()
      ensures Answers(r, rows, All)
    {
      Select(rows, All, 1, nextId)
    }

    function GetTaskById(id: int): (r: Option<TaskResponse>)
      reads this
      ensures r.Some? <==> id in rows
      ensures r.Some? ==> r.value == ToResponse(rows[id])
    {
      if id in rows then Some(ToResponse(rows[id])) else None
    }

    function GetTaskOrThrow(id: int): (r: Result<TaskResponse, Exception>)
      reads this
      ensures r.Ok? <==> GetTaskById(id).Some?
      ensures r.Ok? ==> r.value == GetTaskById(id).value
      ensures r.Err? ==> r.error == TaskNotFound(NotFoundMessage(id))
    {
      if id in rows then Ok(ToResponse(rows[id])) else Err(TaskNotFound(NotFoundMessage(id)))
    }

    /** No status: every task; a status: exactly the tasks with that status. */
    function FilterTasksByStatus(completed: Option<bool>): (r: seq<TaskResponse>)
      reads this
      requires Valid()
      ensures completed.None? ==> r == GetAllTasks()
      ensures completed.Some? ==> Answers(r, rows, ByStatus(completed.value))
    {
      if completed.None? then Select(rows, All, 1, nextId)
      else Select(rows, ByStatus(completed.value), 1, nextId)
    }

    /** The tasks whose title contains `title`, ignoring case. */
    function SearchTasksByTitle(title: string): (r: seq<TaskResponse>)
      reads this
      requires Valid()
      ensures Answers(r, rows, TitleContaining(title))
    {
      Select(rows, TitleContaining(title), 1, nextId)
    }

    /** findById(id).orElseThrow(...): a fresh entity for the row, or not-found. */
    method GetTaskOrThrowEntity(id: int) returns (r: Result<Task, Exception>)
      ensures r.Ok? <==> id in rows
      ensures r.Ok? ==> fresh(r.value) && r.value.Row() == rows[id]
      ensures r.Err? ==> r.error == TaskNotFound(NotFoundMessage(id))
    {
      if id in rows {
        var task := Load(rows[id]);
        r := Ok(task);
      } else {
        r := Err(TaskNotFound(NotFoundMessage(id)));
      }
    }

    /**
     * repository.save: an entity without an id (0) is inserted under the next
     * identity value; one with an id overwrites that row. A row the columns do
     * not admit is refused and the table stays as it was.
     */
    method Save(task: TaskRow) returns (r: Result<TaskRow, Exception>)
      requires Valid()
      requires task.todoId == 0 || task.todoId in rows
      modifies this
      ensures Valid()
      ensures !FitsColumns(task) ==>
                r == Err(DataAccess(rejection)) && rows == old(rows) && nextId == old(nextId)
      ensures FitsColumns(task) && task.todoId == 0 ==>
                && r == Ok(task.(todoId := old(nextId)))
                && rows == old(rows)[old(nextId) := r.value]
                && nextId == old(nextId) + 1
      ensures FitsColumns(task) && task.todoId != 0 ==>
                r == Ok(task) && rows == old(rows)[task.todoId := task] && nextId == old(nextId)
    {
      if !FitsColumns(task) {
        r := Err(DataAccess(rejection));
      } else if task.todoId == 0 {
        var saved := task.(todoId := nextId);
        rows := rows[nextId := saved];
        nextId := nextId + 1;
        r := Ok(saved);
      } else {
        rows := rows[task.todoId := task];
        r := Ok(task);
      }
    }

    /** Adds one row under an id not used before, with the request's fields and not completed. */
    method CreateTask(request: TaskRequest) returns (r: Result<TaskResponse, Exception>)
      requires Valid()
      modifies this
      ensures Valid()
      ensures FitsColumns(ToEntity(request)) ==>
                && old(nextId) !in old(rows)
                && rows == old(rows)[old(nextId) := ToEntity(request).(todoId := old(nextId))]
                && r == Ok(ToResponse(rows[old(nextId)]))
      ensures !FitsColumns(ToEntity(request)) ==>
                r == Err(DataAccess(rejection)) && rows == old(rows) && nextId == old(nextId)
    {
      var task := ToEntity(request);
      var saved := Save(task);
      if saved.Err? {
        return Err(saved.error);
      }
      r := Ok(ToResponse(saved.value));
    }

    /** Overwrites title, description and due date of one row; its id and status stay. */
    method UpdateTask(id: int, request: TaskRequest) returns (r: Result<TaskResponse, Exception>)
      requires Valid()
      modifies this
      ensures Valid() && nextId == old(nextId)
      ensures id !in old(rows) ==> r == Err(TaskNotFound(NotFoundMessage(id))) && rows == old(rows)
      ensures id in old(rows) ==>
                var updated := TaskRow(id, request.title, request.description,
                                       old(rows)[id].isCompleted, request.dueDate);
                if FitsColumns(updated) then
                  rows == old(rows)[id := updated] && r == Ok(ToResponse(updated))
                else
                  rows == old(rows) && r == Err(DataAccess(rejection))
    {
      var found := GetTaskOrThrowEntity(id);
      if found.Err? {
        return Err(found.error);
      }
      var existing := found.value;
      existing.SetTitle(request.title);
      existing.SetDescription(request.description);
      existing.SetDueDate(request.dueDate);
      var saved := Save(existing.Row());
      if saved.Err? {
        return Err(saved.error);
      }
      r := Ok(ToResponse(saved.value));
    }

    /** Flips the status of one row; nothing else changes. */
    method UpdateStatus(id: int) returns (r: Result<TaskResponse, Exception>)
      requires Valid()
      modifies this
      ensures Valid() && nextId == old(nextId)
      ensures id !in old(rows) ==> r == Err(TaskNotFound(NotFoundMessage(id))) && rows == old(rows)
      ensures id in old(rows) ==>
                && rows == old(rows)[id := old(rows)[id].(isCompleted := !old(rows)[id].isCompleted)]
                && r == Ok(ToResponse(rows[id]))
    {
      var found := GetTaskOrThrowEntity(id);
      if found.Err? {
        return Err(found.error);
      }
      var existing := found.value;
      var newStatus := !existing.isCompleted;
      existing.SetCompleted(newStatus);
      var saved := Save(existing.Row());
      if saved.Err? {
        return Err(saved.error);
      }
      r := Ok(ToResponse(saved.value));
    }

    /** Removes one row; the others stay. */
    method DeleteTask(id: int) returns (r: Result<(), Exception>)
      requires Valid()
      modifies this
      ensures Valid() && nextId == old(nextId)
      ensures id !in old(rows) ==> r == Err(TaskNotFound(NotFoundMessage(id))) && rows == old(rows)
      ensures id in old(rows) ==> r == Ok(()) && rows == old(rows) - {id}
    {
      var found := GetTaskOrThrowEntity(id);
      if found.Err? {
        return Err(found.error);
      }
      var existing := found.value;
      rows := rows - {existing.todoId};
      r := Ok(());
    }
  }

  // ---------------------------------------------------------------------------
  // Properties that span several calls.

  /** Toggling a task's status twice gives back the table it started from. */
  method ToggleTwice(service: TaskService, id: int)
    returns (first: Result<TaskResponse, Exception>, second: Result<TaskResponse, Exception>)
    requires service.Valid()
    modifies service
    ensures service.Valid()
    ensures service.rows == old(service.rows) && service.nextId == old(service.nextId)
    ensures id in old(service.rows) ==>
              && first.Ok? && first.value.completed == !old(service.rows)[id].isCompleted
              && second == Ok(ToResponse(old(service.rows)[id]))
  {
    first := service.UpdateStatus(id);
    second := service.UpdateStatus(id);
  }

  /** Without a status the filter answers the same list as list-all; with one it splits it in two. */
  lemma FilterPartitionsAllTasks(service: TaskService, x: TaskResponse)
    requires service.Valid()
    ensures service.FilterTasksByStatus(None) == service.GetAllTasks()
    ensures x in service.GetAllTasks() <==>
              x in service.FilterTasksByStatus(Some(true)) || x in service.FilterTasksByStatus(Some(false))
  {
    var all := service.GetAllTasks();
    if x in all {
      var i :| 0 <= i < |all| && all[i] == x;
      var row := service.rows[x.todoId];
      assert Matches(ByStatus(row.isCompleted), row);
    }
    if x in service.FilterTasksByStatus(Some(true)) {
      var r := service.FilterTasksByStatus(Some(true));
      var i :| 0 <= i < |r| && r[i] == x;
    }
    if x in service.FilterTasksByStatus(Some(false)) {
      var r := service.FilterTasksByStatus(Some(false));
      var i :| 0 <= i < |r| && r[i] == x;
    }
  }
}
