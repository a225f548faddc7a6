# Task tracker service: a Dafny model

This project models the core of a small Spring Boot to-do service. The service
stores tasks (id, title, description, completed flag, due date) in one table.
It offers create, read, update, toggle-status, delete, filter-by-status and
title search over REST. Every request body passes Bean Validation first, and a
controller advice turns every failure into a JSON error body.

Modules, one per source component:

- `Wrappers`, `Calendar` (`common.dfy`): `Option` stands for nullable references and `Result` for thrown exceptions. `Date` is `LocalDate`, ordered as `isBefore` orders it.
- `Text` (`text.dfy`): the `String` operations the service depends on. These are `trim`, case-insensitive containment, `replace(target, "")` and `Integer.toString`.
- `Model` (`task.dfy`): the `Task` entity as a class with setters, its field snapshot `TaskRow`, and the table's column constraints `FitsColumns`.
- `Dto` (`dto.dfy`): request and response bodies, plus the request constraints as the predicate `IsValid` and the violation list `Violations`.
- `Mapper` (`mapper.dfy`): `toEntity` and `toResponse`.
- `ExceptionHandling` (`exception_handler.dfy`): the four exception handlers, written as one exhaustive function `Handle` from a failure kind to an error entity.
- `Service` (`service.dfy`): class `TaskService`. It holds the table as `rows: map<int, TaskRow>` and the identity column's next value as `nextId`. Queries are functions over the map. `UpdateTask` and `UpdateStatus` load the entity, change it through its setters and save it. `CreateTask` saves the row built from the request, and `DeleteTask` removes the stored row after checking that it exists.
- `Controller` (`controller.dfy`): class `TaskController`. POST and PUT run the validation gate first; every endpoint delegates to the service and returns a fixed success status. `Respond` sends a failure to `Handle`.

Modelling choices:

- The table's key is an auto-increment identity. `Save` inserts a row whose id is 0 under `nextId` and then increments `nextId`, so ids start at 1 and are never reused. A row with a non-zero id overwrites that row.
- The database enforces the column definitions: title NOT NULL with at most 255 chars, description NOT NULL with at most 1000 chars. `Save` refuses a row that breaks them with a data-access failure and leaves the table unchanged. The database's message for that failure is the service's constructor parameter `rejection`.
- "Today" (the `@FutureOrPresent` clock) and "now" (the error-body timestamp) are parameters.
- `Task.java` declares no `dueDate` field, yet `TaskMapper.java:12,23` and `TaskServiceImpl.java:85` read and write one. The model follows the mapper: the entity carries an optional due date.
- Validation happens only at the controller, through `@Valid`. The service itself accepts any request, and the table's column constraints are all that stops a bad row reaching the store.
- The due-date policy follows `TaskRequest.java`: `@NotNull` and `@FutureOrPresent`, so a task due today is accepted. The controller test that expects 201 for a body without a due date (`TaskControllerTest.java:147-172`) contradicts the annotation. The model follows the annotation.

## Model

| member | source | states |
|---|---|---|
| `Calendar.IsBeforeIsStrictTotalOrder` | src/main/java/com/ray8118/todo_app/dto/TaskRequest.java:24 | date order is irreflexive, asymmetric, transitive and total, so "not before today" means "today or later" |
| `Text.TrimEmptyIff` | src/main/java/com/ray8118/todo_app/dto/TaskRequest.java:14 | `trim()` leaves nothing exactly when every char is at or below U+0020 |
| `Text.ContainsIff` | src/main/java/com/ray8118/todo_app/repository/TaskRepository.java:12 | the containment scan succeeds exactly when the fragment occurs at some position of the title |
| `Text.RemoveAllAbsent` | src/main/java/com/ray8118/todo_app/exception/GlobalExceptionHandler.java:39 | `replace(target, "")` returns a string without the target unchanged |
| `Text.RemoveAllPrefix` | src/main/java/com/ray8118/todo_app/exception/GlobalExceptionHandler.java:39 | a leading target is dropped and the rest is processed alone |
| `Text.NatToStringRoundTrip` | src/main/java/com/ray8118/todo_app/service/TaskServiceImpl.java:141 | reading the decimal digits of a natural number gives back that number |
| `Text.IntToStringInjective` | src/main/java/com/ray8118/todo_app/service/TaskServiceImpl.java:141 | two ints have the same decimal form exactly when they are equal |
| `Model.Task.constructor` | src/main/java/com/ray8118/todo_app/model/Task.java:25 | the no-argument entity has id 0, null texts and due date, and is not completed |
| `Model.Task.WithText` | src/main/java/com/ray8118/todo_app/model/Task.java:27-31 | the two-argument entity has the given title and description, id 0, no due date, and is not completed |
| `Model.Task.SetTodoId` | src/main/java/com/ray8118/todo_app/model/Task.java:37-39 | changes the id to the argument and no other field |
| `Model.Task.SetTitle` | src/main/java/com/ray8118/todo_app/model/Task.java:45-47 | changes the title to the argument and no other field; the getter then returns it |
| `Model.Task.SetDescription` | src/main/java/com/ray8118/todo_app/model/Task.java:53-55 | changes the description to the argument and no other field |
| `Model.Task.SetCompleted` | src/main/java/com/ray8118/todo_app/model/Task.java:61-63 | changes the completed flag to the argument and no other field |
| `Model.Task.SetDueDate` | src/main/java/com/ray8118/todo_app/mapper/TaskMapper.java:12 | changes the due date to the argument and no other field |
| `Model.Load` | src/main/java/com/ray8118/todo_app/service/TaskServiceImpl.java:138 | the entity handed out for a stored row is a fresh object whose fields are that row's |
| `Dto.Violations` | src/main/java/com/ray8118/todo_app/dto/TaskRequest.java:14-25 | every entry is a field error, there are at most six, and the list is empty exactly when the request is valid |
| `Dto.ViolationsReportEachConstraint` | src/main/java/com/ray8118/todo_app/dto/TaskRequest.java:14-25 | each of the six messages is present exactly when its own constraint fails, independently of the others |
| `Dto.BlankIff` | src/main/java/com/ray8118/todo_app/dto/TaskRequest.java:18 | a text fails `@NotBlank` exactly when it is null or made only of chars at or below U+0020 |
| `Dto.WhitespaceTitleIsEmpty` | src/main/java/com/ray8118/todo_app/dto/TaskRequest.java:14 | a null, empty or whitespace-only title yields "Title cannot be empty" |
| `Dto.TitleCanFailTwice` | src/main/java/com/ray8118/todo_app/dto/TaskRequest.java:14-16 | a title of 256 spaces yields both title messages |
| `Dto.DueTodayIsAccepted` | src/main/java/com/ray8118/todo_app/dto/TaskRequest.java:22-25 | a due date equal to today yields neither due-date message |
| `Dto.PastDueIsRejected` | src/main/java/com/ray8118/todo_app/dto/TaskRequest.java:24-25 | a due date before today yields "Due date must be in the future or present" |
| `Mapper.ToEntityObject` | src/main/java/com/ray8118/todo_app/mapper/TaskMapper.java:8-15 | allocating a Task and calling the four setters yields a fresh entity equal to `ToEntity(request)` |
| `Mapper.NewEntityFields` | src/main/java/com/ray8118/todo_app/mapper/TaskMapper.java:9-13 | the new entity has id 0, is not completed, and has the request's title, description and due date |
| `Mapper.ToResponseCopiesEveryField` | src/main/java/com/ray8118/todo_app/mapper/TaskMapper.java:17-24 | the response has the entity's five fields, so two entities share a response exactly when they are equal |
| `Mapper.ResponseOfNewEntity` | src/main/java/com/ray8118/todo_app/mapper/TaskMapper.java:8-24 | the response for a mapped request has id 0, is not completed, and has the request's title, description and due date |
| `Mapper.ValidRequestFitsColumns` | src/main/java/com/ray8118/todo_app/model/Task.java:17-21 | a request that passes validation maps to an entity the NOT NULL and length constraints accept |
| `ExceptionHandling.Handle` | src/main/java/com/ray8118/todo_app/exception/GlobalExceptionHandler.java:24-85 | the body's status and reason phrase equal the status sent. Validation maps to 400, not-found to 404, and data-access and other failures to 500, each in both directions. Messages are "Validation failed", the not-found message unchanged, and the two 500 prefixes with the cause (null as "null"). Only validation carries field errors: one `"<field>: <message>"` entry per error, in order. The path is the description with "uri=" removed |
| `ExceptionHandling.PathOfRequestDescription` | src/main/java/com/ray8118/todo_app/exception/GlobalExceptionHandler.java:54 | the path of description "uri=" + p is p, for any p without "uri=" |
| `ExceptionHandling.EntryIsUnambiguous` | src/main/java/com/ray8118/todo_app/exception/GlobalExceptionHandler.java:28-35 | for labels without ':', two field-error entries are equal exactly when their labels and messages are |
| `Service.NotFoundMessageNamesId` | src/main/java/com/ray8118/todo_app/service/TaskServiceImpl.java:61 | two not-found messages are equal exactly when their ids are |
| `Service.Select` | src/main/java/com/ray8118/todo_app/repository/TaskRepository.java:9-12 | the query answer over ids in [lo, hi) holds exactly the responses of the matching rows, in strictly ascending id order |
| `Service.AscendingSameEntriesEqual` | src/main/java/com/ray8118/todo_app/service/TaskServiceImpl.java:111 | two id-ascending response lists with the same entries are equal |
| `Service.AnswerIsUnique` | src/main/java/com/ray8118/todo_app/service/TaskServiceImpl.java:105-114 | a query has exactly one answer list, so "exactly the matching tasks in id order" determines the result |
| `Service.TaskService.constructor` | src/main/java/com/ray8118/todo_app/service/TaskServiceImpl.java:26-28 | a service over an empty table satisfies the table invariant |
| `Service.TaskService.GetAllTasks` | src/main/java/com/ray8118/todo_app/service/TaskServiceImpl.java:30-39 | the result lists every stored task exactly once, in id order, possibly none |
| `Service.TaskService.GetTaskById` | src/main/java/com/ray8118/todo_app/service/TaskServiceImpl.java:41-53 | present exactly when the id is stored, and then the mapped row |
| `Service.TaskService.GetTaskOrThrow` | src/main/java/com/ray8118/todo_app/service/TaskServiceImpl.java:55-66 | succeeds exactly when `GetTaskById` is present, with the same task; otherwise not-found with "Task not found with id: " + id |
| `Service.TaskService.FilterTasksByStatus` | src/main/java/com/ray8118/todo_app/service/TaskServiceImpl.java:104-114 | no status gives the list-all result; a status gives exactly the tasks with that status, in id order |
| `Service.TaskService.SearchTasksByTitle` | src/main/java/com/ray8118/todo_app/service/TaskServiceImpl.java:116-125 | exactly the tasks whose title contains the fragment under an upper-case fold, in id order |
| `Service.TaskService.GetTaskOrThrowEntity` | src/main/java/com/ray8118/todo_app/service/TaskServiceImpl.java:136-145 | a fresh entity with the stored row's fields exactly when the id is stored; otherwise not-found with the id's message |
| `Service.TaskService.Save` | src/main/java/com/ray8118/todo_app/model/Task.java:13-23 | refuses a row outside the column definitions, leaving the table unchanged. Otherwise it inserts an id-0 row under the next identity value, or overwrites the row with that id, and keeps the table invariant |
| `Service.TaskService.CreateTask` | src/main/java/com/ray8118/todo_app/service/TaskServiceImpl.java:68-76 | adds one row under an id not used before, with the request's fields, not completed, and changes no other row. There is no duplicate-title check. A row the columns refuse gives a data-access failure and no change |
| `Service.TaskService.UpdateTask` | src/main/java/com/ray8118/todo_app/service/TaskServiceImpl.java:78-89 | on a stored id, only title, description and due date change: id, status and the other rows stay. On an absent id it fails not-found before any save, table unchanged |
| `Service.TaskService.UpdateStatus` | src/main/java/com/ray8118/todo_app/service/TaskServiceImpl.java:91-102 | on a stored id, only that row's status is negated. On an absent id it fails not-found, table unchanged |
| `Service.TaskService.DeleteTask` | src/main/java/com/ray8118/todo_app/service/TaskServiceImpl.java:127-134 | on a stored id, exactly that id is removed and the other rows stay. On an absent id it fails not-found, table unchanged |
| `Service.ToggleTwice` | src/main/java/com/ray8118/todo_app/service/TaskServiceImpl.java:93-101 | two toggles leave the table as it was; the first returns the negated status and the second returns the original task |
| `Service.FilterPartitionsAllTasks` | src/main/java/com/ray8118/todo_app/service/TaskServiceImpl.java:105-109 | filter without a status equals list-all, and a task is listed exactly when it is in the "true" or the "false" filter |
| `Controller.Respond` | src/main/java/com/ray8118/todo_app/exception/GlobalExceptionHandler.java:18-19 | a success reply goes out unchanged; a failure goes out as the handler's entity for it |
| `Controller.TaskController.constructor` | src/main/java/com/ray8118/todo_app/controller/TaskController.java:31-34 | the controller delegates to the given service |
| `Controller.TaskController.GetTasks` | src/main/java/com/ray8118/todo_app/controller/TaskController.java:36-42 | 200 with every stored task in id order, possibly none |
| `Controller.TaskController.GetTaskById` | src/main/java/com/ray8118/todo_app/controller/TaskController.java:52-58 | 200 with the stored task exactly when the id is stored; otherwise the not-found failure |
| `Controller.TaskController.SearchTasks` | src/main/java/com/ray8118/todo_app/controller/TaskController.java:60-66 | 200. An absent parameter gives the same answer as GET /tasks; a present one gives exactly the tasks with that status |
| `Controller.TaskController.SearchTasksByTitle` | src/main/java/com/ray8118/todo_app/controller/TaskController.java:68-74 | 200 with exactly the tasks whose title contains the parameter, ignoring case |
| `Controller.TaskController.AddTask` | src/main/java/com/ray8118/todo_app/controller/TaskController.java:44-50 | an invalid body fails validation with its violations and never reaches the service. A valid body always gives 201 with the new task |
| `Controller.TaskController.UpdateTask` | src/main/java/com/ray8118/todo_app/controller/TaskController.java:76-83 | validation runs first, even for an absent id. A valid body then gives 200 with the updated task, or not-found |
| `Controller.TaskController.UpdateStatus` | src/main/java/com/ray8118/todo_app/controller/TaskController.java:85-91 | 200 with the task after its status flips, or not-found with the table unchanged |
| `Controller.TaskController.DeleteTaskById` | src/main/java/com/ray8118/todo_app/controller/TaskController.java:93-99 | 204 with no body and the row removed, or not-found with the table unchanged |
| `Controller.MissingTaskIsNotFound` | src/main/java/com/ray8118/todo_app/controller/TaskController.java:52-58 | GET on an absent id is answered 404 with the id's not-found message and no field errors |
| `Controller.CreateFetchDeleteFetch` | src/main/java/com/ray8118/todo_app/controller/TaskController.java:44-99 | POST of a valid body gives 201 with a new id, not completed, and the body's fields. GET then gives 200 with the same task, DELETE gives 204, and GET again gives 404 |

## Left out

- Logging: the SLF4J calls have no observable effect.
- Persistence mechanics: JPA, Hibernate, `@Transactional` and concurrent requests. Each service call is one atomic step on the map, so a lost update between two concurrent toggles cannot be expressed.
- Database failures other than a column-constraint violation, such as a lost connection: the model's store raises no others. The handler still covers data-access and unexpected failures.
- HTTP routing, path-variable conversion and JSON (de)serialisation, including the `yyyy-MM-dd` date format. In the code, a malformed date reaches the generic handler (500). The controller test at `TaskControllerTest.java:130-144` expects 400 with "Invalid date format", and no handler produces that message.
- `Controller.TaskController.SearchTasksByTitle`: does not model a request without a `title` parameter, because the repository's behaviour for a null fragment is not defined in the code. The parameter is a non-null string.
- `Text.ContainsIgnoreCase`: folds ASCII letters only; database collation and Unicode case mapping are not modelled.
- `Dto.Violations`: lists violations in declaration order. Bean Validation does not fix an order.
- `Dto.Violations`, `Model.FitsColumns`: count Unicode scalar values, whereas Java's `length()` counts UTF-16 code units.
- `Service.TaskService.GetAllTasks`: lists tasks in ascending id order. `findAll` without sorting promises no order.
- `Service.TaskService.FilterTasksByStatus`: lists tasks in ascending id order. The derived query `findByIsCompleted` has no ORDER BY and promises no order.
- `Service.TaskService.SearchTasksByTitle`: lists tasks in ascending id order. The derived query `findByTitleContainingIgnoreCase` has no ORDER BY and promises no order.
- `Controller.TaskController.SearchTasks`, `Controller.TaskController.SearchTasksByTitle`: inherit the ascending id order of the service queries above.
- `Service.TaskService.Save`: the identity counter is unbounded. The 32-bit `int` overflow of `todo_id` is not modelled.
- Timestamps: the error body's `LocalDateTime.now()` is the parameter `now`, carried through unchanged.
- `Task.toString`, the getters and setters of `TaskResponse`, and the `TaskService` interface have no behaviour beyond field access. The getters of `Task` are the class's fields, read directly.
