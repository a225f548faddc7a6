/**
 * The persisted Task entity: one row of the task table. The Java class has
 * nullable reference fields, so title, description and dueDate are Options;
 * the columns' NOT NULL and length definitions are `FitsColumns`.
 */
module Model {
  import opened Wrappers
  import opened Calendar

  const TitleColumnLength := 255
  const DescriptionColumnLength := 1000

  /** The value of every field of a Task entity at one moment. */
  datatype TaskRow = TaskRow(
    todoId: int,
    title: Option<string>,
    description: Option<string>,
    isCompleted: bool,
    dueDate: Option<Date>)

  /**
   * What the table's column definitions admit: title NOT NULL VARCHAR(255),
   * description NOT NULL VARCHAR(1000); isCompleted is a primitive boolean and
   * dueDate a nullable column, so neither restricts the row.
   */
  predicate FitsColumns(t: TaskRow)
  {
    && t.title.Some? && |t.title.value| <= TitleColumnLength
    && t.description.Some? && |t.description.value| <= DescriptionColumnLength
  }

  /** The entity object, updated in place through its setters. */
  class Task {
    var todoId: int
    var title: Option<string>
    var description: Option<string>
    var isCompleted: bool
    var dueDate: Option<Date>

    /** The entity's current field values; Java's getters read these fields. */
    function Row(): TaskRow
      reads this
    {
      TaskRow(todoId, title, description, isCompleted, dueDate)
    }

    /** `new Task()`: every field at its Java default. */
    constructor ()
      ensures Row() == TaskRow(0, None, None, false, None)
    {
      todoId, title, description, isCompleted, dueDate := 0, None, None, false, None;
    }

    /** `new Task(title, description)`: not completed, no id yet, no due date. */
    constructor WithText(title: Option<string>, description: Option<string>)
      ensures Row() == TaskRow(0, title, description, false, None)
    {
      this.todoId := 0;
      this.title := title;
      this.description := description;
      this.isCompleted := false;
      this.dueDate := None;
    }

    method SetTodoId(todoId: int)
      modifies this
      ensures Row() == old(Row()).(todoId := todoId)
    {
      this.todoId := todoId;
    }

    method SetTitle(title: Option<string>)
      modifies this
      ensures Row() == old(Row()).(title := title)
    {
      this.title := title;
    }

    method SetDescription(description: Option<string>)
      modifies this
      ensures Row() == old(Row()).(description := description)
    {
      this.description := description;
    }

    method SetCompleted(isCompleted: bool)
      modifies this
      ensures Row() == old(Row()).(isCompleted := isCompleted)
    {
      this.isCompleted := isCompleted;
    }

    method SetDueDate(dueDate: Option<Date>)
      modifies this
      ensures Row() == old(Row()).(dueDate := dueDate)
    {
      this.dueDate := dueDate;
    }
  }

  /**
   * The entity the persistence layer hands out for a stored row: a fresh
   * object built with the no-argument constructor and filled field by field.
   */
  method Load(row: TaskRow) returns (t: Task)
    ensures fresh(t) && t.Row() == row
  {
    t := new Task();
    t.SetTodoId(row.todoId);
    t.SetTitle(row.title);
    t.SetDescription(row.description);
    t.SetCompleted(row.isCompleted);
    t.SetDueDate(row.dueDate);
  }
}
