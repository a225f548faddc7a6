/**
 * The wire shapes: the request body with its Bean Validation constraints, the
 * response body, and the (field, message) errors validation reports.
 */
module Dto {
  import opened Wrappers
  import opened Calendar
  import Text

  /** The body of POST /tasks and PUT /tasks/{id}; every field may be absent. */
  datatype TaskRequest = TaskRequest(
    title: Option<string>,
    description: Option<string>,
    dueDate: Option<Date>)

  /** What every endpoint returns for a task. */
  datatype TaskResponse = TaskResponse(
    todoId: int,
    title: Option<string>,
    description: Option<string>,
    completed: bool,
    dueDate: Option<Date>)

  /** An entry of a validation binding result: about one field, or about the whole object. */
  datatype ObjectError =
    | FieldError(field: string, message: string)
    | GlobalError(objectName: string, message: string)

  const TitleEmpty := "Title cannot be empty"
  const TitleTooLong := "Title cannot be more than 255 characters"
  const DescriptionEmpty := "Description cannot be empty"
  const DescriptionTooLong := "Description cannot be more than 1000 characters"
  const DueDateNull := "Due date cannot be null"
  const DueDatePast := "Due date must be in the future or present"

  const MaxTitleLength := 255
  const MaxDescriptionLength := 1000

  /** @NotBlank: not null, and something is left after String.trim(). */
  predicate NotBlank(s: Option<string>)
  {
    s.Some? && Text.Trim(s.value) != []
  }

  /** @Size(max): null is accepted; otherwise at most `max` chars. */
  predicate SizeAtMost(s: Option<string>, max: nat)
  {
    s.None? || |s.value| <= max
  }

  /** @FutureOrPresent against the validator's clock: null is accepted; today is. */
  predicate FutureOrPresent(d: Option<Date>, today: Date)
  {
    d.None? || !IsBefore(d.value, today)
  }

  /** Every constraint on the request holds. */
  predicate IsValid(r: TaskRequest, today: Date)
  {
    && NotBlank(r.title) && SizeAtMost(r.title, MaxTitleLength)
    && NotBlank(r.description) && SizeAtMost(r.description, MaxDescriptionLength)
    && r.dueDate.Some? && FutureOrPresent(r.dueDate, today)
  }

  function Check(holds: bool, field: string, message: string): seq<ObjectError>
  {
    if holds then [] else [FieldError(field, message)]
  }

  /**
   * One entry per failed constraint, in the order the constraints are declared;
   * the request is valid exactly when there is none.
   */
  function Violations(r: TaskRequest, today: Date): (vs: seq<ObjectError>)
    ensures |vs| <= 6
    ensures forall e :: e in vs ==> e.FieldError?
    ensures vs == [] <==> IsValid(r, today)
  {
    Check(NotBlank(r.title), "title", TitleEmpty)
    + Check(SizeAtMost(r.title, MaxTitleLength), "title", TitleTooLong)
    + Check(NotBlank(r.description), "description", DescriptionEmpty)
    + Check(SizeAtMost(r.description, MaxDescriptionLength), "description", DescriptionTooLong)
    + Check(r.dueDate.Some?, "dueDate", DueDateNull)
    + Check(FutureOrPresent(r.dueDate, today), "dueDate", DueDatePast)
  }

  /**
   * Each constraint reports its own message exactly when it fails, independently
   * of the others, so one field can yield two entries.
   */
  lemma ViolationsReportEachConstraint(r: TaskRequest, today: Date)
    ensures FieldError("title", TitleEmpty) in Violations(r, today) <==> !NotBlank(r.title)
    ensures FieldError("title", TitleTooLong) in Violations(r, today) <==> !SizeAtMost(r.title, MaxTitleLength)
    ensures FieldError("description", DescriptionEmpty) in Violations(r, today) <==> !NotBlank(r.description)
    ensures (FieldError("description", DescriptionTooLong) in Violations(r, today)) <==>
              !SizeAtMost(r.description, MaxDescriptionLength)
    ensures FieldError("dueDate", DueDateNull) in Violations(r, today) <==> r.dueDate.None?
    ensures FieldError("dueDate", DueDatePast) in Violations(r, today) <==> !FutureOrPresent(r.dueDate, today)
  {
    var c1 := Check(NotBlank(r.title), "title", TitleEmpty);
    var c2 := Check(SizeAtMost(r.title, MaxTitleLength), "title", TitleTooLong);
    var c3 := Check(NotBlank(r.description), "description", DescriptionEmpty);
    var c4 := Check(SizeAtMost(r.description, MaxDescriptionLength), "description", DescriptionTooLong);
    var c5 := Check(r.dueDate.Some?, "dueDate", DueDateNull);
    var c6 := Check(FutureOrPresent(r.dueDate, today), "dueDate", DueDatePast);
    assert Violations(r, today) == c1 + c2 + c3 + c4 + c5 + c6;
    // The six messages have six different lengths, so no entry stands for another.
    assert |TitleEmpty| == 21 && |TitleTooLong| == 40;
    assert |DescriptionEmpty| == 27 && |DescriptionTooLong| == 47;
    assert |DueDateNull| == 23 && |DueDatePast| == 41;
    assert forall e :: e in c1 ==> |e.message| == 21;
    assert forall e :: e in c2 ==> |e.message| == 40;
    assert forall e :: e in c3 ==> |e.message| == 27;
    assert forall e :: e in c4 ==> |e.message| == 47;
    assert forall e :: e in c5 ==> |e.message| == 23;
    assert forall e :: e in c6 ==> |e.message| == 41;
  }

  /** A string is blank when it is null, empty, or made only of chars at or below U+0020. */
  lemma BlankIff(s: Option<string>)
    ensures !NotBlank(s) <==> s.None? || Text.AllTrimmed(s.value)
  {
    if s.Some? {
      Text.TrimEmptyIff(s.value);
    }
  }

  /** A null, empty or whitespace-only title is rejected as empty. */
  lemma WhitespaceTitleIsEmpty(r: TaskRequest, today: Date)
    requires r.title.None? || Text.AllTrimmed(r.title.value)
    ensures FieldError("title", TitleEmpty) in Violations(r, today)
  {
    BlankIff(r.title);
    ViolationsReportEachConstraint(r, today);
  }

  /** 256 spaces break both title constraints: one field, two entries. */
  lemma TitleCanFailTwice(r: TaskRequest, today: Date)
    requires r.title == Some(seq(256, _ => ' '))
    ensures FieldError("title", TitleEmpty) in Violations(r, today)
    ensures FieldError("title", TitleTooLong) in Violations(r, today)
  {
    BlankIff(r.title);
    ViolationsReportEachConstraint(r, today);
  }

  /** A task due today passes the date constraints. */
  lemma DueTodayIsAccepted(r: TaskRequest, today: Date)
    requires r.dueDate == Some(today)
    ensures FieldError("dueDate", DueDatePast) !in Violations(r, today)
    ensures FieldError("dueDate", DueDateNull) !in Violations(r, today)
  {
    IsBeforeIsStrictTotalOrder(today, today, today);
    ViolationsReportEachConstraint(r, today);
  }

  /** A task due before today is rejected as past. */
  lemma PastDueIsRejected(r: TaskRequest, today: Date)
    requires r.dueDate.Some? && IsBefore(r.dueDate.value, today)
    ensures FieldError("dueDate", DueDatePast) in Violations(r, today)
  {
    ViolationsReportEachConstraint(r, today);
  }
}
