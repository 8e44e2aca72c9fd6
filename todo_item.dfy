/**
 * One task of the To-Do program (To-Do/src/main/java/model/ToDo.java): an object whose
 * fields are fixed when its Builder builds it, except `completed`, which setCompleted
 * switches on. Building converts the due-date text and the priority text and rejects
 * malformed ones.
 */
module ToDoItem {
  import opened Wrappers
  import opened ToDoNumerals

  const DefaultCompleted: bool := false
  const LowPriority: int := 3
  const HighPriority: int := 1
  /** The lengths of "M/dd/yyyy" and "MM/dd/yyyy" texts. */
  const SingleDigitMonthLength: nat := 9
  const TwoDigitMonthLength: nat := 10

  /** A calendar day as LocalDate holds it; its order is chronological. */
  datatype Day = Day(year: int, month: int, day: int)
  type Date = d: Day | 1 <= d.month <= 12 && 1 <= d.day <= 31 witness Day(2000, 1, 1)

  /** LocalDate's compareTo: by year, then month, then day. */
  predicate AtOrBefore(a: Date, b: Date) {
    a.year < b.year || (a.year == b.year && (a.month < b.month || (a.month == b.month && a.day <= b.day)))
  }

  /** The two patterns convertToLocalDate chooses between. */
  datatype DateFormat = SingleDigitMonth | TwoDigitMonth

  /**
   * LocalDate.parse(text, formatter), which is not part of this model: given by the caller,
   * None where it throws DateTimeParseException.
   */
  type DateParser = (string, DateFormat) -> Option<Date>

  /** The exceptions thrown while building and completing tasks. */
  datatype ToDoError =
    | InvalidDateFormat   // NullPointerException: a date text of neither length
    | UnparsableDate      // DateTimeParseException from LocalDate.parse
    | NotANumber          // NumberFormatException from Integer.parseInt
    | PriorityOutOfRange  // IllegalArgumentException from validPriority
    | IndexOutOfBounds    // IndexOutOfBoundsException from List.get
    | InvalidId           // IllegalArgumentException "Invalid To-Do ID."
    | AlreadyCompleted    // IllegalArgumentException "... already completed."

  /** The six fields of a ToDo. */
  datatype ToDoValue = ToDoValue(
    text: Option<string>, dueDate: Option<Date>, priority: Option<int>,
    category: Option<string>, completed: bool, id: Option<string>)

  /** The six fields of a Builder, all still text. */
  datatype BuilderState = BuilderState(
    completed: bool, text: Option<string>, dueDate: Option<string>,
    priority: Option<string>, category: Option<string>, id: Option<string>)

  /**
   * validPriority: no priority stays unassigned; otherwise the text must be an integer
   * from HighPriority to LowPriority.
   */
  function ValidPriority(priority: Option<string>): (r: Result<Option<int>, ToDoError>)
    ensures priority.None? ==> r == Success(None)
    ensures priority.Some? ==>
              && (r.Success? <==> ParseInt(priority.value).Some? && HighPriority <= ParseInt(priority.value).value <= LowPriority)
              && (r.Success? ==> r.value == ParseInt(priority.value))
              && (r.Failure? ==> r.error == if ParseInt(priority.value).None? then NotANumber else PriorityOutOfRange)
  {
    if priority.None? then Success(None)
    else
      var parsed := ParseInt(priority.value);
      if parsed.None? then Failure(NotANumber)
      else if parsed.value > LowPriority || parsed.value < HighPriority then Failure(PriorityOutOfRange)
      else Success(parsed)
  }

  /** The priorities 1, 2 and 3 written as Integer.toString writes them are accepted, any other number is not. */
  lemma ValidPriorityOfNumber(n: int)
    requires IntMin <= n <= IntMax
    ensures var text := if n < 0 then "-" + DecimalString(-n) else DecimalString(n);
            ValidPriority(Some(text)) == if 1 <= n <= 3 then Success(Some(n)) else Failure(PriorityOutOfRange)
  {
    if n < 0 {
      ParseDecimalString(-n);
    } else {
      ParseDecimalString(n);
    }
  }

  /** The formatter convertToLocalDate picks from the length of the text; none for other lengths. */
  function SelectDateFormat(date: string): (r: Option<DateFormat>)
    ensures r == Some(SingleDigitMonth) <==> |date| == SingleDigitMonthLength
    ensures r == Some(TwoDigitMonth) <==> |date| == TwoDigitMonthLength
  {
    if |date| == SingleDigitMonthLength then Some(SingleDigitMonth)
    else if |date| == TwoDigitMonthLength then Some(TwoDigitMonth)
    else None
  }

  /**
   * convertToLocalDate: no text gives no date; a text of length 9 or 10 is parsed with
   * the matching pattern; any other length reaches LocalDate.parse with a null formatter,
   * whose NullPointerException is re-thrown as an invalid format.
   */
  function ConvertToLocalDate(date: Option<string>, parse: DateParser): (r: Result<Option<Date>, ToDoError>)
    ensures date.None? ==> r == Success(None)
    ensures date.Some? && SelectDateFormat(date.value).None? ==> r == Failure(InvalidDateFormat)
    ensures date.Some? && SelectDateFormat(date.value).Some? ==>
              r == match parse(date.value, SelectDateFormat(date.value).value)
                   case Some(d) => Success(Some(d))
                   case None => Failure(UnparsableDate)
  {
    if date.None? then Success(None)
    else
      var formatter := SelectDateFormat(date.value);
      if formatter.None? then Failure(InvalidDateFormat)
      else
        var parsed := parse(date.value, formatter.value);
        if parsed.None? then Failure(UnparsableDate) else Success(parsed)
  }

  /**
   * The private constructor ToDo(Builder): the due date is converted first, then the
   * priority, so a bad date is reported before a bad priority; the other fields are copied.
   */
  function Built(b: BuilderState, parse: DateParser): (r: Result<ToDoValue, ToDoError>)
    ensures ConvertToLocalDate(b.dueDate, parse).Failure? ==> r == Failure(ConvertToLocalDate(b.dueDate, parse).error)
    ensures ConvertToLocalDate(b.dueDate, parse).Success? && ValidPriority(b.priority).Failure? ==>
              r == Failure(ValidPriority(b.priority).error)
    ensures r.Success? ==>
              && r.value.text == b.text && r.value.category == b.category
              && r.value.completed == b.completed && r.value.id == b.id
              && (r.value.dueDate.None? <==> b.dueDate.None?)
              && (r.value.priority.Some? ==> HighPriority <= r.value.priority.value <= LowPriority)
    ensures b.dueDate.None? && b.priority.None? ==> r.Success?
  {
    var dueDate :- ConvertToLocalDate(b.dueDate, parse);
    var priority :- ValidPriority(b.priority);
    Success(ToDoValue(b.text, dueDate, priority, b.category, b.completed, b.id))
  }

  /** A task. */
  class ToDo {
    const text: Option<string>
    const dueDate: Option<Date>
    const priority: Option<int>
    const category: Option<string>
    var completed: bool
    const id: Option<string>

    /** The fields of the task. */
    function Value(): ToDoValue
      reads this
    {
      ToDoValue(text, dueDate, priority, category, completed, id)
    }

    /** The assignments of ToDo(Builder) once the conversions of Built have succeeded. */
    constructor (v: ToDoValue)
      ensures Value() == v
    {
      text, dueDate, priority, category, completed, id := v.text, v.dueDate, v.priority, v.category, v.completed, v.id;
    }

    /**
     * setCompleted: the task is completed afterwards, whether it was before or not, and no
     * other field changes.
     */
    method SetCompleted()
      modifies this
      ensures Value() == old(Value()).(completed := true)
    {
      completed := true;
    }

    /** equals: the same object, or one whose six fields all equal these. */
    predicate Equals(o: ToDo?)
      reads this, o
      ensures Equals(o) <==> o != null && Value() == o.Value()
    {
      this == o ||
      (o != null && text == o.text && dueDate == o.dueDate && priority == o.priority
       && category == o.category && completed == o.completed && id == o.id)
    }
  }

  /** ToDo.Builder: the text is fixed, every setter replaces one field and returns the builder. */
  class Builder {
    var completed: bool
    const text: Option<string>
    var dueDate: Option<string>
    var priority: Option<string>
    var category: Option<string>
    var id: Option<string>

    function State(): BuilderState
      reads this
    {
      BuilderState(completed, text, dueDate, priority, category, id)
    }

    /** A new builder holds the text, is not completed and has no other field. */
    constructor (text: Option<string>)
      ensures State() == BuilderState(DefaultCompleted, text, None, None, None, None)
    {
      this.text := text;
      completed := DefaultCompleted;
      dueDate, priority, category, id := None, None, None, None;
    }

    method AddDueDate(due: Option<string>) returns (r: Builder)
      modifies this
      ensures r == this && State() == old(State()).(dueDate := due)
    {
      dueDate := due;
      r := this;
    }

    method AddPriority(priority: Option<string>) returns (r: Builder)
      modifies this
      ensures r == this && State() == old(State()).(priority := priority)
    {
      this.priority := priority;
      r := this;
    }

    method AddCategory(category: Option<string>) returns (r: Builder)
      modifies this
      ensures r == this && State() == old(State()).(category := category)
    {
      this.category := category;
      r := this;
    }

    method AddId(id: Option<string>) returns (r: Builder)
      modifies this
      ensures r == this && State() == old(State()).(id := id)
    {
      this.id := id;
      r := this;
    }

    /** markComplete overrides the default of a new builder. */
    method MarkComplete(completed: bool) returns (r: Builder)
      modifies this
      ensures r == this && State() == old(State()).(completed := completed)
    {
      this.completed := completed;
      r := this;
    }

    /**
     * build: a new task whose fields are those Built computes from the builder, or the
     * exception the conversions throw. The builder is left as it was, so two builds from
     * one builder give tasks that are Equals.
     */
    method Build(parse: DateParser) returns (r: Result<ToDo, ToDoError>)
      ensures Built(State(), parse).Failure? ==> r == Failure(Built(State(), parse).error)
      ensures Built(State(), parse).Success? ==>
                r.Success? && fresh(r.value) && r.value.Value() == Built(State(), parse).value
    {
      var built := Built(State(), parse);
      if built.Failure? {
        return Failure(built.error);
      }
      var toDo := new ToDo(built.value);
      r := Success(toDo);
    }
  }
}
