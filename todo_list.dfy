/**
 * The list of tasks read from the CSV file (To-Do/src/main/java/model/ToDoList.java).
 * The Java class keeps its state in static fields (the id counter and the list); here one
 * ToDoList object holds that state and is shared by everything that uses it. The rows are
 * the cells CsvReader has already split; reading the file is not part of this model.
 */
module ToDoListing {
  import opened Wrappers
  import opened ToDoNumerals
  import opened ToDoItem

  /** The cell text that stands for an empty field. */
  const NoInput: string := "?"
  /** Column indexes of a task row; column 0 holds the id the file was written with. */
  const TextColumn: nat := 1
  const CompletedColumn: nat := 2
  const DueColumn: nat := 3
  const PriorityColumn: nat := 4
  const CategoryColumn: nat := 5
  /** The first id handed out. */
  const FirstId: nat := 1

  /** A cell of a task: null for NoInput, the text otherwise. */
  function Cell(text: string): Option<string> {
    if text == NoInput then None else Some(text)
  }

  /** The text a cell was read from. */
  function CellText(cell: Option<string>): string {
    if cell.None? then NoInput else cell.value
  }

  /** The task assignNullToEmptyInput makes of a CSV line. */
  function TaskOf(csvLine: seq<string>): seq<Option<string>> {
    if csvLine == [] then [] else TaskOf(csvLine[..|csvLine| - 1]) + [Cell(csvLine[|csvLine| - 1])]
  }

  /**
   * assignNullToEmptyInput keeps the length, maps "?" to null and keeps every other cell,
   * so writing the nulls back as "?" gives the line again.
   */
  lemma {:induction false} TaskOfMeaning(csvLine: seq<string>)
    ensures |TaskOf(csvLine)| == |csvLine|
    ensures forall i :: 0 <= i < |csvLine| ==> TaskOf(csvLine)[i] == Cell(csvLine[i])
    ensures forall i :: 0 <= i < |csvLine| ==> CellText(TaskOf(csvLine)[i]) == csvLine[i]
  {
    if csvLine != [] {
      TaskOfMeaning(csvLine[..|csvLine| - 1]);
    }
  }

  /**
   * The builder createToDo fills from a task and the current counter: text, completed,
   * due date, priority and category from columns 1 to 5, and the counter as the id;
   * column 0 is ignored. A task shorter than six cells fails on List.get.
   */
  function TaskBuilder(task: seq<Option<string>>, idCount: nat): (r: Result<BuilderState, ToDoError>)
    ensures r.Failure? <==> |task| <= CategoryColumn
    ensures r.Failure? ==> r.error == IndexOutOfBounds
  {
    if |task| <= CategoryColumn then Failure(IndexOutOfBounds)
    else
      Success(BuilderState(ParseBoolean(task[CompletedColumn]), task[TextColumn], task[DueColumn],
                           task[PriorityColumn], task[CategoryColumn], Some(DecimalString(idCount))))
  }

  /** The task createToDo builds. */
  function ToDoFromTask(task: seq<Option<string>>, idCount: nat, parse: DateParser): Result<ToDoValue, ToDoError> {
    var b :- TaskBuilder(task, idCount);
    Built(b, parse)
  }

  /**
   * A built task carries the counter as its id and its cells in their columns.
   */
  lemma ToDoFromTaskFields(task: seq<Option<string>>, idCount: nat, parse: DateParser)
    requires ToDoFromTask(task, idCount, parse).Success?
    ensures var v := ToDoFromTask(task, idCount, parse).value;
            && |task| > CategoryColumn
            && v.id == Some(DecimalString(idCount))
            && v.text == task[TextColumn] && v.category == task[CategoryColumn]
            && v.completed == ParseBoolean(task[CompletedColumn])
            && (v.dueDate.None? <==> task[DueColumn].None?)
  {
  }

  /** The id the file was written with, in column 0, plays no part in the task built. */
  lemma OldIdIgnored(task: seq<Option<string>>, oldId: Option<string>, idCount: nat, parse: DateParser)
    requires |task| > 0
    ensures ToDoFromTask(task[0 := oldId], idCount, parse) == ToDoFromTask(task, idCount, parse)
  {
  }

  /** After some data rows: the tasks built so far, the counter, and the first exception. */
  datatype Load = Load(values: seq<ToDoValue>, idCount: nat, error: Option<ToDoError>)

  /**
   * The data rows of createToDoList one after the other: each row becomes a task, and the
   * counter advances for every row long enough to reach `idCount++`, even when the build
   * that follows throws. Nothing after the first exception is read.
   */
  function LoadRows(rows: seq<seq<string>>, idCount: nat, parse: DateParser): Load {
    if rows == [] then Load([], idCount, None)
    else
      var before := LoadRows(rows[..|rows| - 1], idCount, parse);
      if before.error.Some? then before else LoadStep(before, rows[|rows| - 1], parse)
  }

  /** One data row after rows that loaded without an exception. */
  function LoadStep(before: Load, row: seq<string>, parse: DateParser): Load {
    var task := TaskOf(row);
    var next := if |task| > CategoryColumn then before.idCount + 1 else before.idCount;
    var built := ToDoFromTask(task, before.idCount, parse);
    if built.Success? then Load(before.values + [built.value], next, None)
    else Load(before.values, next, Some(built.error))
  }

  /** One more row after rows that loaded without an exception. */
  lemma LoadRowsSnoc(rows: seq<seq<string>>, row: seq<string>, idCount: nat, parse: DateParser)
    requires LoadRows(rows, idCount, parse).error.None?
    ensures LoadRows(rows + [row], idCount, parse) == LoadStep(LoadRows(rows, idCount, parse), row, parse)
  {
    assert (rows + [row])[..|rows|] == rows;
  }

  /** The first `k + 1` rows, from the first `k`. */
  lemma LoadRowsNext(rows: seq<seq<string>>, k: nat, idCount: nat, parse: DateParser)
    requires k < |rows| && LoadRows(rows[..k], idCount, parse).error.None?
    ensures LoadRows(rows[..k + 1], idCount, parse) == LoadStep(LoadRows(rows[..k], idCount, parse), rows[k], parse)
  {
    assert rows[..k + 1] == rows[..k] + [rows[k]];
    LoadRowsSnoc(rows[..k], rows[k], idCount, parse);
  }

  /** Once a row has thrown, the rows after it change nothing. */
  lemma {:induction false} LoadRowsStopsAtError(rows: seq<seq<string>>, n: nat, idCount: nat, parse: DateParser)
    requires n <= |rows| && LoadRows(rows[..n], idCount, parse).error.Some?
    ensures LoadRows(rows, idCount, parse) == LoadRows(rows[..n], idCount, parse)
    decreases |rows|
  {
    if n < |rows| {
      var prefix := rows[..|rows| - 1];
      assert prefix[..n] == rows[..n];
      LoadRowsStopsAtError(prefix, n, idCount, parse);
    } else {
      assert rows[..n] == rows;
    }
  }

  /** The rows createToDoList turns into tasks: all but the first, the header. */
  function DataRows(rows: seq<seq<string>>): seq<seq<string>> {
    if rows == [] then [] else rows[1..]
  }

  /**
   * Loading without an exception yields one task per row after the header, in row order,
   * with consecutive ids from the counter onwards, and moves the counter past them.
   */
  lemma {:induction false} LoadRowsMeaning(rows: seq<seq<string>>, idCount: nat, parse: DateParser)
    requires LoadRows(rows, idCount, parse).error.None?
    ensures var load := LoadRows(rows, idCount, parse);
            && |load.values| == |rows|
            && load.idCount == idCount + |rows|
            && forall i :: 0 <= i < |rows| ==>
                 ToDoFromTask(TaskOf(rows[i]), idCount + i, parse) == Success(load.values[i])
  {
    if rows != [] {
      var prefix := rows[..|rows| - 1];
      LoadRowsMeaning(prefix, idCount, parse);
      var before := LoadRows(prefix, idCount, parse);
      var task := TaskOf(rows[|rows| - 1]);
      TaskOfMeaning(rows[|rows| - 1]);
      assert ToDoFromTask(task, before.idCount, parse).Success?;
      assert |task| > CategoryColumn;
      forall i | 0 <= i < |rows|
        ensures ToDoFromTask(TaskOf(rows[i]), idCount + i, parse) == Success(LoadRows(rows, idCount, parse).values[i])
      {
        if i < |rows| - 1 {
          assert rows[i] == prefix[i];
        }
      }
    }
  }

  /** The tasks of one load have pairwise different ids. */
  lemma LoadedIdsDistinct(rows: seq<seq<string>>, idCount: nat, parse: DateParser, i: nat, j: nat)
    requires LoadRows(rows, idCount, parse).error.None?
    requires i < j < |rows|
    ensures var load := LoadRows(rows, idCount, parse);
            |load.values| == |rows| && load.values[i].id != load.values[j].id
  {
    LoadRowsMeaning(rows, idCount, parse);
    var load := LoadRows(rows, idCount, parse);
    ToDoFromTaskFields(TaskOf(rows[i]), idCount + i, parse);
    ToDoFromTaskFields(TaskOf(rows[j]), idCount + j, parse);
    DecimalStringInjective(idCount + i, idCount + j);
  }

  /** The fields of a list of tasks. */
  function Values(list: seq<ToDo>): (r: seq<ToDoValue>)
    reads list
    ensures |r| == |list|
    ensures forall i :: 0 <= i < |list| ==> r[i] == list[i].Value()
  {
    if list == [] then [] else Values(list[..|list| - 1]) + [list[|list| - 1].Value()]
  }

  lemma ValuesSnoc(list: seq<ToDo>, t: ToDo)
    ensures Values(list + [t]) == Values(list) + [t.Value()]
  {
    assert (list + [t])[..|list|] == list;
  }

  /** No task occurs twice in the list. */
  ghost predicate Distinct(list: seq<ToDo>) {
    forall i, j :: 0 <= i < j < |list| ==> list[i] != list[j]
  }

  lemma DistinctSnoc(list: seq<ToDo>, t: ToDo)
    requires Distinct(list) && t !in list
    ensures Distinct(list + [t])
  {
  }

  /** assignNullToEmptyInput: one cell per item of the line, "?" turned into null. */
  method AssignNullToEmptyInput(csvLine: seq<string>) returns (task: seq<Option<string>>)
    ensures task == TaskOf(csvLine)
  {
    task := [];
    for i := 0 to |csvLine|
      invariant task == TaskOf(csvLine[..i])
    {
      assert csvLine[..i + 1][..i] == csvLine[..i];
      task := task + [Cell(csvLine[i])];
    }
    assert csvLine[..|csvLine|] == csvLine;
  }

  /** The static state of ToDoList: the id counter and the list createToDoList fills. */
  class ToDoList {
    var idCount: nat
    var toDoList: seq<ToDo>

    /** The class as it is loaded: the counter at FirstId and no tasks yet. */
    constructor ()
      ensures idCount == FirstId && toDoList == []
    {
      idCount := FirstId;
      toDoList := [];
    }

    /**
     * createToDo: the task ToDoFromTask describes, with the counter as its id, or the
     * exception; the counter advances once the six cells have been read.
     */
    method CreateToDo(task: seq<Option<string>>, parse: DateParser) returns (r: Result<ToDo, ToDoError>)
      modifies this`idCount
      ensures idCount == if |task| > CategoryColumn then old(idCount) + 1 else old(idCount)
      ensures ToDoFromTask(task, old(idCount), parse).Failure? ==> r == Failure(ToDoFromTask(task, old(idCount), parse).error)
      ensures ToDoFromTask(task, old(idCount), parse).Success? ==>
                r.Success? && fresh(r.value) && r.value.Value() == ToDoFromTask(task, old(idCount), parse).value
    {
      if |task| <= CategoryColumn {
        return Failure(IndexOutOfBounds);
      }
      var toDoBuilder := new Builder(task[TextColumn]);
      var _ := toDoBuilder.MarkComplete(ParseBoolean(task[CompletedColumn]));
      var _ := toDoBuilder.AddDueDate(task[DueColumn]);
      var _ := toDoBuilder.AddPriority(task[PriorityColumn]);
      var _ := toDoBuilder.AddCategory(task[CategoryColumn]);
      var _ := toDoBuilder.AddId(Some(DecimalString(idCount)));
      idCount := idCount + 1;
      r := toDoBuilder.Build(parse);
    }

    /**
     * The body of createToDoList's loop: the task of one CSV line is created and, when no
     * exception is thrown, appended to the list; LoadStep describes the new state.
     */
    method AppendRow(csvLine: seq<string>, parse: DateParser) returns (error: Option<ToDoError>)
      requires Distinct(toDoList)
      modifies this
      ensures Load(Values(toDoList), idCount, error) == LoadStep(Load(old(Values(toDoList)), old(idCount), None), csvLine, parse)
      ensures error.Some? ==> toDoList == old(toDoList)
      ensures Distinct(toDoList)
      ensures forall t :: t in toDoList ==> t in old(toDoList) || fresh(t)
    {
      ghost var before := toDoList;
      ghost var load := LoadStep(Load(Values(toDoList), idCount, None), csvLine, parse);
      var task := AssignNullToEmptyInput(csvLine);
      ghost var step := ToDoFromTask(task, idCount, parse);
      var created := CreateToDo(task, parse);
      assert load.idCount == idCount;
      assert Values(toDoList) == Values(before);
      if created.Failure? {
        assert load == Load(Values(before), idCount, Some(created.error));
        return Some(created.error);
      }
      assert load == Load(Values(before) + [created.value.Value()], idCount, None);
      Add(created.value);
      error := None;
    }

    /** toDoList.add of a task not yet in the list. */
    method Add(t: ToDo)
      requires Distinct(toDoList) && t !in toDoList
      modifies this`toDoList
      ensures Distinct(toDoList)
      ensures toDoList == old(toDoList) + [t]
      ensures Values(toDoList) == old(Values(toDoList)) + [t.Value()]
    {
      DistinctSnoc(toDoList, t);
      ValuesSnoc(toDoList, t);
      toDoList := toDoList + [t];
    }

    /**
     * createToDoList over rows already read: a new list of one new task per row after the
     * header, as LoadRows describes, up to the first exception, which is returned.
     */
    method CreateToDoList(rows: seq<seq<string>>, parse: DateParser) returns (r: Result<seq<ToDo>, ToDoError>)
      modifies this
      ensures var load := LoadRows(DataRows(rows), old(idCount), parse);
              && Values(toDoList) == load.values
              && idCount == load.idCount
              && (forall t :: t in toDoList ==> fresh(t))
              && Distinct(toDoList)
              && r == if load.error.Some? then Failure(load.error.value) else Success(toDoList)
    {
      var data := DataRows(rows);
      toDoList := [];
      ghost var count0 := idCount;
      var k := 0;
      while k < |data|
        invariant 0 <= k <= |data|
        invariant LoadRows(data[..k], count0, parse) == Load(Values(toDoList), idCount, None)
        invariant forall t :: t in toDoList ==> fresh(t)
        invariant Distinct(toDoList)
      {
        LoadRowsNext(data, k, count0, parse);
        var error := AppendRow(data[k], parse);
        if error.Some? {
          LoadRowsStopsAtError(data, k + 1, count0, parse);
          return Failure(error.value);
        }
        k := k + 1;
      }
      assert data[..k] == data;
      r := Success(toDoList);
    }
  }
}
