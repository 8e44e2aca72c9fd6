/**
 * The controller of the To-Do program (To-Do/src/main/java/controller/TaskManager.java):
 * it adds the task the command line describes and then completes the tasks whose ids the
 * command line lists, changing the ToDo objects of the list in place. Writing the CSV
 * file afterwards is not part of this model.
 */
module ToDoTasks {
  import opened Wrappers
  import opened ToDoNumerals
  import opened ToDoItem
  import opened ToDoListing
  import ToDoParser

  /**
   * markTaskComplete on the fields of the list: an id beyond the list or negative is
   * invalid, id 0 reaches get(-1), a completed task cannot be completed again; otherwise
   * the task at position id - 1 becomes completed and nothing else changes.
   */
  function MarkStep(values: seq<ToDoValue>, id: int): (r: Result<seq<ToDoValue>, ToDoError>)
    ensures r.Success? <==> 1 <= id <= |values| && !values[id - 1].completed
    ensures (id > |values| || id < 0) ==> r == Failure(InvalidId)
    ensures id == 0 ==> r == Failure(IndexOutOfBounds)
    ensures 1 <= id <= |values| && values[id - 1].completed ==> r == Failure(AlreadyCompleted)
    ensures r.Success? ==>
              && |r.value| == |values|
              && r.value[id - 1] == values[id - 1].(completed := true)
              && forall i :: 0 <= i < |values| && i != id - 1 ==> r.value[i] == values[i]
  {
    if id > |values| || id < 0 then Failure(InvalidId)
    else if id == 0 then Failure(IndexOutOfBounds)
    else if values[id - 1].completed then Failure(AlreadyCompleted)
    else Success(values[id - 1 := values[id - 1].(completed := true)])
  }

  /** Completing a task a second time fails, whatever happened to the other tasks. */
  lemma MarkTwiceFails(values: seq<ToDoValue>, id: int)
    requires MarkStep(values, id).Success?
    ensures MarkStep(MarkStep(values, id).value, id) == Failure(AlreadyCompleted)
  {
  }

  /** Completing two different tasks gives the same list in either order. */
  lemma MarkStepsCommute(values: seq<ToDoValue>, a: int, b: int)
    requires a != b
    requires MarkStep(values, a).Success? && MarkStep(values, b).Success?
    ensures MarkStep(MarkStep(values, a).value, b).Success?
    ensures MarkStep(MarkStep(values, b).value, a).Success?
    ensures MarkStep(MarkStep(values, a).value, b).value == MarkStep(MarkStep(values, b).value, a).value
  {
    var ab := MarkStep(MarkStep(values, a).value, b).value;
    var ba := MarkStep(MarkStep(values, b).value, a).value;
    assert forall i :: 0 <= i < |values| ==> ab[i] == ba[i];
  }

  /** One item of the id list: Integer.parseInt, then markTaskComplete. */
  function CompleteOne(values: seq<ToDoValue>, idText: string): Result<seq<ToDoValue>, ToDoError> {
    match ParseInt(idText)
    case None => Failure(NotANumber)
    case Some(id) => MarkStep(values, id)
  }

  /** After some ids: the fields of the list, and the first exception. */
  datatype Completion = Completion(values: seq<ToDoValue>, error: Option<ToDoError>)

  /**
   * updateTaskComplete's loop over the id list: each id completes its task in turn; the
   * first exception ends the loop, and the tasks completed before it stay completed.
   */
  function CompleteAll(values: seq<ToDoValue>, ids: seq<string>): Completion {
    if ids == [] then Completion(values, None)
    else
      var before := CompleteAll(values, ids[..|ids| - 1]);
      if before.error.Some? then before
      else match CompleteOne(before.values, ids[|ids| - 1])
        case Success(after) => Completion(after, None)
        case Failure(e) => Completion(before.values, Some(e))
  }

  lemma CompleteAllSnoc(values: seq<ToDoValue>, ids: seq<string>, idText: string)
    ensures CompleteAll(values, ids + [idText]) ==
            var before := CompleteAll(values, ids);
            if before.error.Some? then before
            else match CompleteOne(before.values, idText)
              case Success(after) => Completion(after, None)
              case Failure(e) => Completion(before.values, Some(e))
  {
    assert (ids + [idText])[..|ids|] == ids;
  }

  /** The loop's step from the first `i` ids to the first `i + 1`. */
  lemma CompleteAllNext(values: seq<ToDoValue>, ids: seq<string>, i: nat)
    requires i < |ids| && CompleteAll(values, ids[..i]).error.None?
    ensures var before := CompleteAll(values, ids[..i]).values;
            CompleteAll(values, ids[..i + 1]) ==
              if CompleteOne(before, ids[i]).Success? then Completion(CompleteOne(before, ids[i]).value, None)
              else Completion(before, Some(CompleteOne(before, ids[i]).error))
  {
    assert ids[..i + 1] == ids[..i] + [ids[i]];
    CompleteAllSnoc(values, ids[..i], ids[i]);
  }

  /** Once an exception has ended the loop, the later ids change nothing. */
  lemma {:induction false} CompleteAllStopsAtError(values: seq<ToDoValue>, ids: seq<string>, n: nat)
    requires n <= |ids|
    requires CompleteAll(values, ids[..n]).error.Some?
    ensures CompleteAll(values, ids) == CompleteAll(values, ids[..n])
  {
    if n < |ids| {
      var prefix := ids[..|ids| - 1];
      assert prefix[..n] == ids[..n];
      CompleteAllStopsAtError(values, prefix, n);
    } else {
      assert ids[..n] == ids;
    }
  }

  /** Whether some id of the list, as Integer.parseInt reads it, names position `i` of the list. */
  predicate NamesPosition(ids: seq<string>, i: int) {
    exists k :: 0 <= k < |ids| && ParseInt(ids[k]) == Some(i + 1)
  }

  lemma NamesPositionSnoc(ids: seq<string>, idText: string, i: int)
    ensures NamesPosition(ids, i) ==> NamesPosition(ids + [idText], i)
  {
    if NamesPosition(ids, i) {
      var k :| 0 <= k < |ids| && ParseInt(ids[k]) == Some(i + 1);
      assert (ids + [idText])[k] == ids[k];
    }
  }

  /**
   * `after` keeps the length of `values` and every field but `completed`, makes no task
   * incomplete, and equals `values` at every position no id names.
   */
  ghost predicate Evolves(values: seq<ToDoValue>, after: seq<ToDoValue>, ids: seq<string>) {
    && |after| == |values|
    && (forall i :: 0 <= i < |values| ==> after[i] == values[i].(completed := after[i].completed))
    && (forall i :: 0 <= i < |values| && values[i].completed ==> after[i].completed)
    && (forall i :: 0 <= i < |values| && !NamesPosition(ids, i) ==> after[i] == values[i])
  }

  /** Every id of the list names a position whose task is completed in `after`. */
  ghost predicate AllCompleted(after: seq<ToDoValue>, ids: seq<string>) {
    forall k :: 0 <= k < |ids| ==>
      && ParseInt(ids[k]).Some? && 1 <= ParseInt(ids[k]).value <= |after|
      && after[ParseInt(ids[k]).value - 1].completed
  }

  lemma EvolvesSnoc(values: seq<ToDoValue>, before: seq<ToDoValue>, ids: seq<string>, idText: string)
    requires Evolves(values, before, ids)
    requires CompleteOne(before, idText).Success?
    ensures Evolves(values, CompleteOne(before, idText).value, ids + [idText])
  {
    var id := ParseInt(idText).value;
    var ids' := ids + [idText];
    assert ids'[|ids|] == idText;
    assert NamesPosition(ids', id - 1) by {
      assert ParseInt(ids'[|ids|]) == Some(id);
    }
    var after := MarkStep(before, id).value;
    assert after == CompleteOne(before, idText).value;
    forall i | 0 <= i < |values| && !NamesPosition(ids', i) ensures after[i] == values[i] {
      NamesPositionSnoc(ids, idText, i);
    }
    forall i | 0 <= i < |values| ensures after[i] == values[i].(completed := after[i].completed) {
    }
    forall i | 0 <= i < |values| && values[i].completed ensures after[i].completed {
    }
  }

  lemma AllCompletedSnoc(before: seq<ToDoValue>, ids: seq<string>, idText: string)
    requires AllCompleted(before, ids)
    requires CompleteOne(before, idText).Success?
    ensures AllCompleted(CompleteOne(before, idText).value, ids + [idText])
  {
    var ids' := ids + [idText];
    forall k | 0 <= k < |ids'|
      ensures ParseInt(ids'[k]).Some? && 1 <= ParseInt(ids'[k]).value <= |before|
      ensures CompleteOne(before, idText).value[ParseInt(ids'[k]).value - 1].completed
    {
      if k < |ids| {
        assert ids'[k] == ids[k];
      }
    }
  }

  /**
   * The loop keeps the length of the list and every field but `completed`; it never makes
   * a task incomplete; it leaves alone the tasks no id names; and when it ends without an
   * exception, every id is a position of the list whose task is now completed.
   */
  lemma {:induction false} CompleteAllMeaning(values: seq<ToDoValue>, ids: seq<string>)
    ensures Evolves(values, CompleteAll(values, ids).values, ids)
    ensures CompleteAll(values, ids).error.None? ==> AllCompleted(CompleteAll(values, ids).values, ids)
  {
    if ids != [] {
      var prefix, last := ids[..|ids| - 1], ids[|ids| - 1];
      assert ids == prefix + [last];
      CompleteAllMeaning(values, prefix);
      var before := CompleteAll(values, prefix);
      if before.error.None? && CompleteOne(before.values, last).Success? {
        EvolvesSnoc(values, before.values, prefix, last);
        AllCompletedSnoc(before.values, prefix, last);
      } else {
        EvolvesExtend(values, before.values, prefix, last);
      }
    }
  }

  /** Naming one more position keeps an Evolves relation. */
  lemma EvolvesExtend(values: seq<ToDoValue>, after: seq<ToDoValue>, ids: seq<string>, idText: string)
    requires Evolves(values, after, ids)
    ensures Evolves(values, after, ids + [idText])
  {
    var ids' := ids + [idText];
    forall i | 0 <= i < |values| ensures NamesPosition(ids, i) ==> NamesPosition(ids', i) {
      NamesPositionSnoc(ids, idText, i);
    }
  }

  /** Listing the same id twice ends the loop with the already-completed exception. */
  lemma RepeatedIdFails(values: seq<ToDoValue>, idText: string)
    requires CompleteOne(values, idText).Success?
    ensures CompleteAll(values, [idText, idText]) == Completion(CompleteOne(values, idText).value, Some(AlreadyCompleted))
  {
    CompleteAllSnoc(values, [idText], idText);
    CompleteAllSnoc(values, [], idText);
    assert [idText] == [] + [idText];
    MarkTwiceFails(values, ParseInt(idText).value);
  }

  /** The six cells addNewToDo hands to createToDo, in the columns createToDo reads. */
  function NewTask(s: ToDoParser.Settings): (task: seq<Option<string>>)
    ensures |task| == CategoryColumn + 1
    ensures task[TextColumn] == s.textDescription && task[CompletedColumn] == s.markComplete
    ensures task[DueColumn] == s.dueDate && task[PriorityColumn] == s.priority
    ensures task[CategoryColumn] == s.categoryName
  {
    [None, s.textDescription, s.markComplete, s.dueDate, s.priority, s.categoryName]
  }

  /**
   * A task added from a parsed command line is never completed, because the parser never
   * assigns markComplete; it carries the text, the category and the counter as its id.
   */
  lemma AddedTaskIncomplete(args: seq<string>, options: ToDoParser.Options, idCount: nat, parse: DateParser)
    requires ToDoParser.Construct(args, options).Success?
    requires ToDoFromTask(NewTask(ToDoParser.Construct(args, options).value), idCount, parse).Success?
    ensures var s := ToDoParser.Construct(args, options).value;
            var v := ToDoFromTask(NewTask(s), idCount, parse).value;
            && !v.completed
            && v.text == s.textDescription && v.category == s.categoryName
            && v.id == Some(DecimalString(idCount))
  {
    var scan := ToDoParser.ParseArgs(args, options);
    ToDoParser.ConfigureMeaning(scan.optionMap);
    ToDoFromTaskFields(NewTask(ToDoParser.Construct(args, options).value), idCount, parse);
  }

  /** addNewToDo on the fields of the list: the built task at the end, or the exception. */
  function AddStep(values: seq<ToDoValue>, s: ToDoParser.Settings, idCount: nat, parse: DateParser): Completion {
    var built := ToDoFromTask(NewTask(s), idCount, parse);
    if built.Success? then Completion(values + [built.value], None) else Completion(values, Some(built.error))
  }

  /** updateNewToDo on the fields of the list: addNewToDo only when there is a text description. */
  function NewToDoStep(values: seq<ToDoValue>, s: ToDoParser.Settings, idCount: nat, parse: DateParser): Completion {
    if s.textDescription.Some? then AddStep(values, s, idCount, parse) else Completion(values, None)
  }

  /**
   * updateCsvFile before the writer: the new task is added first, when there is a text
   * description, and then the listed ids are completed; an exception ends it.
   */
  function CsvUpdate(values: seq<ToDoValue>, s: ToDoParser.Settings, idCount: nat, parse: DateParser): Completion {
    var added := NewToDoStep(values, s, idCount, parse);
    if added.error.Some? || s.completeID.None? then added
    else CompleteAll(added.values, s.completeID.value)
  }

  /**
   * Because the task is added before the ids are completed, an id naming the new task's
   * position completes it in the same run.
   */
  lemma AddThenComplete(values: seq<ToDoValue>, s: ToDoParser.Settings, idCount: nat, parse: DateParser)
    requires s.textDescription.Some? && s.markComplete.None?
    requires ToDoFromTask(NewTask(s), idCount, parse).Success?
    requires |values| + 1 <= IntMax
    requires s.completeID == Some([DecimalString(|values| + 1)])
    ensures var c := CsvUpdate(values, s, idCount, parse);
            && c.error.None? && |c.values| == |values| + 1
            && c.values[..|values|] == values
            && c.values[|values|] == ToDoFromTask(NewTask(s), idCount, parse).value.(completed := true)
  {
    var v := ToDoFromTask(NewTask(s), idCount, parse).value;
    ToDoFromTaskFields(NewTask(s), idCount, parse);
    ParseDecimalString(|values| + 1);
    var idText := DecimalString(|values| + 1);
    CompleteAllSnoc(values + [v], [], idText);
    assert [idText] == [] + [idText];
  }

  /** TaskManager: the parsed command line and the list of tasks it updates. */
  class TaskManager {
    const parser: ToDoParser.CommandLineParser
    var toDoList: seq<ToDo>

    /** No task is in the list twice, so completing one changes no other. */
    ghost predicate Valid()
      reads this
    {
      Distinct(toDoList)
    }

    constructor (parser: ToDoParser.CommandLineParser, toDoList: seq<ToDo>)
      ensures this.parser == parser && this.toDoList == toDoList
    {
      this.parser := parser;
      this.toDoList := toDoList;
    }

    /** markTaskComplete: the list's fields change as MarkStep says, or the exception is thrown. */
    method MarkTaskComplete(id: int) returns (o: Outcome<ToDoError>)
      requires Valid()
      modifies toDoList
      ensures match MarkStep(old(Values(toDoList)), id)
              case Success(after) => o == Pass && Values(toDoList) == after
              case Failure(e) => o == Fail(e) && Values(toDoList) == old(Values(toDoList))
    {
      if id > |toDoList| || id < 0 {
        return Fail(InvalidId);
      } else if id == 0 {
        return Fail(IndexOutOfBounds);
      } else if toDoList[id - 1].completed {
        return Fail(AlreadyCompleted);
      }
      ghost var before := Values(toDoList);
      var toDo := toDoList[id - 1];
      toDo.SetCompleted();
      ghost var after := MarkStep(before, id).value;
      forall i | 0 <= i < |toDoList| ensures Values(toDoList)[i] == after[i] {
        if i != id - 1 {
          assert toDoList[i] != toDo;
        }
      }
      return Pass;
    }

    /** One pass of updateTaskComplete's loop: Integer.parseInt, then markTaskComplete. */
    method CompleteNext(idText: string) returns (o: Outcome<ToDoError>)
      requires Valid()
      modifies toDoList
      ensures CompleteOne(old(Values(toDoList)), idText).Success? ==>
                o == Pass && Values(toDoList) == CompleteOne(old(Values(toDoList)), idText).value
      ensures CompleteOne(old(Values(toDoList)), idText).Failure? ==>
                o == Fail(CompleteOne(old(Values(toDoList)), idText).error) && Values(toDoList) == old(Values(toDoList))
    {
      var id := ParseInt(idText);
      if id.None? {
        return Fail(NotANumber);
      }
      o := MarkTaskComplete(id.value);
    }

    /**
     * updateTaskComplete: with no id list nothing changes; otherwise the ids are completed
     * in their order as CompleteAll says, and the first exception is thrown on.
     */
    method UpdateTaskComplete() returns (o: Outcome<ToDoError>)
      requires Valid()
      modifies toDoList
      ensures parser.completeID.None? ==> o == Pass && Values(toDoList) == old(Values(toDoList))
      ensures parser.completeID.Some? ==>
                var c := CompleteAll(old(Values(toDoList)), parser.completeID.value);
                && Values(toDoList) == c.values
                && o == if c.error.None? then Pass else Fail(c.error.value)
    {
      if parser.completeID.None? {
        return Pass;
      }
      o := CompleteIds(parser.completeID.value);
    }

    /** The loop of updateTaskComplete over a list of ids. */
    method CompleteIds(ids: seq<string>) returns (o: Outcome<ToDoError>)
      requires Valid()
      modifies toDoList
      ensures var c := CompleteAll(old(Values(toDoList)), ids);
              Values(toDoList) == c.values && o == if c.error.None? then Pass else Fail(c.error.value)
    {
      ghost var start := Values(toDoList);
      var i := 0;
      while i < |ids|
        invariant 0 <= i <= |ids|
        invariant CompleteAll(start, ids[..i]) == Completion(Values(toDoList), None)
      {
        CompleteAllNext(start, ids, i);
        var done := CompleteNext(ids[i]);
        if done.Fail? {
          CompleteAllStopsAtError(start, ids, i + 1);
          return done;
        }
        i := i + 1;
      }
      assert ids[..i] == ids;
      return Pass;
    }

    /**
     * addNewToDo: createToDo on the parser's fields; the new task is appended at the end,
     * or createToDo's exception is thrown and the list is unchanged. The counter advances
     * either way.
     */
    method AddNewToDo(lists: ToDoList, parse: DateParser) returns (o: Outcome<ToDoError>)
      requires Valid()
      modifies this, lists`idCount
      ensures Valid()
      ensures lists.idCount == old(lists.idCount) + 1
      ensures toDoList == old(toDoList) ||
              (|toDoList| == |old(toDoList)| + 1 && toDoList == old(toDoList) + [toDoList[|old(toDoList)|]]
               && fresh(toDoList[|old(toDoList)|]))
      ensures Completion(Values(toDoList), if o.Pass? then None else Some(o.error)) ==
              AddStep(old(Values(toDoList)), parser.Fields(), old(lists.idCount), parse)
    {
      ghost var step := AddStep(Values(toDoList), parser.Fields(), lists.idCount, parse);
      var task := NewTask(parser.Fields());
      var newToDo := lists.CreateToDo(task, parse);
      if newToDo.Failure? {
        return Fail(newToDo.error);
      }
      assert step == Completion(Values(toDoList) + [newToDo.value.Value()], None);
      Append(newToDo.value);
      return Pass;
    }

    /** toDoList.add of a task not yet in the list. */
    method Append(t: ToDo)
      requires Valid() && t !in toDoList
      modifies this
      ensures Valid()
      ensures toDoList == old(toDoList) + [t]
      ensures Values(toDoList) == old(Values(toDoList)) + [t.Value()]
    {
      DistinctSnoc(toDoList, t);
      ValuesSnoc(toDoList, t);
      toDoList := toDoList + [t];
    }

    /** updateNewToDo: addNewToDo only when the command line has a text description. */
    method UpdateNewToDo(lists: ToDoList, parse: DateParser) returns (o: Outcome<ToDoError>)
      requires Valid()
      modifies this, lists`idCount
      ensures Valid()
      ensures toDoList == old(toDoList) ||
              (|toDoList| == |old(toDoList)| + 1 && toDoList == old(toDoList) + [toDoList[|old(toDoList)|]]
               && fresh(toDoList[|old(toDoList)|]))
      ensures lists.idCount == if parser.textDescription.Some? then old(lists.idCount) + 1 else old(lists.idCount)
      ensures parser.textDescription.None? ==> toDoList == old(toDoList)
      ensures Completion(Values(toDoList), if o.Pass? then None else Some(o.error)) ==
              NewToDoStep(old(Values(toDoList)), parser.Fields(), old(lists.idCount), parse)
    {
      if parser.textDescription.Some? {
        o := AddNewToDo(lists, parse);
      } else {
        o := Pass;
      }
    }

    /**
     * updateCsvFile up to the writer: first updateNewToDo, then updateTaskComplete; the
     * list's fields end as CsvUpdate says and its first exception is thrown on.
     */
    method UpdateCsvFile(lists: ToDoList, parse: DateParser) returns (o: Outcome<ToDoError>)
      requires Valid()
      modifies this, lists`idCount, toDoList
      ensures Valid()
      ensures var c := CsvUpdate(old(Values(toDoList)), old(parser.Fields()), old(lists.idCount), parse);
              && Values(toDoList) == c.values
              && o == if c.error.None? then Pass else Fail(c.error.value)
    {
      ghost var added := NewToDoStep(Values(toDoList), parser.Fields(), lists.idCount, parse);
      ghost var before := toDoList;
      o := UpdateNewToDo(lists, parse);
      if o.Fail? {
        return;
      }
      assert added == Completion(Values(toDoList), None);

      o := UpdateTaskComplete();
    }
  }
}
