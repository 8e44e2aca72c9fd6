/**
 * What the To-Do program shows (To-Do/src/main/java/view/ToDoDisplay.java): the tasks,
 * passed through the filters and sorts the command line asks for. The streams become a
 * filter and a stable insertion sort on sequences; nothing is changed, and printing the
 * result is not part of this model.
 */
module ToDoView {
  import opened Wrappers
  import opened ToDoItem
  import ToDoParser

  /** The elements of `s` for which `p` holds, in their order. */
  function Filter<T>(s: seq<T>, p: T -> bool): (r: seq<T>)
    ensures |r| <= |s|
    ensures forall i :: 0 <= i < |r| ==> p(r[i])
  {
    if s == [] then []
    else Filter(s[..|s| - 1], p) + if p(s[|s| - 1]) then [s[|s| - 1]] else []
  }

  /** `r` is `s` with some elements left out, the rest in their order. */
  predicate IsSubsequence<T(==)>(r: seq<T>, s: seq<T>) {
    if r == [] then true
    else if s == [] then false
    else if r[|r| - 1] == s[|s| - 1] then IsSubsequence(r[..|r| - 1], s[..|s| - 1])
    else IsSubsequence(r, s[..|s| - 1])
  }

  /** Every sequence is a subsequence of itself. */
  lemma {:induction false} IsSubsequenceRefl<T>(s: seq<T>)
    ensures IsSubsequence(s, s)
  {
    if s != [] {
      IsSubsequenceRefl(s[..|s| - 1]);
    }
  }

  /** Dropping the last element of a subsequence leaves a subsequence. */
  lemma {:induction false} IsSubsequenceDropLast<T>(r: seq<T>, s: seq<T>)
    requires r != [] && IsSubsequence(r, s)
    ensures IsSubsequence(r[..|r| - 1], s)
  {
    var r' := r[..|r| - 1];
    var s' := s[..|s| - 1];
    if r[|r| - 1] == s[|s| - 1] {
      if r' != [] {
        IsSubsequenceDropLast(r', s');
      }
    } else {
      IsSubsequenceDropLast(r, s');
      if r' != [] && r'[|r'| - 1] == s[|s| - 1] {
        IsSubsequenceDropLast(r', s');
      }
    }
  }

  /** A subsequence of all but the last element of `s` is a subsequence of `s`. */
  lemma IsSubsequenceExtend<T>(r: seq<T>, s: seq<T>)
    requires s != [] && IsSubsequence(r, s[..|s| - 1])
    ensures IsSubsequence(r, s)
  {
    if r != [] && r[|r| - 1] == s[|s| - 1] {
      IsSubsequenceDropLast(r, s[..|s| - 1]);
    }
  }

  /** A subsequence of a subsequence of `c` is a subsequence of `c`. */
  lemma {:induction false} IsSubsequenceTrans<T>(a: seq<T>, b: seq<T>, c: seq<T>)
    requires IsSubsequence(a, b) && IsSubsequence(b, c)
    ensures IsSubsequence(a, c)
    decreases |c|
  {
    if a != [] {
      var a', b', c' := a[..|a| - 1], b[..|b| - 1], c[..|c| - 1];
      if b[|b| - 1] == c[|c| - 1] {
        if a[|a| - 1] == b[|b| - 1] {
          IsSubsequenceTrans(a', b', c');
        } else {
          IsSubsequenceTrans(a, b', c');
        }
      } else {
        IsSubsequenceTrans(a, b, c');
        IsSubsequenceExtend(a, c);
      }
    }
  }

  /** Filter keeps every element that satisfies `p` as often as it occurs, and no other. */
  lemma {:induction false} FilterCount<T>(s: seq<T>, p: T -> bool, x: T)
    ensures multiset(Filter(s, p))[x] == if p(x) then multiset(s)[x] else 0
  {
    if s != [] {
      var prefix, last := s[..|s| - 1], s[|s| - 1];
      assert s == prefix + [last];
      FilterCount(prefix, p, x);
    }
  }

  /** Filter keeps the order of the elements it keeps. */
  lemma {:induction false} FilterSubsequence<T>(s: seq<T>, p: T -> bool)
    ensures IsSubsequence(Filter(s, p), s)
  {
    if s != [] {
      var prefix, last := s[..|s| - 1], s[|s| - 1];
      var r := Filter(s, p);
      FilterSubsequence(prefix, p);
      if p(last) {
        assert r[..|r| - 1] == Filter(prefix, p);
        assert r[|r| - 1] == last;
      } else if r != [] {
        assert r == Filter(prefix, p);
        assert p(r[|r| - 1]);
        assert r[|r| - 1] != last;
      }
    }
  }

  /** The keys never decrease along `s`. */
  predicate SortedBy<T>(s: seq<T>, key: T -> int) {
    forall i, j :: 0 <= i < j < |s| ==> key(s[i]) <= key(s[j])
  }

  /** The elements of `s` whose key is `k`, in their order. */
  function WithKey<T>(s: seq<T>, key: T -> int, k: int): seq<T> {
    if s == [] then []
    else WithKey(s[..|s| - 1], key, k) + if key(s[|s| - 1]) == k then [s[|s| - 1]] else []
  }

  lemma WithKeySnoc<T>(s: seq<T>, y: T, key: T -> int, k: int)
    ensures WithKey(s + [y], key, k) == WithKey(s, key, k) + if key(y) == k then [y] else []
  {
    assert (s + [y])[..|s|] == s;
  }

  /** `x` placed after every element of `r` whose key is not larger. */
  function Insert<T>(r: seq<T>, x: T, key: T -> int): (result: seq<T>)
    ensures |result| == |r| + 1
  {
    if r == [] || key(r[|r| - 1]) <= key(x) then r + [x]
    else Insert(r[..|r| - 1], x, key) + [r[|r| - 1]]
  }

  /** Stable insertion sort by key: what `sorted(Comparator.comparing(key))` does to a stream. */
  function SortBy<T>(s: seq<T>, key: T -> int): (r: seq<T>)
    ensures |r| == |s|
  {
    if s == [] then [] else Insert(SortBy(s[..|s| - 1], key), s[|s| - 1], key)
  }

  lemma {:induction false} InsertCount<T>(r: seq<T>, x: T, key: T -> int)
    ensures multiset(Insert(r, x, key)) == multiset(r) + multiset{x}
  {
    if r != [] && key(r[|r| - 1]) > key(x) {
      var prefix, last := r[..|r| - 1], r[|r| - 1];
      assert r == prefix + [last];
      InsertCount(prefix, x, key);
    }
  }

  lemma {:induction false} InsertSorted<T>(r: seq<T>, x: T, key: T -> int)
    requires SortedBy(r, key)
    ensures SortedBy(Insert(r, x, key), key)
  {
    var result := Insert(r, x, key);
    if r != [] && key(r[|r| - 1]) > key(x) {
      var prefix, last := r[..|r| - 1], r[|r| - 1];
      assert r == prefix + [last];
      InsertSorted(prefix, x, key);
      InsertCount(prefix, x, key);
      var inserted := Insert(prefix, x, key);
      assert result == inserted + [last];
      forall i, j | 0 <= i < j < |result| ensures key(result[i]) <= key(result[j]) {
        if j == |result| - 1 {
          var y := result[i];
          assert y == inserted[i];
          assert y in multiset(inserted);
          if y != x {
            assert y in multiset(prefix);
            assert y in prefix;
          }
        }
      }
    }
  }

  /** Inserting puts `x` after every element of its key that was already there. */
  lemma {:induction false} InsertWithKey<T>(r: seq<T>, x: T, key: T -> int, k: int)
    ensures WithKey(Insert(r, x, key), key, k) == WithKey(r, key, k) + if key(x) == k then [x] else []
  {
    if r == [] || key(r[|r| - 1]) <= key(x) {
      WithKeySnoc(r, x, key, k);
    } else {
      var prefix, last := r[..|r| - 1], r[|r| - 1];
      assert r == prefix + [last];
      InsertWithKey(prefix, x, key, k);
      WithKeySnoc(Insert(prefix, x, key), last, key, k);
      WithKeySnoc(prefix, last, key, k);
    }
  }

  /** The sort orders by key. */
  lemma {:induction false} SortBySorted<T>(s: seq<T>, key: T -> int)
    ensures SortedBy(SortBy(s, key), key)
  {
    if s != [] {
      SortBySorted(s[..|s| - 1], key);
      InsertSorted(SortBy(s[..|s| - 1], key), s[|s| - 1], key);
    }
  }

  /** The sort keeps every element as often as it occurs. */
  lemma {:induction false} SortByCount<T>(s: seq<T>, key: T -> int)
    ensures multiset(SortBy(s, key)) == multiset(s)
  {
    if s != [] {
      var prefix := s[..|s| - 1];
      assert s == prefix + [s[|s| - 1]];
      SortByCount(prefix, key);
      InsertCount(SortBy(prefix, key), s[|s| - 1], key);
    }
  }

  /** The sort keeps the elements of equal key in their original order. */
  lemma {:induction false} SortByStable<T>(s: seq<T>, key: T -> int, k: int)
    ensures WithKey(SortBy(s, key), key, k) == WithKey(s, key, k)
  {
    if s != [] {
      SortByStable(s[..|s| - 1], key, k);
      InsertWithKey(SortBy(s[..|s| - 1], key), s[|s| - 1], key, k);
    }
  }

  /** A date as a number that orders dates as LocalDate.compareTo does. */
  function DateKey(d: Date): int {
    d.year * 416 + d.month * 32 + d.day
  }

  lemma DateKeyOrder(a: Date, b: Date)
    ensures DateKey(a) <= DateKey(b) <==> AtOrBefore(a, b)
    ensures DateKey(a) == DateKey(b) <==> a == b
  {
  }

  predicate HasDueDate(t: ToDo) {
    t.dueDate.Some?
  }

  predicate HasPriority(t: ToDo) {
    t.priority.Some?
  }

  function DueKey(t: ToDo): int {
    if t.dueDate.Some? then DateKey(t.dueDate.value) else 0
  }

  function PriorityKey(t: ToDo): int {
    if t.priority.Some? then t.priority.value else 0
  }

  predicate InCategory(t: ToDo, category: Option<string>) {
    t.category.Some? && t.category == category
  }

  /** filterByCategory: the tasks that have a category and whose category is `category`. */
  function FilterByCategory(list: seq<ToDo>, category: Option<string>): seq<ToDo> {
    Filter(list, (t: ToDo) => InCategory(t, category))
  }

  /**
   * filterByIncomplete: the tasks that are not completed. `completed` is a mutable field
   * of the task objects, so the test reads the heap; `Filter` takes a function that reads
   * nothing, so it cannot be reused here and the same recursion is written out with a
   * `reads list` clause.
   */
  function FilterByIncomplete(list: seq<ToDo>): (r: seq<ToDo>)
    reads list
    ensures |r| <= |list|
    ensures forall i :: 0 <= i < |r| ==> !r[i].completed
  {
    if list == [] then []
    else
      var prefix := list[..|list| - 1];
      var last := list[|list| - 1];
      FilterByIncomplete(prefix) + if !last.completed then [last] else []
  }

  /** filterByIncomplete keeps exactly the tasks that are not completed, each as often as it occurs. */
  lemma {:induction false} FilterByIncompleteCount(list: seq<ToDo>, t: ToDo)
    ensures multiset(FilterByIncomplete(list))[t] == if !t.completed then multiset(list)[t] else 0
  {
    if list != [] {
      var prefix, last := list[..|list| - 1], list[|list| - 1];
      assert list == prefix + [last];
      FilterByIncompleteCount(prefix, t);
    }
  }

  /** filterByIncomplete keeps the order of the tasks it keeps. */
  lemma {:induction false} FilterByIncompleteSubsequence(list: seq<ToDo>)
    ensures IsSubsequence(FilterByIncomplete(list), list)
  {
    if list != [] {
      var prefix, last := list[..|list| - 1], list[|list| - 1];
      var r := FilterByIncomplete(list);
      FilterByIncompleteSubsequence(prefix);
      if !last.completed {
        assert r[..|r| - 1] == FilterByIncomplete(prefix);
        assert r[|r| - 1] == last;
      } else if r != [] {
        assert r == FilterByIncomplete(prefix);
        assert !r[|r| - 1].completed;
        assert r[|r| - 1] != last;
      }
    }
  }

  /** sortByDate: the tasks with a due date, earliest first, stably. */
  function SortByDate(list: seq<ToDo>): seq<ToDo> {
    SortBy(Filter(list, HasDueDate), DueKey)
  }

  /** sortByPriority: the tasks with a priority, highest (1) first, stably. */
  function SortByPriority(list: seq<ToDo>): seq<ToDo> {
    SortBy(Filter(list, HasPriority), PriorityKey)
  }

  /** filterByCategory keeps, in order, exactly the tasks of the category. */
  lemma FilterByCategoryMeaning(list: seq<ToDo>, category: Option<string>, t: ToDo)
    ensures multiset(FilterByCategory(list, category))[t] == if InCategory(t, category) then multiset(list)[t] else 0
    ensures IsSubsequence(FilterByCategory(list, category), list)
  {
    FilterCount(list, (t: ToDo) => InCategory(t, category), t);
    FilterSubsequence(list, (t: ToDo) => InCategory(t, category));
  }

  /** sortByDate drops the tasks without a due date and keeps the others as often as they occur. */
  lemma SortByDateCount(list: seq<ToDo>, t: ToDo)
    ensures multiset(SortByDate(list))[t] == if t.dueDate.Some? then multiset(list)[t] else 0
  {
    SortByCount(Filter(list, HasDueDate), DueKey);
    FilterCount(list, HasDueDate, t);
  }

  /** Every task has a due date, and the dates never go back in time along the list. */
  predicate ChronologicallyOrdered(r: seq<ToDo>) {
    forall i, j :: 0 <= i < j < |r| ==>
      r[i].dueDate.Some? && r[j].dueDate.Some? && AtOrBefore(r[i].dueDate.value, r[j].dueDate.value)
  }

  /** Every task has a priority, and the priorities never decrease along the list. */
  predicate PriorityOrdered(r: seq<ToDo>) {
    forall i, j :: 0 <= i < j < |r| ==>
      r[i].priority.Some? && r[j].priority.Some? && r[i].priority.value <= r[j].priority.value
  }

  /** sortByDate puts the tasks in chronological order of their due dates. */
  lemma SortByDateOrder(list: seq<ToDo>)
    ensures ChronologicallyOrdered(SortByDate(list))
  {
    var kept := Filter(list, HasDueDate);
    var r := SortByDate(list);
    SortByCount(kept, DueKey);
    SortBySorted(kept, DueKey);
    forall i | 0 <= i < |r| ensures r[i].dueDate.Some? {
      assert r[i] in multiset(kept);
    }
    forall i, j | 0 <= i < j < |r| ensures AtOrBefore(r[i].dueDate.value, r[j].dueDate.value) {
      DateKeyOrder(r[i].dueDate.value, r[j].dueDate.value);
    }
  }

  /** sortByDate keeps the tasks due on the same day in their order. */
  lemma SortByDateStable(list: seq<ToDo>, d: Date)
    ensures WithKey(SortByDate(list), DueKey, DateKey(d)) == WithKey(Filter(list, HasDueDate), DueKey, DateKey(d))
  {
    SortByStable(Filter(list, HasDueDate), DueKey, DateKey(d));
  }

  /** sortByPriority drops the tasks without a priority and keeps the others as often as they occur. */
  lemma SortByPriorityCount(list: seq<ToDo>, t: ToDo)
    ensures multiset(SortByPriority(list))[t] == if t.priority.Some? then multiset(list)[t] else 0
  {
    SortByCount(Filter(list, HasPriority), PriorityKey);
    FilterCount(list, HasPriority, t);
  }

  /** sortByPriority puts the tasks in order of priority, highest (1) first. */
  lemma SortByPriorityOrder(list: seq<ToDo>)
    ensures PriorityOrdered(SortByPriority(list))
  {
    var kept := Filter(list, HasPriority);
    var r := SortByPriority(list);
    SortByCount(kept, PriorityKey);
    SortBySorted(kept, PriorityKey);
    forall i | 0 <= i < |r| ensures r[i].priority.Some? {
      assert r[i] in multiset(kept);
    }
  }

  /** sortByPriority keeps the tasks of equal priority in their order. */
  lemma SortByPriorityStable(list: seq<ToDo>, k: int)
    ensures WithKey(SortByPriority(list), PriorityKey, k) == WithKey(Filter(list, HasPriority), PriorityKey, k)
  {
    SortByStable(Filter(list, HasPriority), PriorityKey, k);
  }

  /** Whether a task passes every filter and sort the command line asks for. */
  ghost predicate Shown(parser: ToDoParser.CommandLineParser, t: ToDo)
    reads parser, t
  {
    && (parser.HasOption(ToDoParser.ShowIncomplete) ==> !t.completed)
    && (parser.HasOption(ToDoParser.ShowCategory) ==> InCategory(t, parser.categoryDisplay))
    && (parser.HasOption(ToDoParser.SortByDate) ==> t.dueDate.Some?)
    && (parser.HasOption(ToDoParser.SortByPriority) ==> t.priority.Some?)
  }

  /** ToDoDisplay: the tasks it was made with, which it never changes. */
  class ToDoDisplay {
    const toDos: seq<ToDo>

    constructor (toDos: seq<ToDo>)
      ensures this.toDos == toDos
    {
      this.toDos := toDos;
    }

    function DisplayFilterByIncomplete(parser: ToDoParser.CommandLineParser, list: seq<ToDo>): seq<ToDo>
      reads parser, list
    {
      if parser.HasOption(ToDoParser.ShowIncomplete) then FilterByIncomplete(list) else list
    }

    function DisplayFilterByCategory(parser: ToDoParser.CommandLineParser, list: seq<ToDo>): seq<ToDo>
      reads parser
    {
      if parser.HasOption(ToDoParser.ShowCategory) then FilterByCategory(list, parser.categoryDisplay) else list
    }

    function DisplaySortByDate(parser: ToDoParser.CommandLineParser, list: seq<ToDo>): seq<ToDo>
      reads parser
    {
      if parser.HasOption(ToDoParser.SortByDate) then SortByDate(list) else list
    }

    function DisplaySortByPriority(parser: ToDoParser.CommandLineParser, list: seq<ToDo>): seq<ToDo>
      reads parser
    {
      if parser.HasOption(ToDoParser.SortByPriority) then SortByPriority(list) else list
    }

    /**
     * displayManager: without --display the tasks as they are; with it, the incomplete
     * filter, the category filter, the date sort and the priority sort, each only when
     * its option was given.
     */
    function DisplayManager(parser: ToDoParser.CommandLineParser): (r: seq<ToDo>)
      reads parser, toDos
      ensures !parser.HasOption(ToDoParser.Display) ==> r == toDos
      ensures |r| <= |toDos|
    {
      if parser.HasOption(ToDoParser.Display) then
        var displayIncomplete := DisplayFilterByIncomplete(parser, toDos);
        var displayCategory := DisplayFilterByCategory(parser, displayIncomplete);
        var sortDate := DisplaySortByDate(parser, displayCategory);
        DisplaySortByPriority(parser, sortDate)
      else toDos
    }
  }

  /**
   * With --display, a task is shown exactly when it passes every requested filter, and then
   * as often as it is in the list.
   */
  lemma DisplayManagerCount(display: ToDoDisplay, parser: ToDoParser.CommandLineParser, t: ToDo)
    requires parser.HasOption(ToDoParser.Display)
    ensures multiset(display.DisplayManager(parser))[t] == if Shown(parser, t) then multiset(display.toDos)[t] else 0
  {
    var s1 := display.DisplayFilterByIncomplete(parser, display.toDos);
    var s2 := display.DisplayFilterByCategory(parser, s1);
    var s3 := display.DisplaySortByDate(parser, s2);
    FilterByIncompleteCount(display.toDos, t);
    FilterByCategoryMeaning(s1, parser.categoryDisplay, t);
    SortByDateCount(s2, t);
    SortByPriorityCount(s3, t);
  }

  /**
   * With --display, a priority sort orders what is shown by priority, and a date sort
   * without one orders it by due date.
   */
  lemma DisplayManagerOrder(display: ToDoDisplay, parser: ToDoParser.CommandLineParser)
    requires parser.HasOption(ToDoParser.Display)
    ensures parser.HasOption(ToDoParser.SortByPriority) ==> PriorityOrdered(display.DisplayManager(parser))
    ensures parser.HasOption(ToDoParser.SortByDate) && !parser.HasOption(ToDoParser.SortByPriority) ==>
              ChronologicallyOrdered(display.DisplayManager(parser))
  {
    var s1 := display.DisplayFilterByIncomplete(parser, display.toDos);
    var s2 := display.DisplayFilterByCategory(parser, s1);
    var s3 := display.DisplaySortByDate(parser, s2);
    var r := display.DisplayManager(parser);
    if parser.HasOption(ToDoParser.SortByPriority) {
      assert r == SortByPriority(s3);
      SortByPriorityOrder(s3);
    } else if parser.HasOption(ToDoParser.SortByDate) {
      assert r == SortByDate(s2);
      SortByDateOrder(s2);
    }
  }

  /**
   * With --display and neither sort, the tasks shown keep the order they have in the
   * list: the filters only remove tasks.
   */
  lemma DisplayManagerKeepsOrder(display: ToDoDisplay, parser: ToDoParser.CommandLineParser)
    requires parser.HasOption(ToDoParser.Display)
    requires !parser.HasOption(ToDoParser.SortByDate) && !parser.HasOption(ToDoParser.SortByPriority)
    ensures IsSubsequence(display.DisplayManager(parser), display.toDos)
  {
    var s1 := display.DisplayFilterByIncomplete(parser, display.toDos);
    var s2 := display.DisplayFilterByCategory(parser, s1);
    if parser.HasOption(ToDoParser.ShowIncomplete) {
      FilterByIncompleteSubsequence(display.toDos);
    } else {
      IsSubsequenceRefl(display.toDos);
    }
    if parser.HasOption(ToDoParser.ShowCategory) && s1 != [] {
      FilterByCategoryMeaning(s1, parser.categoryDisplay, s1[0]);
    } else {
      IsSubsequenceRefl(s1);
    }
    IsSubsequenceTrans(s2, s1, display.toDos);
  }
}
