/**
 * The command line of the To-Do program (To-Do/src/main/java/controller/CommandLineParser.java):
 * the arguments are scanned into a map from option names to their values, then checked
 * and copied into the fields the rest of the program reads.
 */
module ToDoParser {
  import opened Wrappers

  /**
   * Option names. The constants class that defines them is not part of this model: the
   * names of the usage text are used, and the few it does not show are written the same way.
   */
  const AddToDo: string := "--add-todo"
  const ToDoText: string := "--todo-text"
  const CsvFile: string := "--csv-file"
  const Due: string := "--due"
  const Completed: string := "--completed"
  const Priority: string := "--priority"
  const CompleteToDo: string := "--complete-todo"
  const SortByDate: string := "--sort-by-date"
  const SortByPriority: string := "--sort-by-priority"
  const Category: string := "--category"
  const Display: string := "--display"
  const ShowIncomplete: string := "--show-incomplete"
  const ShowCategory: string := "--show-category"

  /** The prefix that makes an argument an option. */
  const OptionPrefix: string := "--"

  predicate IsOptionArg(arg: string) {
    |OptionPrefix| <= |arg| && arg[..|OptionPrefix|] == OptionPrefix
  }

  /** The recognised options: each name and whether it takes an argument. */
  type Options = map<string, bool>

  /** The options Config registers. */
  const ConfigOptions: Options := map[
    AddToDo := false, ToDoText := true, CsvFile := true, Due := true, Completed := false,
    Priority := true, CompleteToDo := true, SortByDate := false, SortByPriority := false,
    Category := true, Display := false, ShowIncomplete := false, ShowCategory := true]

  /** The two exceptions of the parser, with the condition behind each InvalidArgumentException. */
  datatype ParseError =
    | NoArguments                               // args[0] of an empty array
    | InvalidArgument(problem: ArgumentProblem)
    | InvalidPair                               // --add-todo without --todo-text

  datatype ArgumentProblem =
    | NoLeadingOption
    | UnrecognizedOption
    | SortsCombined
    | RequiredOptionMissing
    | MissingArgument
    | TakesNoArgument

  /** An Option of the map: whether it takes an argument, and the values this parse gave it. */
  datatype OptionEntry = OptionEntry(hasArg: bool, values: seq<string>)

  type OptionMap = map<string, OptionEntry>

  /** The state of parse's loop: the map, the option last seen, and the exception if one was thrown. */
  datatype Scan = Scan(optionMap: OptionMap, current: Option<string>, error: Option<ParseError>)

  /**
   * One argument of parse's loop. An option must be recognised; it becomes the current
   * option and enters the map (an option seen again keeps its values, being the same
   * Option object). Any other argument is appended to the values of the current option.
   */
  function ScanStep(st: Scan, arg: string, options: Options): Scan {
    if st.error.Some? then st
    else if IsOptionArg(arg) then
      if arg !in options then st.(error := Some(InvalidArgument(UnrecognizedOption)))
      else
        var entry := if arg in st.optionMap then st.optionMap[arg] else OptionEntry(options[arg], []);
        Scan(st.optionMap[arg := entry], Some(arg), None)
    else if st.current.Some? && st.current.value in st.optionMap then
      var entry := st.optionMap[st.current.value];
      st.(optionMap := st.optionMap[st.current.value := entry.(values := entry.values + [arg])])
    else st
  }

  function ScanArgs(args: seq<string>, options: Options): Scan {
    if args == [] then Scan(map[], None, None)
    else ScanStep(ScanArgs(args[..|args| - 1], options), args[|args| - 1], options)
  }

  /** parse: the first argument must exist and be an option; then every argument is scanned. */
  function ParseArgs(args: seq<string>, options: Options): Scan {
    if |args| == 0 then Scan(map[], None, Some(NoArguments))
    else if !IsOptionArg(args[0]) then Scan(map[], None, Some(InvalidArgument(NoLeadingOption)))
    else ScanArgs(args, options)
  }

  /** The last option among the arguments. */
  function LatestOption(args: seq<string>): Option<string> {
    if args == [] then None
    else if IsOptionArg(args[|args| - 1]) then Some(args[|args| - 1])
    else LatestOption(args[..|args| - 1])
  }

  /** The arguments, in order, that are not options and whose latest preceding option is `opt`. */
  function ValuesAfter(args: seq<string>, opt: string): seq<string> {
    if args == [] then []
    else
      var prefix := args[..|args| - 1];
      var arg := args[|args| - 1];
      if !IsOptionArg(arg) && LatestOption(prefix) == Some(opt) then ValuesAfter(prefix, opt) + [arg]
      else ValuesAfter(prefix, opt)
  }

  /** Every option argument is recognised. */
  predicate AllRecognized(args: seq<string>, options: Options) {
    forall i :: 0 <= i < |args| && IsOptionArg(args[i]) ==> args[i] in options
  }

  /** A scan without an exception that records exactly what the arguments say. */
  ghost predicate Describes(st: Scan, args: seq<string>, options: Options) {
    && st.error.None?
    && st.current == LatestOption(args)
    && (forall opt :: opt in st.optionMap <==> opt in args && IsOptionArg(opt))
    && (forall opt :: opt in st.optionMap ==> opt in options && st.optionMap[opt] == OptionEntry(options[opt], ValuesAfter(args, opt)))
  }

  /**
   * Scanning succeeds exactly when every option argument is recognised; then the map holds
   * the options given, each with the values that followed it, and the current option is
   * the latest one.
   */
  lemma {:induction false} ScanArgsMeaning(args: seq<string>, options: Options)
    ensures var st := ScanArgs(args, options);
            && (st.error.None? <==> AllRecognized(args, options))
            && (st.error.Some? ==> st.error == Some(InvalidArgument(UnrecognizedOption)))
            && (st.error.None? ==> Describes(st, args, options))
  {
    if args != [] {
      var prefix := args[..|args| - 1];
      var arg := args[|args| - 1];
      assert args == prefix + [arg];
      ScanArgsMeaning(prefix, options);
      RecognizedSnoc(prefix, arg, options);
      if AllRecognized(args, options) {
        ScanStepDescribes(ScanArgs(prefix, options), prefix, arg, options);
      }
    }
  }

  /** The arguments are all recognised when the earlier ones are and the last one is. */
  lemma RecognizedSnoc(args: seq<string>, arg: string, options: Options)
    ensures AllRecognized(args + [arg], options) <==> AllRecognized(args, options) && (IsOptionArg(arg) ==> arg in options)
  {
    var all := args + [arg];
    assert forall i :: 0 <= i < |args| ==> all[i] == args[i];
    assert all[|args|] == arg;
  }

  /** One recognised argument more keeps a scan describing its arguments. */
  lemma ScanStepDescribes(st: Scan, args: seq<string>, arg: string, options: Options)
    requires Describes(st, args, options)
    requires IsOptionArg(arg) ==> arg in options
    ensures Describes(ScanStep(st, arg, options), args + [arg], options)
  {
    var next := ScanStep(st, arg, options);
    var all := args + [arg];
    assert all[..|all| - 1] == args;
    assert forall opt :: opt in all <==> opt in args || opt == arg;
    LatestOptionIsGiven(args);
    if IsOptionArg(arg) {
      if arg !in args {
        ValuesAfterAbsent(args, arg);
      }
      forall opt | opt in next.optionMap
        ensures next.optionMap[opt] == OptionEntry(options[opt], ValuesAfter(all, opt))
      {
        assert ValuesAfter(all, opt) == ValuesAfter(args, opt);
      }
    } else {
      forall opt | opt in next.optionMap
        ensures next.optionMap[opt] == OptionEntry(options[opt], ValuesAfter(all, opt))
      {
        if st.current == Some(opt) {
          assert ValuesAfter(all, opt) == ValuesAfter(args, opt) + [arg];
        } else {
          assert ValuesAfter(all, opt) == ValuesAfter(args, opt);
        }
      }
    }
  }

  /** An option that was not given has no values. */
  lemma {:induction false} ValuesAfterAbsent(args: seq<string>, opt: string)
    requires opt !in args
    ensures ValuesAfter(args, opt) == []
  {
    if args != [] {
      var prefix := args[..|args| - 1];
      assert opt !in prefix;
      ValuesAfterAbsent(prefix, opt);
      LatestOptionIsGiven(prefix);
    }
  }

  /** The latest option is one of the arguments. */
  lemma {:induction false} LatestOptionIsGiven(args: seq<string>)
    ensures LatestOption(args).Some? ==> LatestOption(args).value in args && IsOptionArg(LatestOption(args).value)
  {
    if args != [] && !IsOptionArg(args[|args| - 1]) {
      LatestOptionIsGiven(args[..|args| - 1]);
    }
  }

  /**
   * parse succeeds exactly when there is a first argument, it is an option, and every
   * option is recognised; the failures are reported in that order.
   */
  lemma ParseArgsMeaning(args: seq<string>, options: Options)
    ensures var st := ParseArgs(args, options);
            && (|args| == 0 ==> st.error == Some(NoArguments))
            && (|args| > 0 && !IsOptionArg(args[0]) ==> st.error == Some(InvalidArgument(NoLeadingOption)))
            && (st.error.None? <==> |args| > 0 && IsOptionArg(args[0]) && AllRecognized(args, options))
            && (|args| > 0 && IsOptionArg(args[0]) && !AllRecognized(args, options) ==>
                  st.error == Some(InvalidArgument(UnrecognizedOption)))
            && (st.error.None? ==> st == ScanArgs(args, options))
  {
    ScanArgsMeaning(args, options);
  }

  /** getOptionValue: the first value of an option that takes an argument and has one. */
  function GetOptionValue(option: OptionEntry): (r: Result<string, ParseError>)
    ensures r.Success? <==> option.hasArg && |option.values| > 0
    ensures r.Success? ==> r.value == option.values[0]
    ensures !option.hasArg ==> r == Failure(InvalidArgument(TakesNoArgument))
    ensures option.hasArg && |option.values| == 0 ==> r == Failure(InvalidArgument(MissingArgument))
  {
    if option.hasArg then
      if |option.values| != 0 then Success(option.values[0])
      else Failure(InvalidArgument(MissingArgument))
    else Failure(InvalidArgument(TakesNoArgument))
  }

  /** getOptionValues: the whole value list, under the same conditions as getOptionValue. */
  function GetOptionValues(option: OptionEntry): (r: Result<seq<string>, ParseError>)
    ensures r.Success? <==> option.hasArg && |option.values| > 0
    ensures r.Success? ==> r.value == option.values
    ensures r.Failure? ==> GetOptionValue(option) == Failure(r.error)
  {
    if option.hasArg then
      if |option.values| != 0 then Success(option.values)
      else Failure(InvalidArgument(MissingArgument))
    else Failure(InvalidArgument(TakesNoArgument))
  }

  /** The value a setUp method stores for an option: null when the option is absent. */
  function OptionalValue(optionMap: OptionMap, opt: string): (r: Result<Option<string>, ParseError>)
    ensures opt !in optionMap ==> r == Success(None)
    ensures opt in optionMap ==> r == match GetOptionValue(optionMap[opt])
                                      case Success(v) => Success(Some(v))
                                      case Failure(e) => Failure(e)
  {
    if opt in optionMap then
      var v :- GetOptionValue(optionMap[opt]);
      Success(Some(v))
    else Success(None)
  }

  /** hasPairedOption: false without opt1, true with both, an exception with opt1 only. */
  function PairedOption(optionMap: OptionMap, opt1: string, opt2: string): (r: Result<bool, ParseError>)
    ensures r.Failure? <==> opt1 in optionMap && opt2 !in optionMap
    ensures r.Failure? ==> r.error == InvalidPair
    ensures r.Success? ==> (r.value <==> opt1 in optionMap)
  {
    if opt1 in optionMap then
      if opt2 in optionMap then Success(true) else Failure(InvalidPair)
    else Success(false)
  }

  /** The fields the parser fills in. */
  datatype Settings = Settings(
    csvPath: Option<string>, dueDate: Option<string>, textDescription: Option<string>,
    priority: Option<string>, categoryName: Option<string>, categoryDisplay: Option<string>,
    markComplete: Option<string>, completeID: Option<seq<string>>)

  /** The fields of a parser before isValidInput and the setUp methods have run. */
  const NoSettings: Settings := Settings(None, None, None, None, None, None, None, None)

  /** isValidInput: the sort options exclude each other, and the CSV option is required and has a value. */
  function ValidInput(optionMap: OptionMap): (r: Result<string, ParseError>)
    ensures SortByDate in optionMap && SortByPriority in optionMap ==> r == Failure(InvalidArgument(SortsCombined))
    ensures !(SortByDate in optionMap && SortByPriority in optionMap) && CsvFile !in optionMap ==>
              r == Failure(InvalidArgument(RequiredOptionMissing))
    ensures r.Success? ==> CsvFile in optionMap && GetOptionValue(optionMap[CsvFile]) == r
  {
    if SortByDate in optionMap && SortByPriority in optionMap then Failure(InvalidArgument(SortsCombined))
    else if CsvFile in optionMap then GetOptionValue(optionMap[CsvFile])
    else Failure(InvalidArgument(RequiredOptionMissing))
  }

  /** The text description setUpTextDescription stores: only when --add-todo comes with --todo-text. */
  function TextDescription(optionMap: OptionMap): Result<Option<string>, ParseError> {
    var paired :- PairedOption(optionMap, AddToDo, ToDoText);
    if paired then OptionalValue(optionMap, ToDoText) else Success(None)
  }

  /** The id list setUpCompleteId stores. */
  function CompleteIds(optionMap: OptionMap): Result<Option<seq<string>>, ParseError> {
    if CompleteToDo in optionMap then
      var ids :- GetOptionValues(optionMap[CompleteToDo]);
      Success(Some(ids))
    else Success(None)
  }

  /**
   * The constructor after parse: isValidInput, then the setUp methods in their order, the
   * first exception ending it. markComplete is never assigned.
   */
  function Configure(optionMap: OptionMap): Result<Settings, ParseError> {
    var csvPath :- ValidInput(optionMap);
    var text :- TextDescription(optionMap);
    var rest :- OptionalFields(optionMap);
    Success(rest.(csvPath := Some(csvPath), textDescription := text))
  }

  /** The setUp methods after setUpTextDescription, on a parser whose other fields are null. */
  function OptionalFields(optionMap: OptionMap): Result<Settings, ParseError> {
    var due :- OptionalValue(optionMap, Due);
    var priority :- OptionalValue(optionMap, Priority);
    var category :- OptionalValue(optionMap, Category);
    var ids :- CompleteIds(optionMap);
    var display :- OptionalValue(optionMap, ShowCategory);
    Success(NoSettings.(dueDate := due, priority := priority, categoryName := category,
                        completeID := ids, categoryDisplay := display))
  }

  /**
   * What a successful configuration holds: the CSV path; each optional field is null
   * exactly when its option is absent, and the first value otherwise; the text only with
   * --add-todo; the whole id list; never markComplete.
   */
  lemma ConfigureMeaning(optionMap: OptionMap)
    requires Configure(optionMap).Success?
    ensures var s := Configure(optionMap).value;
            && CsvFile in optionMap && s.csvPath == Some(optionMap[CsvFile].values[0])
            && !(SortByDate in optionMap && SortByPriority in optionMap)
            && (s.textDescription.Some? <==> AddToDo in optionMap)
            && (AddToDo in optionMap ==> ToDoText in optionMap && s.textDescription == Some(optionMap[ToDoText].values[0]))
            && (s.dueDate.None? <==> Due !in optionMap)
            && (s.dueDate.Some? ==> s.dueDate == Some(optionMap[Due].values[0]))
            && (s.priority.None? <==> Priority !in optionMap)
            && (s.priority.Some? ==> s.priority == Some(optionMap[Priority].values[0]))
            && (s.categoryName.None? <==> Category !in optionMap)
            && (s.categoryName.Some? ==> s.categoryName == Some(optionMap[Category].values[0]))
            && (s.categoryDisplay.None? <==> ShowCategory !in optionMap)
            && (s.categoryDisplay.Some? ==> s.categoryDisplay == Some(optionMap[ShowCategory].values[0]))
            && (s.completeID.None? <==> CompleteToDo !in optionMap)
            && (s.completeID.Some? ==> s.completeID == Some(optionMap[CompleteToDo].values))
            && s.markComplete.None?
  {
  }

  /**
   * The exceptions of the configuration step, in the order the constructor meets them:
   * the sort clash, the missing CSV option, a CSV option without a value, then
   * --add-todo without --todo-text.
   */
  lemma ConfigureFailures(optionMap: OptionMap)
    ensures SortByDate in optionMap && SortByPriority in optionMap ==>
              Configure(optionMap) == Failure(InvalidArgument(SortsCombined))
    ensures !(SortByDate in optionMap && SortByPriority in optionMap) && CsvFile !in optionMap ==>
              Configure(optionMap) == Failure(InvalidArgument(RequiredOptionMissing))
    ensures ValidInput(optionMap).Success? && AddToDo in optionMap && ToDoText !in optionMap ==>
              Configure(optionMap) == Failure(InvalidPair)
    ensures ValidInput(optionMap).Failure? ==> Configure(optionMap) == Failure(ValidInput(optionMap).error)
  {
  }

  /** The CommandLineParser constructor as a whole: parse, then Configure. */
  function Construct(args: seq<string>, options: Options): Result<Settings, ParseError> {
    var scan := ParseArgs(args, options);
    if scan.error.Some? then Failure(scan.error.value) else Configure(scan.optionMap)
  }

  /** The parser. */
  class CommandLineParser {
    const options: Options
    var optionMap: OptionMap
    var csvPath: Option<string>
    var dueDate: Option<string>
    var textDescription: Option<string>
    var priority: Option<string>
    var categoryName: Option<string>
    var categoryDisplay: Option<string>
    var markComplete: Option<string>
    var completeID: Option<seq<string>>

    function Fields(): Settings
      reads this
    {
      Settings(csvPath, dueDate, textDescription, priority, categoryName, categoryDisplay, markComplete, completeID)
    }

    /** The first two assignments of the constructor: the options and an empty map. */
    constructor Init(options: Options)
      ensures this.options == options && optionMap == map[] && Fields() == NoSettings
    {
      this.options := options;
      optionMap := map[];
      csvPath, dueDate, textDescription, priority := None, None, None, None;
      categoryName, categoryDisplay, markComplete, completeID := None, None, None, None;
    }

    /**
     * The constructor CommandLineParser(args, options): a parser whose map and fields are
     * those Construct describes, or the exception Construct describes.
     */
    static method Create(args: seq<string>, options: Options) returns (r: Result<CommandLineParser, ParseError>)
      ensures r.Success? <==> Construct(args, options).Success?
      ensures r.Failure? ==> r.error == Construct(args, options).error
      ensures r.Success? ==>
                && fresh(r.value) && r.value.options == options
                && r.value.optionMap == ParseArgs(args, options).optionMap
                && r.value.Fields() == Construct(args, options).value
    {
      var parser := new CommandLineParser.Init(options);
      var parsed := parser.Parse(args);
      if parsed.Fail? {
        return Failure(parsed.error);
      }
      var valid := parser.IsValidInput();
      if valid.Failure? {
        return Failure(valid.error);
      }
      var o := parser.SetUpTextDescription();
      if o.Fail? {
        return Failure(o.error);
      }
      o := parser.SetUpOptionalFields();
      if o.Fail? {
        return Failure(o.error);
      }
      r := Success(parser);
    }

    /** The calls setUpDueDate to setUpCategoryDisplay of the constructor, in order. */
    method SetUpOptionalFields() returns (o: Outcome<ParseError>)
      requires dueDate.None? && priority.None? && categoryName.None? && completeID.None? && categoryDisplay.None?
      requires markComplete.None?
      modifies this`dueDate, this`priority, this`categoryName, this`completeID, this`categoryDisplay
      ensures match OptionalFields(optionMap)
              case Success(s) => o == Pass && Fields() == s.(csvPath := csvPath, textDescription := textDescription)
              case Failure(e) => o == Fail(e)
    {
      o := SetUpDueDate();
      if o.Fail? {
        return;
      }
      o := SetUpPriority();
      if o.Fail? {
        return;
      }
      o := SetUpCategory();
      if o.Fail? {
        return;
      }
      o := SetUpCompleteId();
      if o.Fail? {
        return;
      }
      o := SetUpCategoryDisplay();
    }

    /** parse: the loop over the arguments, leaving in the map what ParseArgs describes. */
    method Parse(args: seq<string>) returns (o: Outcome<ParseError>)
      requires optionMap == map[]
      modifies this`optionMap
      ensures optionMap == ParseArgs(args, options).optionMap
      ensures o == if ParseArgs(args, options).error.Some? then Fail(ParseArgs(args, options).error.value) else Pass
    {
      if |args| == 0 {
        return Fail(NoArguments);
      }
      if !IsOptionArg(args[0]) {
        return Fail(InvalidArgument(NoLeadingOption));
      }
      var option: Option<string> := None;
      for i := 0 to |args|
        invariant ScanArgs(args[..i], options) == Scan(optionMap, option, None)
      {
        assert args[..i + 1][..i] == args[..i];
        var arg := args[i];
        if IsOptionArg(arg) {
          if arg !in options {
            ScanArgsStopsAtError(args, i + 1, options);
            return Fail(InvalidArgument(UnrecognizedOption));
          } else {
            var entry := if arg in optionMap then optionMap[arg] else OptionEntry(options[arg], []);
            option := Some(arg);
            optionMap := optionMap[arg := entry];
          }
        } else if option.Some? && option.value in optionMap {
          var entry := optionMap[option.value];
          optionMap := optionMap[option.value := entry.(values := entry.values + [arg])];
        }
      }
      assert args[..|args|] == args;
      o := Pass;
    }

    predicate HasOption(opt: string)
      reads this
    {
      opt in optionMap
    }

    predicate HasRequiredOptions()
      reads this
    {
      CsvFile in optionMap
    }

    function HasPairedOption(opt1: string, opt2: string): (r: Result<bool, ParseError>)
      reads this
      ensures r == PairedOption(optionMap, opt1, opt2)
    {
      if HasOption(opt1) then
        if HasOption(opt2) then Success(true) else Failure(InvalidPair)
      else Success(false)
    }

    predicate HasMutuallyExclusive(opt1: string, opt2: string)
      reads this
    {
      HasOption(opt1) && HasOption(opt2)
    }

    /** isValidInput: true with csvPath set to the CSV option's value, or the exception. */
    method IsValidInput() returns (r: Result<bool, ParseError>)
      modifies this`csvPath
      ensures r.Success? <==> ValidInput(optionMap).Success?
      ensures r.Failure? ==> r.error == ValidInput(optionMap).error && csvPath == old(csvPath)
      ensures r.Success? ==> r.value && csvPath == Some(ValidInput(optionMap).value)
    {
      if HasMutuallyExclusive(SortByDate, SortByPriority) {
        return Failure(InvalidArgument(SortsCombined));
      }
      if HasRequiredOptions() {
        var value := GetOptionValue(optionMap[CsvFile]);
        if value.Failure? {
          return Failure(value.error);
        }
        csvPath := Some(value.value);
        return Success(true);
      } else {
        return Failure(InvalidArgument(RequiredOptionMissing));
      }
    }

    method SetUpTextDescription() returns (o: Outcome<ParseError>)
      modifies this`textDescription
      ensures match TextDescription(optionMap)
              case Success(v) => o == Pass && textDescription == if v.Some? then v else old(textDescription)
              case Failure(e) => o == Fail(e) && textDescription == old(textDescription)
    {
      var paired := HasPairedOption(AddToDo, ToDoText);
      if paired.Failure? {
        return Fail(paired.error);
      }
      if paired.value {
        var value := GetOptionValue(optionMap[ToDoText]);
        if value.Failure? {
          return Fail(value.error);
        }
        textDescription := Some(value.value);
      }
      o := Pass;
    }

    /** The shared shape of setUpDueDate, setUpPriority, setUpCategory and setUpCategoryDisplay. */
    method OptionField(opt: string) returns (o: Outcome<ParseError>, value: Option<string>)
      ensures match OptionalValue(optionMap, opt)
              case Success(v) => o == Pass && value == v
              case Failure(e) => o == Fail(e) && value.None?
    {
      value := None;
      if HasOption(opt) {
        var v := GetOptionValue(optionMap[opt]);
        if v.Failure? {
          return Fail(v.error), None;
        }
        value := Some(v.value);
      }
      o := Pass;
    }

    method SetUpDueDate() returns (o: Outcome<ParseError>)
      modifies this`dueDate
      ensures match OptionalValue(optionMap, Due)
              case Success(v) => o == Pass && dueDate == if v.Some? then v else old(dueDate)
              case Failure(e) => o == Fail(e) && dueDate == old(dueDate)
    {
      var value;
      o, value := OptionField(Due);
      if value.Some? {
        dueDate := value;
      }
    }

    method SetUpPriority() returns (o: Outcome<ParseError>)
      modifies this`priority
      ensures match OptionalValue(optionMap, Priority)
              case Success(v) => o == Pass && priority == if v.Some? then v else old(priority)
              case Failure(e) => o == Fail(e) && priority == old(priority)
    {
      var value;
      o, value := OptionField(Priority);
      if value.Some? {
        priority := value;
      }
    }

    method SetUpCategory() returns (o: Outcome<ParseError>)
      modifies this`categoryName
      ensures match OptionalValue(optionMap, Category)
              case Success(v) => o == Pass && categoryName == if v.Some? then v else old(categoryName)
              case Failure(e) => o == Fail(e) && categoryName == old(categoryName)
    {
      var value;
      o, value := OptionField(Category);
      if value.Some? {
        categoryName := value;
      }
    }

    method SetUpCompleteId() returns (o: Outcome<ParseError>)
      modifies this`completeID
      ensures match CompleteIds(optionMap)
              case Success(v) => o == Pass && completeID == if v.Some? then v else old(completeID)
              case Failure(e) => o == Fail(e) && completeID == old(completeID)
    {
      if HasOption(CompleteToDo) {
        var values := GetOptionValues(optionMap[CompleteToDo]);
        if values.Failure? {
          return Fail(values.error);
        }
        completeID := Some(values.value);
      }
      o := Pass;
    }

    method SetUpCategoryDisplay() returns (o: Outcome<ParseError>)
      modifies this`categoryDisplay
      ensures match OptionalValue(optionMap, ShowCategory)
              case Success(v) => o == Pass && categoryDisplay == if v.Some? then v else old(categoryDisplay)
              case Failure(e) => o == Fail(e) && categoryDisplay == old(categoryDisplay)
    {
      var value;
      o, value := OptionField(ShowCategory);
      if value.Some? {
        categoryDisplay := value;
      }
    }
  }

  /** Once an argument has thrown, the arguments after it change nothing. */
  lemma {:induction false} ScanArgsStopsAtError(args: seq<string>, n: nat, options: Options)
    requires n <= |args| && ScanArgs(args[..n], options).error.Some?
    ensures ScanArgs(args, options) == ScanArgs(args[..n], options)
    decreases |args|
  {
    if n < |args| {
      var prefix := args[..|args| - 1];
      assert prefix[..n] == args[..n];
      ScanArgsStopsAtError(prefix, n, options);
    } else {
      assert args[..n] == args;
    }
  }
}
