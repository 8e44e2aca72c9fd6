# Checkers rules engine and To-Do command-line manager, modelled in Dafny

The repository holds two independent programs. This project models the core of each
and proves what their code promises.

**Checkers** (`Checkers/board.py`, `Checkers/gamestate.py`, `Checkers/botplayer.py`).
The board is a map from (column, row) squares to a colour, 'black' or 'dark red', with a
second map registering the kings.

- `CheckersBoard` states the geometry and the capture rules as functions over these two maps:
  - the starting layout;
  - relocation, with king migration;
  - the forward rule;
  - capture detection;
  - mandatory capture;
  - move generation.
- The class `CheckersBoard.Board` holds the dictionaries and the counters. Its methods fill and update them in loops, as the Python code does, and each method is proved equal to the functions.
- `CheckersBot` is the computer player. It splits the moves into capture and non-capture lists, prefers a capture, and picks one by an index.
- `CheckersGame` gathers the fields of `GameState` and its board in a `GameView` value. It specifies each click, move, capture, promotion, turn change and winner test as a function from view to view. It proves that a click keeps the board invariant: kings ⊆ pieces, every piece on a playable square, counters equal to the piece counts, score + pieces-left = 12. It also proves that a move changes the board only along a legal destination.
- The class `CheckersGame.GameState` carries out these steps on its fields and on the board. Each method is proved against its view function.

**To-Do** (`To-Do/src/main/java/...`).

- `ToDoNumerals`: `Integer.parseInt`, `Integer.toString` and `Boolean.parseBoolean` on decimal text.
- `ToDoItem`:
  - `ToDo`, with priority validation and the choice of date format;
  - `setCompleted` and `equals`;
  - the `Builder`, with its defaults and setters.
- `ToDoListing`: `ToDoList`, which maps "?" to null, skips the header row and hands out sequential ids from the static counter.
- `ToDoParser`: `CommandLineParser`. It scans the arguments into an option map, checks it, and sets up the fields.
- `ToDoView`: the filters and stable sorts of `ToDoDisplay`, and `displayManager`'s pipeline.
- `ToDoTasks`: `TaskManager`. It adds a task, or marks listed ids complete in order, on a list of mutable `ToDo` objects.

Dates are an ordered (year, month, day) value. `LocalDate.parse` is a parameter, `DateParser`.

Where the code and its documentation differ, the model follows the code:
- `capture_exists` always looks at 'black' moves, whatever the turn.
- `markTaskComplete(0)` is let through by the `id < 0` test and then fails in `get(-1)`. It is modelled as an `IndexOutOfBounds` error.
- `createToDo` increments `idCount` even when the build that follows throws.

The two defects listed under "## Findings" are the exception. Each is modelled as written,
with a lemma showing the defect, and `CheckersGame.GameState` runs the corrected behaviour.

## Model

| member | source | states |
|---|---|---|
| CheckersBoard.Shift | Checkers/board.py:285-311 | a move shifts one square, a capture two |
| CheckersBoard.KingTargets | Checkers/board.py:313-339 | exactly the four diagonal squares at the shift distance |
| CheckersBoard.OrdinaryTargets | Checkers/board.py:341-371 | exactly the two forward diagonal squares: row decreasing for 'black', increasing for 'dark red' |
| CheckersBoard.Targets | Checkers/board.py:313-371 | a king's candidates are all four diagonals, an ordinary piece's the two forward ones |
| CheckersBoard.MoveForward | Checkers/board.py:373-397 | false when the column is unchanged; otherwise true for a king, and for an ordinary piece true exactly when the row moves toward the opponent |
| CheckersBoard.CapturePieceColor | Checkers/board.py:399-417 | a colour exactly when the jumped square is off the outer ring and occupied and the landing square is empty; it is the jumped piece's colour |
| CheckersBoard.CanCapture | Checkers/board.py:476-516 | lists exactly the capture opportunities of an ordinary piece (opponent jumped, off the outer ring, empty landing, forward diagonal), with distinct landings |
| CheckersBoard.KingCanCapture | Checkers/board.py:419-474 | lists exactly the capture opportunities of a king along all four diagonals, with distinct landings |
| CheckersBoard.FindCaptureMoves | Checkers/board.py:567-593 | the captures of the piece, with king status read from the king map |
| CheckersBoard.CaptureLandingOnBoard | Checkers/board.py:419-516 | on a well-formed board a capture lands on an empty playable square and jumps an opponent |
| CheckersBoard.LandingIndex | Checkers/board.py:618-622 | the first position whose landing is the target, or none when no capture lands there |
| CheckersBoard.ValidDiagMove | Checkers/board.py:595-643 | with a capture available, accepted exactly at a capture landing and paired with that capture's jumped square; otherwise accepted exactly for a one-step allowed diagonal, with no capture |
| CheckersBoard.CaptureMap | Checkers/board.py:655-659 | keys are exactly the landings, each mapped to its own jumped square |
| CheckersBoard.ValidMovesForBotMeaning | Checkers/board.py:645-689 | every returned entry is an allowed destination with its capture, every allowed destination is returned, and no plain step is returned when a capture exists |
| CheckersBoard.AllMovesMeaning | Checkers/board.py:706-728 | the keys are exactly (from, to) for pieces of the colour and their allowed destinations, each mapped to its capture |
| CheckersBoard.AllMovesEmptyIff | Checkers/board.py:706-728 | empty exactly when no piece of the colour has a capture or an empty on-board step |
| CheckersBoard.StuckWithoutDestination | Checkers/board.py:645-689 | a piece without captures or empty steps has no allowed destination at all, and conversely |
| CheckersBoard.AllMovesStayOnBoard | Checkers/board.py:706-728 | every listed move starts on a piece of the colour, ends on an empty playable square, and captures an opponent |
| CheckersBoard.AllMovesOfPiece | Checkers/board.py:721-727 | the entries from one piece are exactly that piece's get_valid_moves_for_bot result |
| CheckersBoard.AllMovesFrom | Checkers/board.py:718-728 | every entry starts on a piece of the colour |
| CheckersBoard.RelocatedFrame | Checkers/board.py:262-266 | from is removed, to holds the colour, a king entry moves from from to to, and every other square is unchanged |
| CheckersBoard.RelocatedWellFormed | Checkers/board.py:249-266 | a relocation to an empty playable square keeps the board invariant, and a king stays a king |
| CheckersBoard.RelocatedRoundTrip | Checkers/board.py:249-266 | moving to an empty square and back restores both maps |
| CheckersBoard.PromotedWellFormed | Checkers/board.py:554-565 | registering a king on its own occupied square keeps the invariant |
| CheckersBoard.BoardSquaresIff | Checkers/board.py:691-704 | the board squares are exactly those with 0 <= col, row < 8 |
| CheckersBoard.StartingLayoutIff | Checkers/board.py:155-169 | the layout holds exactly the squares the starting rule colours, with that colour |
| CheckersBoard.StartingRow | Checkers/board.py:155-169 | each starting row holds exactly its four squares of matching parity |
| CheckersBoard.EveryStartingPieceInRow | Checkers/board.py:155-169 | the 'black' pieces are on rows 5-7 and the 'dark red' ones on rows 0-2 |
| CheckersBoard.StartingLayoutShape | Checkers/board.py:155-169 | 12 pieces per colour, 'black' exactly on rows 5-7, all with col%2 == row%2, no kings, well-formed |
| CheckersBoard.StartingCount | Checkers/board.py:155-169 | each colour has twelve starting pieces |
| CheckersBoard.StartingSquare | Checkers/board.py:155-169 | loop position (row, col) addresses (col+4, 3-row) and places a piece exactly on the rows and parity of the layout |
| CheckersBoard.StartingStep | Checkers/board.py:155-169 | one loop step adds exactly that square's starting piece |
| CheckersBoard.LayoutBeforeAll | Checkers/board.py:155-169 | after the two loops the whole starting layout is placed |
| CheckersBoard.Board.constructor | Checkers/board.py:68-78 | twelve pieces left per side, no kings, empty maps |
| CheckersBoard.Board.LocateStartingPieces | Checkers/board.py:140-169 | the loops leave the piece map equal to the starting layout |
| CheckersBoard.Board.UpdateCheckerLoc | Checkers/board.py:249-266 | the maps become the relocated placement and king registry |
| CheckersBoard.Board.MakeKingPiece | Checkers/board.py:554-565 | the king map gains the square with the colour, nothing else |
| CheckersBoard.Board.LocateRedOrBlackCheckers | Checkers/board.py:268-283 | exactly the squares of that colour, each once |
| CheckersBoard.Board.GetValidMovesForBot | Checkers/board.py:645-689 | the loop result equals ValidMovesForBot |
| CheckersBoard.Board.AllPossibleMoves | Checkers/board.py:706-728 | the loop result equals AllMoves |
| CheckersBoard.Board.AddMovesOfPiece | Checkers/board.py:718-728 | one outer step adds exactly that piece's entries of AllMoves and keeps the rest |
| CheckersBoard.RecordDestinations | Checkers/board.py:725-727 | the inner loop adds (from, to) -> capture for every destination and keeps the other entries |
| CheckersBot.SelectedMoveCoordinates | Checkers/botplayer.py:79-104 | the selection is a capture exactly when the capture list is non-empty |
| CheckersBot.SelectionIsListedMove | Checkers/botplayer.py:46-52 | after the two swaps cancel, (from, to) is a key of the moves with its own capture, and a capture is chosen whenever one exists |
| CheckersBot.SplitNonEmpty | Checkers/botplayer.py:94-103 | with at least one move, one of the two lists is non-empty |
| CheckersBot.BotPlayer.constructor | Checkers/botplayer.py:23-29 | the player holds the board |
| CheckersBot.BotPlayer.AllPossibleBotMoves | Checkers/botplayer.py:54-77 | captures and non-captures are split, swapped to (to, from), and the list lengths sum to the number of moves |
| CheckersBot.BotPlayer.BotMove | Checkers/botplayer.py:31-52 | the chosen move is a key of all_possible_moves('dark red') with its capture, a capture whenever one exists, and the board is not modified |
| CheckersGame.StartingViewValid | Checkers/gamestate.py:59-72 | the starting game satisfies the game invariant |
| CheckersGame.PiecesOfRemoved | Checkers/gamestate.py:316-330 | popping a square lowers only its colour's count by one |
| CheckersGame.PiecesOfRelocated | Checkers/board.py:249-266 | relocation keeps every colour's count |
| CheckersGame.NextTurnView | Checkers/gamestate.py:74-90 | the turn changes to the other colour |
| CheckersGame.TalliedCounters | Checkers/gamestate.py:134-149 | a 'dark red' capture adds to black_score and takes from red_left, any other adds to red_score and takes from black_left, and score + left per side is kept |
| CheckersGame.BlockedMeaning | Checkers/gamestate.py:264-276 | a side is blocked exactly when none of its pieces has a destination under the rules, neither a capture nor a step onto an empty playable square |
| CheckersGame.DestinationOnBoard | Checkers/board.py:595-643 | an allowed destination is an empty playable square, and a capture jumps an opponent |
| CheckersGame.CaptureHandledKeepsBoard | Checkers/gamestate.py:316-330 | the capture keeps the board invariant and lowers only the captured colour's count |
| CheckersGame.RelocationKeepsBoard | Checkers/gamestate.py:332-348 | moving the piece keeps the invariant and every count |
| CheckersGame.KingHandledKeepsBoard | Checkers/gamestate.py:350-367 | promotion keeps the invariant and the pieces |
| CheckersGame.MovedKeepsBoard | Checkers/gamestate.py:332-348 | a legal move keeps the invariant, puts the piece on to, clears from, and removes exactly the captured piece |
| CheckersGame.MovedKeepsSelection | Checkers/gamestate.py:332-348 | a move leaves the turn, piece_from and next_capture as they were |
| CheckersGame.AcceptedMoveIsDestination | Checkers/gamestate.py:239-250 | a move valid_diag_move accepts onto an empty board square is an allowed destination with that capture |
| CheckersGame.TurnEndKeepsValid | Checkers/gamestate.py:168-191 | the turn end keeps the pieces and the invariant, and a continuing game has no selection |
| CheckersGame.MoveMadeKeepsValid | Checkers/gamestate.py:251-262 | a legal move followed by the continuation or the turn end keeps the invariant |
| CheckersGame.SecondClickCases | Checkers/gamestate.py:225-262 | a second click is refused without changing the board, or is exactly the move valid_diag_move accepted |
| CheckersGame.MoveMadeBoard | Checkers/gamestate.py:251-262 | after a move the board is the moved board, and the outcome is a continuation or a turn end |
| CheckersGame.SecondClickKeepsValid | Checkers/gamestate.py:225-262 | a second click on an empty square keeps the invariant |
| CheckersGame.ClickKeepsValid | Checkers/gamestate.py:193-262 | every click keeps the board invariant, and the full game invariant unless the game is over |
| CheckersGame.ClickMovesLegally | Checkers/gamestate.py:193-262 | a click that changes the board is a second click making an allowed move of the selected piece, a capture when the piece has one |
| CheckersGame.FirstClickSelects | Checkers/gamestate.py:216-223 | piece_from is set exactly when the square holds a piece of the side to move; otherwise only the clicked square is recorded |
| CheckersGame.SecondClickGates | Checkers/gamestate.py:229-237 | a target outside the capture landings is refused when captures exist; a target other than next_capture is refused and clears piece_to |
| CheckersGame.ContinuationIsCapture | Checkers/gamestate.py:254-260 | a continuing capture keeps the turn, moves piece_from to the landing, and sets next_capture to a further landing |
| CheckersGame.MoveMadeContinuation | Checkers/gamestate.py:251-260 | a continuation happens only after a capture, with next_capture being one of the piece's further capture landings |
| CheckersGame.TurnEndMeaning | Checkers/gamestate.py:180-191 | with no winner the turn passes and the new side has moves; otherwise the loser is blocked or has no pieces, and the state is kept |
| CheckersGame.LeftCounterMeaning | Checkers/gamestate.py:180-191 | a pieces-left counter is <= 0 exactly when that colour has no piece |
| CheckersGame.StaleKingStartValid | Checkers/gamestate.py:327-330 | the example position is valid, and the capture in it is legal |
| CheckersGame.StaleKingAsWritten | Checkers/gamestate.py:327-330 | as written, a capture leaves a king entry on the emptied square and breaks kings ⊆ pieces |
| CheckersGame.StaleEntryCrownsArrival | Checkers/gamestate.py:327-330 | a stale king entry crowns the next ordinary piece that arrives there |
| CheckersGame.CaptureClearsKingEntry | Checkers/gamestate.py:316-330 | corrected, a capture removes the jumped square from both maps and keeps the board well formed |
| CheckersGame.StuckBotValid | Checkers/gamestate.py:168-191 | the example position is valid |
| CheckersGame.StuckBotRedBlocked | Checkers/gamestate.py:168-191 | in the example 'dark red' has no move |
| CheckersGame.StuckBotBlackMoves | Checkers/gamestate.py:168-191 | in the example 'black' still has moves |
| CheckersGame.WinnerAsWrittenMissesStuckBot | Checkers/gamestate.py:180-191 | as written, the winner test finds no winner after 'black' moves, although 'dark red', next to move, is blocked |
| CheckersGame.CaptureLandingList | Checkers/gamestate.py:407-423 | the collected list holds exactly the landings of capture moves |
| CheckersGame.GameState.constructor | Checkers/gamestate.py:59-72 | the given turn, 'black' by default; zero scores and king counts, no selection, the board's maps and counters |
| CheckersGame.GameState.NextTurn | Checkers/gamestate.py:74-90 | the turn flips, the selection and next_capture are cleared, and the bot is scheduled after 'black' |
| CheckersGame.GameState.KeepScoreAndPieceCount | Checkers/gamestate.py:134-149 | the counters change as Tallied states |
| CheckersGame.GameState.Winner | Checkers/gamestate.py:168-191 | the state and outcome are those of the turn end |
| CheckersGame.GameState.ResetMove | Checkers/gamestate.py:278-287 | clears piece_from and piece_to, nothing else |
| CheckersGame.GameState.HandleCaptureMove | Checkers/gamestate.py:316-330 | the captured piece is removed and the counters are tallied |
| CheckersGame.GameState.HandleKingPiece | Checkers/gamestate.py:350-367 | 'black' on row 0 or 'dark red' on row 7 is crowned and its side's king count goes up |
| CheckersGame.GameState.MoveAndUpdatePiece | Checkers/gamestate.py:332-348 | capture, relocation and promotion, in that order |
| CheckersGame.GameState.HandleBotMove | Checkers/gamestate.py:394-405 | the bot's move applied as Moved with 'dark red' |
| CheckersGame.GameState.CaptureExists | Checkers/gamestate.py:407-423 | exactly the landings of 'black' capture moves |
| CheckersGame.GameState.MoveCheckerPiece | Checkers/gamestate.py:193-262 | the click as Click specifies it, keeping the game invariant |
| CheckersGame.GameState.HandleSecondClick | Checkers/gamestate.py:225-262 | the second click as SecondClick specifies it |
| CheckersGame.GameState.MakeMove | Checkers/gamestate.py:251-262 | the move, then the continuation or the turn end |
| CheckersGame.BotContinued | Checkers/gamestate.py:381-391 | the forced continuation ends on a 'dark red' piece with no capture left, keeps the board valid, loses no 'dark red' piece and never adds a 'black' one |
| CheckersGame.GameState.BotPlayer | Checkers/gamestate.py:369-392 | the state and outcome are BotTurn of a move of all_possible_moves('dark red'), a capture whenever one exists; the board stays valid, no 'dark red' piece is lost, a capture lowers black_left, and a continuing game passes to 'black' with moves |
| ToDoNumerals.DigitValue | To-Do/src/main/java/controller/TaskManager.java:44 | a digit's value is below ten |
| ToDoNumerals.DigitChar | To-Do/src/main/java/model/ToDoList.java:64 | the digit written for a value below ten reads back as that value |
| ToDoNumerals.ParseInt | To-Do/src/main/java/controller/TaskManager.java:44 | a parsed number is within the 32-bit range and the text starts with a sign or a digit |
| ToDoNumerals.DecimalString | To-Do/src/main/java/model/ToDoList.java:64 | non-empty digits whose value is n, without a leading zero |
| ToDoNumerals.ParseDecimalString | To-Do/src/main/java/model/ToDoList.java:64 | parsing what Integer.toString writes gives back the number, negative ones included |
| ToDoNumerals.DecimalStringInjective | To-Do/src/main/java/model/ToDoList.java:64 | different counters give different id texts |
| ToDoNumerals.ParseBoolean | To-Do/src/main/java/model/ToDoList.java:60 | true only for a four-letter text, and true for "true" and "TRUE" |
| ToDoItem.ValidPriority | To-Do/src/main/java/model/ToDo.java:106-115 | no priority stays none; otherwise success exactly for an integer in 1..3, else NotANumber or PriorityOutOfRange |
| ToDoItem.ValidPriorityOfNumber | To-Do/src/main/java/model/ToDo.java:106-115 | the text of a number is accepted exactly for 1, 2 and 3 |
| ToDoItem.SelectDateFormat | To-Do/src/main/java/model/ToDo.java:129-132 | length 9 selects "M/dd/yyyy", length 10 "MM/dd/yyyy", any other length neither |
| ToDoItem.ConvertToLocalDate | To-Do/src/main/java/model/ToDo.java:123-138 | no text gives no date, other lengths fail as an invalid format, and a selected format gives the parser's date or UnparsableDate |
| ToDoItem.Built | To-Do/src/main/java/model/ToDo.java:29-36 | a bad date is reported before a bad priority; a built task copies text, category, completed and id, and has a date exactly when one was given |
| ToDoItem.ToDo.constructor | To-Do/src/main/java/model/ToDo.java:29-36 | the task holds the built fields |
| ToDoItem.ToDo.SetCompleted | To-Do/src/main/java/model/ToDo.java:95-97 | completed becomes true, idempotently, and no other field changes |
| ToDoItem.ToDo.Equals | To-Do/src/main/java/model/ToDo.java:147-158 | equal exactly when the other is non-null and all six fields agree |
| ToDoItem.Builder.constructor | To-Do/src/main/java/model/ToDo.java:205-208 | a new builder holds the text, completed = false and no other field |
| ToDoItem.Builder.AddDueDate | To-Do/src/main/java/model/ToDo.java:216-219 | replaces the due date and returns the builder |
| ToDoItem.Builder.AddPriority | To-Do/src/main/java/model/ToDo.java:227-230 | replaces the priority and returns the builder |
| ToDoItem.Builder.AddCategory | To-Do/src/main/java/model/ToDo.java:238-241 | replaces the category and returns the builder |
| ToDoItem.Builder.AddId | To-Do/src/main/java/model/ToDo.java:249-252 | replaces the id and returns the builder |
| ToDoItem.Builder.MarkComplete | To-Do/src/main/java/model/ToDo.java:260-263 | overrides completed and returns the builder |
| ToDoItem.Builder.Build | To-Do/src/main/java/model/ToDo.java:270-272 | a fresh task with the fields Built computes, or its exception; the builder is unchanged, so two builds give equal tasks |
| ToDoListing.TaskOfMeaning | To-Do/src/main/java/model/ToDoList.java:74-80 | the length is kept, "?" becomes null, and every other cell is unchanged |
| ToDoListing.TaskBuilder | To-Do/src/main/java/model/ToDoList.java:58-64 | fails with IndexOutOfBounds exactly when the row has no category column |
| ToDoListing.ToDoFromTaskFields | To-Do/src/main/java/model/ToDoList.java:58-66 | a created task takes text, category and completed from indexes 1, 5 and 2, and the id is the current idCount |
| ToDoListing.OldIdIgnored | To-Do/src/main/java/model/ToDoList.java:58-66 | index 0, the old CSV id, does not affect the task |
| ToDoListing.LoadRowsSnoc | To-Do/src/main/java/model/ToDoList.java:93-100 | one more row extends the load by exactly one step |
| ToDoListing.LoadRowsNext | To-Do/src/main/java/model/ToDoList.java:93-100 | the load of the first k+1 rows is one step after that of the first k |
| ToDoListing.LoadRowsStopsAtError | To-Do/src/main/java/model/ToDoList.java:93-100 | after the first exception later rows change nothing |
| ToDoListing.LoadRowsMeaning | To-Do/src/main/java/model/ToDoList.java:89-102 | a successful load has one task per row, in row order, the i-th with id idCount+i, and the counter is advanced by the number of rows |
| ToDoListing.LoadedIdsDistinct | To-Do/src/main/java/model/ToDoList.java:64 | consecutive tasks get different ids |
| ToDoListing.Values | To-Do/src/main/java/model/ToDoList.java:99 | the field values of the list, element by element |
| ToDoListing.ValuesSnoc | To-Do/src/main/java/model/ToDoList.java:99 | appending a task appends its value |
| ToDoListing.DistinctSnoc | To-Do/src/main/java/model/ToDoList.java:99 | appending a new object keeps the objects distinct |
| ToDoListing.AssignNullToEmptyInput | To-Do/src/main/java/model/ToDoList.java:74-80 | the loop builds exactly the mapped row |
| ToDoListing.ToDoList.constructor | To-Do/src/main/java/model/ToDoList.java:21 | the counter starts at 1 with an empty list |
| ToDoListing.ToDoList.CreateToDo | To-Do/src/main/java/model/ToDoList.java:58-66 | the counter goes up by one once the category is read, and the result is the built task or its exception |
| ToDoListing.ToDoList.AppendRow | To-Do/src/main/java/model/ToDoList.java:98-99 | one loop step as LoadStep states; on an exception the list is unchanged |
| ToDoListing.ToDoList.Add | To-Do/src/main/java/model/ToDoList.java:99 | appends the task |
| ToDoListing.ToDoList.CreateToDoList | To-Do/src/main/java/model/ToDoList.java:89-102 | the header row is skipped, the rest loaded in order as LoadRows states, each task a fresh distinct object |
| ToDoParser.ScanArgsMeaning | To-Do/src/main/java/controller/CommandLineParser.java:188-204 | the scan fails exactly when an unrecognised "--" argument appears; otherwise the map holds exactly the given options, each with the values that follow it, in order |
| ToDoParser.RecognizedSnoc | To-Do/src/main/java/controller/CommandLineParser.java:190-193 | one more argument is recognised exactly when it is not an unknown option |
| ToDoParser.ScanStepDescribes | To-Do/src/main/java/controller/CommandLineParser.java:188-204 | one loop step keeps the map describing the arguments so far |
| ToDoParser.ValuesAfterAbsent | To-Do/src/main/java/controller/CommandLineParser.java:188-204 | an option not given collects no values |
| ToDoParser.LatestOptionIsGiven | To-Do/src/main/java/controller/CommandLineParser.java:188-204 | the current option is one of the given option arguments |
| ToDoParser.ParseArgsMeaning | To-Do/src/main/java/controller/CommandLineParser.java:183-205 | no arguments fail, a first argument without "--" fails, and otherwise the scan's meaning holds |
| ToDoParser.ScanArgsStopsAtError | To-Do/src/main/java/controller/CommandLineParser.java:190-193 | after the first unknown option later arguments change nothing |
| ToDoParser.GetOptionValue | To-Do/src/main/java/controller/CommandLineParser.java:255-263 | the first value exactly when the option takes an argument and has one; each failure named |
| ToDoParser.GetOptionValues | To-Do/src/main/java/controller/CommandLineParser.java:271-281 | the whole value list under the same conditions as getOptionValue |
| ToDoParser.OptionalValue | To-Do/src/main/java/controller/CommandLineParser.java:62-106 | an absent option gives null; a present one gives its first value or the failure |
| ToDoParser.PairedOption | To-Do/src/main/java/controller/CommandLineParser.java:235-246 | fails with InvalidPair exactly when the first option is given without the second |
| ToDoParser.ValidInput | To-Do/src/main/java/controller/CommandLineParser.java:299-309 | both sorts fail, a missing CSV option fails, otherwise the CSV path |
| ToDoParser.ConfigureMeaning | To-Do/src/main/java/controller/CommandLineParser.java:32-106 | a success has the CSV path, no two sorts, the text when paired, each optional field from its option and null when absent, completeID as the whole list, and markComplete never set |
| ToDoParser.ConfigureFailures | To-Do/src/main/java/controller/CommandLineParser.java:32-45 | the exceptions arrive in the constructor's order: sorts, CSV, pair |
| ToDoParser.CommandLineParser.Init | To-Do/src/main/java/controller/CommandLineParser.java:34-35 | the options are held, the map is empty and every field is null |
| ToDoParser.CommandLineParser.Create | To-Do/src/main/java/controller/CommandLineParser.java:32-45 | succeeds exactly when Construct does, with its error otherwise, and a fresh parser whose fields are the configured settings |
| ToDoParser.CommandLineParser.SetUpOptionalFields | To-Do/src/main/java/controller/CommandLineParser.java:39-43 | the setUp calls in order leave the fields as OptionalFields computes |
| ToDoParser.CommandLineParser.Parse | To-Do/src/main/java/controller/CommandLineParser.java:183-205 | the loop leaves the map and the outcome of ParseArgs |
| ToDoParser.CommandLineParser.HasPairedOption | To-Do/src/main/java/controller/CommandLineParser.java:235-246 | the result of PairedOption |
| ToDoParser.CommandLineParser.IsValidInput | To-Do/src/main/java/controller/CommandLineParser.java:299-309 | succeeds exactly when ValidInput does, setting the CSV path |
| ToDoParser.CommandLineParser.SetUpTextDescription | To-Do/src/main/java/controller/CommandLineParser.java:52-56 | sets the text when the pair is given, fails on a lone ADD_TODO |
| ToDoParser.CommandLineParser.OptionField | To-Do/src/main/java/controller/CommandLineParser.java:255-263 | an option's value, null when absent, or the failure |
| ToDoParser.CommandLineParser.SetUpDueDate | To-Do/src/main/java/controller/CommandLineParser.java:62-66 | the due date from its option, unchanged when absent |
| ToDoParser.CommandLineParser.SetUpPriority | To-Do/src/main/java/controller/CommandLineParser.java:72-76 | the priority from its option, unchanged when absent |
| ToDoParser.CommandLineParser.SetUpCategory | To-Do/src/main/java/controller/CommandLineParser.java:82-86 | the category from its option, unchanged when absent |
| ToDoParser.CommandLineParser.SetUpCompleteId | To-Do/src/main/java/controller/CommandLineParser.java:92-96 | the whole id list from its option, unchanged when absent |
| ToDoParser.CommandLineParser.SetUpCategoryDisplay | To-Do/src/main/java/controller/CommandLineParser.java:102-106 | the display category from its option, unchanged when absent |
| ToDoView.Filter | To-Do/src/main/java/view/ToDoDisplay.java:112-127 | no longer than the input, and every kept item satisfies the test |
| ToDoView.FilterCount | To-Do/src/main/java/view/ToDoDisplay.java:112-127 | an item occurs as often as in the input when it passes the test, else not at all |
| ToDoView.FilterSubsequence | To-Do/src/main/java/view/ToDoDisplay.java:112-127 | the kept items are in their original order |
| ToDoView.WithKeySnoc | To-Do/src/main/java/view/ToDoDisplay.java:136-153 | the items with one key grow by the new item exactly when it has that key |
| ToDoView.Insert | To-Do/src/main/java/view/ToDoDisplay.java:136-153 | insertion adds one item |
| ToDoView.SortBy | To-Do/src/main/java/view/ToDoDisplay.java:136-153 | the sort keeps the length |
| ToDoView.InsertCount | To-Do/src/main/java/view/ToDoDisplay.java:136-153 | insertion adds exactly the item to the multiset |
| ToDoView.InsertSorted | To-Do/src/main/java/view/ToDoDisplay.java:136-153 | insertion into a sorted list keeps it sorted |
| ToDoView.InsertWithKey | To-Do/src/main/java/view/ToDoDisplay.java:136-153 | insertion puts the item after every other item with its key |
| ToDoView.SortBySorted | To-Do/src/main/java/view/ToDoDisplay.java:136-153 | the result is in ascending key order |
| ToDoView.SortByCount | To-Do/src/main/java/view/ToDoDisplay.java:136-153 | the result is a permutation of the input |
| ToDoView.SortByStable | To-Do/src/main/java/view/ToDoDisplay.java:136-153 | items with equal keys keep their relative order |
| ToDoView.DateKeyOrder | To-Do/src/main/java/view/ToDoDisplay.java:136-140 | the key order is exactly the chronological order, and equal keys mean equal dates |
| ToDoView.FilterByIncomplete | To-Do/src/main/java/view/ToDoDisplay.java:124-127 | no longer than the input, and every kept item is not completed |
| ToDoView.FilterByIncompleteCount | To-Do/src/main/java/view/ToDoDisplay.java:124-127 | exactly the incomplete items are kept, each as often as in the input |
| ToDoView.FilterByIncompleteSubsequence | To-Do/src/main/java/view/ToDoDisplay.java:124-127 | kept in their original order |
| ToDoView.FilterByCategoryMeaning | To-Do/src/main/java/view/ToDoDisplay.java:112-116 | exactly the items with a non-null category equal to the given one, in their original order |
| ToDoView.SortByDateCount | To-Do/src/main/java/view/ToDoDisplay.java:136-140 | exactly the items with a due date are kept, each as often as in the input |
| ToDoView.SortByDateOrder | To-Do/src/main/java/view/ToDoDisplay.java:136-140 | the result is in ascending date order |
| ToDoView.SortByDateStable | To-Do/src/main/java/view/ToDoDisplay.java:136-140 | items with the same date keep their relative order |
| ToDoView.SortByPriorityCount | To-Do/src/main/java/view/ToDoDisplay.java:149-153 | exactly the items with a priority are kept, each as often as in the input |
| ToDoView.SortByPriorityOrder | To-Do/src/main/java/view/ToDoDisplay.java:149-153 | the result is in ascending priority order |
| ToDoView.SortByPriorityStable | To-Do/src/main/java/view/ToDoDisplay.java:149-153 | items with the same priority keep their relative order |
| ToDoView.ToDoDisplay.constructor | To-Do/src/main/java/view/ToDoDisplay.java:24-26 | the display holds the list |
| ToDoView.ToDoDisplay.DisplayManager | To-Do/src/main/java/view/ToDoDisplay.java:90-103 | without DISPLAY the list is returned unchanged; never longer than the list |
| ToDoView.DisplayManagerCount | To-Do/src/main/java/view/ToDoDisplay.java:90-103 | with DISPLAY, an item is shown exactly when it passes every requested stage, as often as in the list |
| ToDoView.DisplayManagerOrder | To-Do/src/main/java/view/ToDoDisplay.java:92-96 | with DISPLAY, the result is in priority order when that sort is asked for, and otherwise in date order when date sort is |
| ToDoView.DisplayManagerKeepsOrder | To-Do/src/main/java/view/ToDoDisplay.java:90-96 | with DISPLAY and neither sort, the tasks shown are a subsequence of the list, in their original order |
| ToDoTasks.MarkStep | To-Do/src/main/java/controller/TaskManager.java:90-97 | succeeds exactly for 1 <= id <= size with item id-1 incomplete; id > size or id < 0 is InvalidId, id 0 IndexOutOfBounds, a completed item AlreadyCompleted; on success only item id-1 changes, to completed |
| ToDoTasks.MarkTwiceFails | To-Do/src/main/java/controller/TaskManager.java:93-94 | marking the same id twice fails as already completed |
| ToDoTasks.MarkStepsCommute | To-Do/src/main/java/controller/TaskManager.java:90-97 | marking two different ids gives the same list in either order |
| ToDoTasks.CompleteAllSnoc | To-Do/src/main/java/controller/TaskManager.java:43-45 | one more id extends the completion by one markTaskComplete, unless an exception has already stopped it |
| ToDoTasks.CompleteAllNext | To-Do/src/main/java/controller/TaskManager.java:43-45 | the completion of the first i+1 ids is one step after that of the first i |
| ToDoTasks.CompleteAllStopsAtError | To-Do/src/main/java/controller/TaskManager.java:43-45 | after the first exception later ids change nothing |
| ToDoTasks.NamesPositionSnoc | To-Do/src/main/java/controller/TaskManager.java:43-45 | an id named earlier stays named |
| ToDoTasks.EvolvesSnoc | To-Do/src/main/java/controller/TaskManager.java:41-47 | one more successful mark keeps the list evolving only at named positions |
| ToDoTasks.AllCompletedSnoc | To-Do/src/main/java/controller/TaskManager.java:41-47 | after one more successful mark every named item is completed |
| ToDoTasks.CompleteAllMeaning | To-Do/src/main/java/controller/TaskManager.java:41-47 | the length and all fields but completed are kept, nothing is un-completed, only named items change, and with no exception every listed id is a completed item |
| ToDoTasks.EvolvesExtend | To-Do/src/main/java/controller/TaskManager.java:41-47 | naming more ids keeps the evolution relation |
| ToDoTasks.RepeatedIdFails | To-Do/src/main/java/controller/TaskManager.java:41-47 | listing an id twice completes it once and then fails as already completed |
| ToDoTasks.NewTask | To-Do/src/main/java/controller/TaskManager.java:73-80 | the row holds null, text, markComplete, due, priority and category at indexes 0-5 |
| ToDoTasks.AddedTaskIncomplete | To-Do/src/main/java/controller/TaskManager.java:73-83 | a task added from the command line is incomplete, with the given text and category and the current idCount as id |
| ToDoTasks.AddThenComplete | To-Do/src/main/java/controller/TaskManager.java:54-56 | adding a task and completing its new id in the same run leaves it completed and the rest unchanged |
| ToDoTasks.TaskManager.constructor | To-Do/src/main/java/controller/TaskManager.java:24-27 | the manager holds the parser and the list |
| ToDoTasks.TaskManager.MarkTaskComplete | To-Do/src/main/java/controller/TaskManager.java:90-97 | the list values and outcome are those MarkStep states |
| ToDoTasks.TaskManager.CompleteNext | To-Do/src/main/java/controller/TaskManager.java:44 | one iteration: Integer.parseInt, then markTaskComplete, as CompleteOne states |
| ToDoTasks.TaskManager.UpdateTaskComplete | To-Do/src/main/java/controller/TaskManager.java:41-47 | no ids change nothing; otherwise the values and outcome of CompleteAll |
| ToDoTasks.TaskManager.CompleteIds | To-Do/src/main/java/controller/TaskManager.java:43-45 | the loop over the ids gives the values and outcome of CompleteAll |
| ToDoTasks.TaskManager.AddNewToDo | To-Do/src/main/java/controller/TaskManager.java:73-83 | the counter goes up by one, and the list is unchanged or gains exactly one fresh task at the end, as AddStep states |
| ToDoTasks.TaskManager.Append | To-Do/src/main/java/controller/TaskManager.java:82 | appends the task |
| ToDoTasks.TaskManager.UpdateNewToDo | To-Do/src/main/java/controller/TaskManager.java:32-36 | adds only when the text is given, and then exactly as addNewToDo does |
| ToDoTasks.TaskManager.UpdateCsvFile | To-Do/src/main/java/controller/TaskManager.java:54-56 | adds first and then completes the listed ids in order, as CsvUpdate states |

## Left out

- Drawing is not modelled: turtle drawing, screen setup, `move_piece`, `paint_over_square`, the `draw_king` call in `make_king_piece` and `write_gameover`. They only render.
- `valid_board_pos` (pixel to square) is not modelled. `CheckersGame.GameState.MoveCheckerPiece` takes an already resolved square, or none.
- `SCREEN.ontimer` scheduling and `Checkers/main.py` are not modelled. The bot's turn is reported as a flag, `botScheduled`.
- `random.choice` is not modelled. The bot's pick is an index into the chosen list, constrained to be within it.
- Dictionary iteration order is not modelled. The loops over `piece_locations` pick any remaining key, so list orders that depend on it are unspecified. `CheckersGame.GameState.MoveCheckerPiece` takes `next_capture` as the first further landing in the fixed direction order of `find_capture_moves`.
- Clicks after the game is over are not restrained. The Python event loop keeps accepting them, and the model gives them no special meaning.
- CheckersGame.GameState.BotPlayer models the intended multi-capture loop. It applies one forced continuation at a time from the square the piece now stands on. The code as written iterates over every captured/landing pair at once and never advances `piece_to`. The bot also requires at least one move, as `random.choice` does.
- CheckersGame.GameState.Winner runs the corrected winner test of the second "## Findings" row. It tests the moves of the side about to move, `Opponent(turn_color)`, where the code tests `turn_color`. The code as written is `CheckersGame.WinnerAsWritten`.
- CheckersGame.GameState.HandleCaptureMove runs the corrected capture of the first "## Findings" row. It also removes the captured square from `king_pieces`, which the code does not. The code as written is `CheckersGame.CaptureHandledAsWritten`. So every method of `CheckersGame.GameState` that captures or ends a turn follows the corrected behaviour.
- The `print` of the new turn colour in `next_turn` is not modelled. It only writes to the console.
- CheckersGame.SecondClickGates states the forced-capture gate as written: the target must be some 'black' capture landing, not necessarily one of the selected piece's. Mandatory capture for the selected piece itself comes from `valid_diag_move`.
- CSV reading and writing are not modelled: `CsvReader`, `CsvWriter` and the writer call in `updateCsvFile`. `ToDoListing.ToDoList.CreateToDoList` works on rows already read.
- `LocalDate.parse` is not modelled. It is the `DateParser` parameter, and dates are (year, month, day) values compared chronologically.
- `Integer.parseInt` and `Boolean.parseBoolean` are modelled on ASCII decimal text and ASCII letters only. Unicode digits and full case folding are not modelled.
- Exception messages, `hashCode` and `toString` are not modelled. Each exception is one `ToDoError` or parser error case.
- The plain getters of `CommandLineParser` and `ToDoList` are not separate members. They are read through `CommandLineParser.Fields()` and the class fields.
- `hasOption`, `hasRequiredOptions` and `hasMutuallyExclusive` are one-line map tests. They appear inline in `ToDoParser.ValidInput` and the display functions rather than as separate members.
- `Main.java`, `Config.java` and the `Option`/`Options` boilerplate are not modelled. `Options` is a map from option name to whether it takes an argument.
- `Constants.java` (the option strings) is not part of this model. Seven option names come from the help text of `InvalidArgumentException.java`: `--add-todo`, `--todo-text`, `--due`, `--priority`, `--category`, `--csv-file` and `--complete-todo`. The other six are inferred from the constant names used in `CommandLineParser.java` and `ToDoDisplay.java`, and may differ from the real strings: `--completed`, `--sort-by-date`, `--sort-by-priority`, `--display`, `--show-incomplete` and `--show-category`. Only the option names depend on this; the parser logic does not.
- The `Option` value lists that the source shares and mutates across parses are not modelled. Here each parse builds its own values.
- The `getInstance` singleton and the aliasing of the static `toDoList` between `ToDoList` and `TaskManager` are not modelled. Each class holds its own sequence of `ToDo` objects, and `TaskManager` updates the objects in place.
- Java `null` elements are not modelled. The display streams' null checks do nothing, because a `seq<ToDo>` holds no null.
- ToDoListing.ToDoList.CreateToDo: the 32-bit wrap-around of `idCount++` is not modelled. The counter is unbounded.
- ToDoParser.ConfigureMeaning: `markComplete` is never set by the parser, so tasks added from the command line always start incomplete. The model keeps this as written.

## Findings

| source | as written | input that shows it | evidently intended | confidence | as-written member | corrected member |
|---|---|---|---|---|---|---|
| Checkers/gamestate.py:327-330 | `handle_capture_move` pops the captured square from `piece_locations` but leaves its `king_pieces` entry | 'black' on (4,4) jumps the 'dark red' king on (3,3), landing on (2,2) | the captured king is removed from both maps, so a later piece arriving on (3,3) is not crowned | not executed | CheckersGame.StaleKingAsWritten | CheckersGame.CaptureClearsKingEntry |
| Checkers/gamestate.py:180-191 | `winner` tests the moves of `turn_color`, the side that just moved, before `next_turn` | 'black' moves while 'dark red' has its only piece on (0,6), blocked by (1,7) | the side about to move is tested, so a blocked 'dark red' loses instead of the bot being called with no moves | not executed | CheckersGame.WinnerAsWrittenMissesStuckBot | CheckersGame.TurnEndMeaning |
