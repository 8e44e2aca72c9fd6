/**
 * The rules and turn mechanism of the game (Checkers/gamestate.py): the two-click move
 * protocol, the forced-capture gate, multi-jump continuation, scoring, promotion, turn
 * alternation, win detection and the computer player's turn.
 *
 * Every field the game reads is gathered in a `GameView` value; each operation of
 * `GameState` is specified by a function from the view before to the view after, and
 * the rules' promises are lemmas about those functions.
 */
module CheckersGame {
  import opened Wrappers
  import opened CheckersBoard
  import opened CheckersBot

  /** Pieces each side starts with (red_left and black_left start at 12). */
  const PiecesPerSide := 12

  /** The row a 'black' piece is crowned on (RED_FIRST_ROW) and the one a 'dark red' piece is crowned on (BLACK_FIRST_ROW). */
  const RedFirstRow := 0
  const BlackFirstRow := 7

  /** What a click did; the source returns nothing and these name its exits. */
  datatype ClickOutcome =
    | NoSquare               // the click was off the dark squares
    | NotYourPiece           // first click on an opponent's piece
    | PieceSelected          // first click on one of the mover's pieces
    | ClickIgnored           // neither a first nor a second click
    | CaptureRequired        // a capture exists and the target is not a capture landing
    | ContinuationRequired   // a multi-jump is pending and the target is not its landing
    | NotForward             // an ordinary piece moving backwards or sideways
    | InvalidDiagonal        // valid_diag_move refused the move
    | CaptureContinues       // a capture was made and the same piece can capture again
    | TurnEnded(winner: Option<Color>, botScheduled: bool)

  /** The fields of a GameState together with the dictionaries and counters of its board. */
  datatype GameView = GameView(
    turn: Color,
    redKings: int, blackKings: int,
    pieceFrom: Option<Square>, pieceTo: Option<Square>, validColRow: Option<Square>,
    blackScore: int, redScore: int,
    nextCapture: Option<Square>,
    pieces: Placement, kings: Placement,
    redLeft: int, blackLeft: int)

  /** The game ended with a winner. */
  predicate IsGameOver(o: ClickOutcome) { o.TurnEnded? && o.winner.Some? }

  /**
   * The board part of the invariant: the dictionaries are well formed, each pieces-left
   * counter counts the pieces of its colour, and a side's score is the number of the
   * opponent's pieces it has taken.
   */
  ghost predicate BoardValid(v: GameView) {
    && WellFormed(v.pieces, v.kings)
    && v.redLeft == |PiecesOf(v.pieces, DarkRed)| && v.blackLeft == |PiecesOf(v.pieces, Black)|
    && v.blackScore + v.redLeft == PiecesPerSide && v.redScore + v.blackLeft == PiecesPerSide
  }

  /** The whole invariant: the board part, and a selected piece belongs to the side to move. */
  ghost predicate ValidView(v: GameView) {
    && BoardValid(v)
    && (v.pieceFrom.Some? ==> v.pieceFrom.value in v.pieces && v.pieces[v.pieceFrom.value] == v.turn)
  }

  /** A game right after the board's pieces are laid out. */
  function StartingView(turn: Color): GameView {
    GameView(turn, 0, 0, None, None, None, 0, 0, None, StartingLayout(), map[], PiecesPerSide, PiecesPerSide)
  }

  lemma StartingViewValid(turn: Color)
    ensures ValidView(StartingView(turn))
  {
    StartingLayoutShape();
  }

  // ---------------------------------------------------------------------------
  // Piece counts
  // ---------------------------------------------------------------------------

  /** Removing an occupied square takes it out of its colour's pieces and no other's. */
  lemma PiecesOfRemoved(pieces: Placement, s: Square, color: Color)
    requires s in pieces
    ensures |PiecesOf(pieces - {s}, color)| == |PiecesOf(pieces, color)| - (if pieces[s] == color then 1 else 0)
  {
    if pieces[s] == color {
      assert PiecesOf(pieces - {s}, color) == PiecesOf(pieces, color) - {s};
    } else {
      assert PiecesOf(pieces - {s}, color) == PiecesOf(pieces, color);
    }
  }

  /** Moving a piece to an empty square leaves every colour's count unchanged. */
  lemma PiecesOfRelocated(pieces: Placement, from: Square, to: Square, color: Color, c: Color)
    requires from in pieces && pieces[from] == color && to !in pieces
    ensures |PiecesOf(Relocated(pieces, from, to, color), c)| == |PiecesOf(pieces, c)|
  {
    var p := Relocated(pieces, from, to, color);
    if c == color {
      assert PiecesOf(p, c) == PiecesOf(pieces, c) - {from} + {to};
    } else {
      assert PiecesOf(p, c) == PiecesOf(pieces, c);
    }
  }

  // ---------------------------------------------------------------------------
  // The steps of a turn, on views
  // ---------------------------------------------------------------------------

  /** next_turn: the other side moves, with no selection and no pending continuation. */
  function NextTurnView(v: GameView): (r: GameView)
    ensures r.turn != v.turn
  {
    v.(turn := Opponent(v.turn), pieceFrom := None, pieceTo := None, nextCapture := None)
  }

  /** keep_score_and_piece_count for a captured piece of colour `captured`. */
  function Tallied(v: GameView, captured: Color): GameView {
    if captured == DarkRed then v.(blackScore := v.blackScore + 1, redLeft := v.redLeft - 1)
    else v.(redScore := v.redScore + 1, blackLeft := v.blackLeft - 1)
  }

  /**
   * handle_capture_move as written: the jumped piece is scored and removed from
   * piece_locations; its entry in king_pieces, if any, stays behind.
   */
  function CaptureHandledAsWritten(v: GameView, captured: Option<Square>): GameView
    requires captured.Some? ==> captured.value in v.pieces
  {
    if captured.None? then v
    else Tallied(v, v.pieces[captured.value]).(pieces := v.pieces - {captured.value})
  }

  /** handle_capture_move as intended: the jumped piece leaves both dictionaries. */
  function CaptureHandled(v: GameView, captured: Option<Square>): GameView
    requires captured.Some? ==> captured.value in v.pieces
  {
    if captured.None? then v
    else Tallied(v, v.pieces[captured.value]).(pieces := v.pieces - {captured.value}, kings := v.kings - {captured.value})
  }

  /** A piece of `color` arriving on `s` is crowned. */
  predicate ReachesKingRow(s: Square, color: Color) {
    if color == Black then s.row == RedFirstRow else s.row == BlackFirstRow
  }

  /**
   * handle_king_piece: the side to move, arriving on its crowning row, gets a king entry
   * and one more in its king count, whether or not the piece was a king already.
   */
  function KingHandled(v: GameView, to: Square): GameView {
    if ReachesKingRow(to, v.turn) then
      if v.turn == Black then v.(kings := v.kings[to := Black], blackKings := v.blackKings + 1)
      else v.(kings := v.kings[to := DarkRed], redKings := v.redKings + 1)
    else v
  }

  /** move_and_update_piece / handle_bot_move: capture, relocation, promotion. */
  function Moved(v: GameView, from: Square, to: Square, color: Color, captured: Option<Square>): GameView
    requires captured.Some? ==> captured.value in v.pieces
  {
    var c := CaptureHandled(v, captured);
    KingHandled(c.(pieces := Relocated(c.pieces, from, to, color), kings := KingsRelocated(c.kings, from, to, color)), to)
  }

  /** Moved with handle_capture_move as written. */
  function MovedAsWritten(v: GameView, from: Square, to: Square, color: Color, captured: Option<Square>): GameView
    requires captured.Some? ==> captured.value in v.pieces
  {
    var c := CaptureHandledAsWritten(v, captured);
    KingHandled(c.(pieces := Relocated(c.pieces, from, to, color), kings := KingsRelocated(c.kings, from, to, color)), to)
  }

  /**
   * The decision of winner(), given the side `inspected` whose moves are examined:
   * 'black' wins when that side is 'dark red' and blocked or when red has no pieces
   * left, 'dark red' wins in the mirror case, and otherwise nobody has won.
   */
  function Decision(pieces: Placement, kings: Placement, redLeft: int, blackLeft: int, inspected: Color): Option<Color> {
    var blocked := AllMoves(pieces, kings, inspected) == map[];
    if (blocked && inspected == DarkRed) || redLeft <= 0 then Some(Black)
    else if (blocked && inspected == Black) || blackLeft <= 0 then Some(DarkRed)
    else None
  }

  /** winner() as written: it runs before next_turn and so examines the side that has just moved. */
  function WinnerAsWritten(v: GameView): Option<Color> {
    Decision(v.pieces, v.kings, v.redLeft, v.blackLeft, v.turn)
  }

  /** winner() as intended: it examines the side about to move. */
  function WinnerOf(v: GameView): Option<Color> {
    Decision(v.pieces, v.kings, v.redLeft, v.blackLeft, Opponent(v.turn))
  }

  /** The end of a move: the game is over, or the turn passes (and the bot is scheduled when it becomes red's). */
  function TurnEnd(v: GameView): (GameView, ClickOutcome) {
    var w := WinnerOf(v);
    if w.Some? then (v, TurnEnded(w, false))
    else (NextTurnView(v), TurnEnded(None, v.turn == Black))
  }

  /**
   * bot_player's multiple-capture loop as intended: while the 'dark red' piece on `at`
   * can capture, it takes the first capture find_capture_moves lists and continues from
   * that landing square. The result is the view after the last jump and the square
   * the piece ends on, from which no capture remains.
   */
  function BotContinued(v: GameView, at: Square): (r: (GameView, Square))
    requires BoardValid(v) && v.turn == DarkRed
    requires at in v.pieces && v.pieces[at] == DarkRed
    ensures BoardValid(r.0) && r.0.turn == DarkRed
    ensures r.1 in r.0.pieces && r.0.pieces[r.1] == DarkRed
    ensures FindCaptureMoves(r.0.pieces, r.0.kings, r.1, DarkRed) == []
    ensures |PiecesOf(r.0.pieces, DarkRed)| == |PiecesOf(v.pieces, DarkRed)|
    ensures |PiecesOf(r.0.pieces, Black)| <= |PiecesOf(v.pieces, Black)|
    decreases |PiecesOf(v.pieces, Black)|
  {
    var future := FindCaptureMoves(v.pieces, v.kings, at, DarkRed);
    if |future| == 0 then (v, at)
    else
      var c := future[0];
      BetweenOfCapture(v.pieces, at in v.kings, DarkRed, at, c);
      MovedKeepsBoard(v, at, c.landing, Some(c.captured));
      BotContinued(Moved(v, at, c.landing, DarkRed, Some(c.captured)), c.landing)
  }

  /**
   * The bot's whole turn once it has chosen the move `m` of all_possible_moves('dark red'):
   * the move itself, the capture continuations when it captured, then winner().
   */
  function BotTurn(v: GameView, m: Move): (GameView, ClickOutcome)
    requires BoardValid(v) && v.turn == DarkRed
    requires m in AllMoves(v.pieces, v.kings, DarkRed)
  {
    var all := AllMoves(v.pieces, v.kings, DarkRed);
    AllMovesMeaning(v.pieces, v.kings, DarkRed);
    MovedKeepsBoard(v, m.from, m.to, all[m]);
    var w := Moved(v, m.from, m.to, DarkRed, all[m]);
    TurnEnd(if all[m].Some? then BotContinued(w, m.to).0 else w)
  }

  /** capture_exists: the landing squares of every capture open to 'black' (the source always asks for 'black'). */
  function CaptureLandings(pieces: Placement, kings: Placement): set<Square> {
    LandingsOf(AllMoves(pieces, kings, Black))
  }

  /** The destinations of the capturing moves of a move map. */
  function LandingsOf(moves: map<Move, Option<Square>>): set<Square> {
    set m | m in moves && moves[m].Some? :: m.to
  }

  /** is_blocked_from_moving: no move is listed. */
  function IsBlockedFromMoving(moves: map<Move, Option<Square>>): (r: bool)
    ensures r <==> |moves| == 0
  {
    moves == map[]
  }

  /**
   * is_blocked_from_moving applied to all_possible_moves: a side is blocked exactly
   * when none of its pieces has a destination under the rules, neither a capture nor
   * a one-square step onto an empty on-board square.
   */
  lemma BlockedMeaning(pieces: Placement, kings: Placement, color: Color)
    ensures IsBlockedFromMoving(AllMoves(pieces, kings, color)) <==>
              forall f :: f in pieces && pieces[f] == color ==> IsImmobile(pieces, kings, color, f)
  {
    AllMovesEmptyIff(pieces, kings, color);
    forall f | f in pieces && pieces[f] == color
      ensures IsStuck(pieces, kings, color, f) <==> IsImmobile(pieces, kings, color, f)
    {
      StuckWithoutDestination(pieces, kings, color, f);
    }
  }

  /** The piece on `f` has no destination at all under the rules. */
  ghost predicate IsImmobile(pieces: Placement, kings: Placement, color: Color, f: Square) {
    forall t, cap :: !IsDestination(pieces, kings, color, f, t, cap)
  }

  /** is_first_click: the clicked square holds a piece and nothing is selected yet. */
  predicate IsFirstClick(v: GameView) {
    v.validColRow.Some? && v.validColRow.value in v.pieces && v.pieceFrom.None?
  }

  /** is_second_click: a piece is selected and the clicked square is empty. */
  predicate IsSecondClick(v: GameView) {
    v.pieceFrom.Some? && (v.validColRow.None? || v.validColRow.value !in v.pieces)
  }

  /** move_checker_piece on a resolved square (None when the click is off the dark squares). */
  function Click(v: GameView, square: Option<Square>): (GameView, ClickOutcome) {
    var v0 := v.(validColRow := square);
    if square.None? then (v0, NoSquare)
    else if IsFirstClick(v0) then FirstClick(v0, square.value)
    else if IsSecondClick(v0) then SecondClick(v0, square.value)
    else (v0, ClickIgnored)
  }

  function FirstClick(v: GameView, sq: Square): (GameView, ClickOutcome)
    requires sq in v.pieces
  {
    if v.pieces[sq] != v.turn then (v.(pieceFrom := None), NotYourPiece)
    else (v.(pieceFrom := Some(sq)), PieceSelected)
  }

  function SecondClick(v: GameView, sq: Square): (GameView, ClickOutcome)
    requires v.pieceFrom.Some?
  {
    var v1 := v.(pieceTo := Some(sq));
    var from := v.pieceFrom.value;
    var landings := CaptureLandings(v.pieces, v.kings);
    if landings != {} && sq !in landings then (v1, CaptureRequired)
    else if v.nextCapture.Some? && v.nextCapture.value != sq then (v1.(pieceTo := None), ContinuationRequired)
    else if !MoveForward(v.kings, from, sq, v.turn) then (v1.(pieceFrom := None, pieceTo := None), NotForward)
    else AttemptMove(v1, from, sq)
  }

  /** The diagonal check of a second click, then the move it accepts. */
  function AttemptMove(v: GameView, from: Square, to: Square): (GameView, ClickOutcome) {
    var d := ValidDiagMove(v.pieces, v.kings, from, to, v.turn);
    if !d.0 then (v.(pieceFrom := None, pieceTo := None), InvalidDiagonal)
    else MoveMade(v, from, to, d.1)
  }

  /** After the move: a capture that can be continued keeps the turn; otherwise the turn ends. */
  function MoveMade(v: GameView, from: Square, to: Square, captured: Option<Square>): (GameView, ClickOutcome)
    requires captured.Some? ==> captured.value in v.pieces
  {
    var v2 := Moved(v, from, to, v.turn, captured);
    var future := FindCaptureMoves(v2.pieces, v2.kings, to, v2.turn);
    if captured.Some? && |future| > 0 then
      (v2.(nextCapture := Some(future[0].landing), pieceFrom := Some(to)), CaptureContinues)
    else TurnEnd(v2)
  }

  // ---------------------------------------------------------------------------
  // Properties of a turn
  // ---------------------------------------------------------------------------

  /**
   * Scoring: capturing a 'dark red' piece gives black a point and takes one from red's
   * pieces left, any other capture does the mirror; nothing else changes.
   */
  lemma TalliedCounters(v: GameView, captured: Color)
    ensures var t := Tallied(v, captured);
            && t.blackScore + t.redLeft == v.blackScore + v.redLeft
            && t.redScore + t.blackLeft == v.redScore + v.blackLeft
            && (captured == DarkRed ==> t == v.(blackScore := v.blackScore + 1, redLeft := v.redLeft - 1))
            && (captured == Black ==> t == v.(redScore := v.redScore + 1, blackLeft := v.blackLeft - 1))
  {
  }

  /** On a well-formed board a legal destination is an empty playable square, and a capture takes an opponent's piece. */
  lemma DestinationOnBoard(pieces: Placement, kings: Placement, color: Color, from: Square, to: Square, cap: Option<Square>)
    requires WellFormed(pieces, kings) && from in pieces && pieces[from] == color
    requires IsDestination(pieces, kings, color, from, to, cap)
    ensures IsPlayable(to) && to !in pieces && to != from
    ensures cap.Some? ==> cap.value in pieces && pieces[cap.value] == Opponent(color) && cap.value != from
  {
    if HasCapture(pieces, kings, from, color) {
      CaptureLandingOnBoard(pieces, kings, from in kings, from, color, Capture(cap.value, to));
    } else {
      StepKeepsParity(from, to);
    }
  }

  /** Handling a capture keeps the board invariant and takes the captured piece off its colour's count. */
  lemma CaptureHandledKeepsBoard(v: GameView, cap: Option<Square>)
    requires BoardValid(v)
    requires cap.Some? ==> cap.value in v.pieces
    ensures var c := CaptureHandled(v, cap);
            && BoardValid(c)
            && (forall color :: |PiecesOf(c.pieces, color)|
                  == |PiecesOf(v.pieces, color)| - (if cap.Some? && v.pieces[cap.value] == color then 1 else 0))
  {
    if cap.Some? {
      PiecesOfRemoved(v.pieces, cap.value, DarkRed);
      PiecesOfRemoved(v.pieces, cap.value, Black);
    }
  }

  /** Relocating a piece of the side to move onto an empty playable square keeps the board invariant and the counts. */
  lemma RelocationKeepsBoard(v: GameView, from: Square, to: Square)
    requires BoardValid(v)
    requires from in v.pieces && v.pieces[from] == v.turn && to !in v.pieces && IsPlayable(to)
    ensures var r := v.(pieces := Relocated(v.pieces, from, to, v.turn), kings := KingsRelocated(v.kings, from, to, v.turn));
            && BoardValid(r)
            && (forall color :: |PiecesOf(r.pieces, color)| == |PiecesOf(v.pieces, color)|)
  {
    RelocatedWellFormed(v.pieces, v.kings, from, to, v.turn);
    PiecesOfRelocated(v.pieces, from, to, v.turn, DarkRed);
    PiecesOfRelocated(v.pieces, from, to, v.turn, Black);
  }

  /** Promotion of a piece of the side to move keeps the board invariant. */
  lemma KingHandledKeepsBoard(v: GameView, to: Square)
    requires BoardValid(v)
    requires to in v.pieces && v.pieces[to] == v.turn
    ensures BoardValid(KingHandled(v, to)) && KingHandled(v, to).pieces == v.pieces
  {
    if ReachesKingRow(to, v.turn) {
      PromotedWellFormed(v.pieces, v.kings, to, v.turn);
    }
  }

  /**
   * A legal move keeps the board invariant: the piece ends on `to`, the mover keeps all
   * its pieces, the opponent loses exactly the captured one, and the counters follow.
   */
  lemma MovedKeepsBoard(v: GameView, from: Square, to: Square, cap: Option<Square>)
    requires BoardValid(v)
    requires from in v.pieces && v.pieces[from] == v.turn
    requires IsDestination(v.pieces, v.kings, v.turn, from, to, cap)
    ensures cap.Some? ==> cap.value in v.pieces && v.pieces[cap.value] == Opponent(v.turn)
    ensures var w := Moved(v, from, to, v.turn, cap);
            && BoardValid(w)
            && to in w.pieces && w.pieces[to] == v.turn && from !in w.pieces
            && |PiecesOf(w.pieces, v.turn)| == |PiecesOf(v.pieces, v.turn)|
            && |PiecesOf(w.pieces, Opponent(v.turn))| == |PiecesOf(v.pieces, Opponent(v.turn))| - (if cap.Some? then 1 else 0)
            && w.turn == v.turn && w.pieceFrom == v.pieceFrom && w.nextCapture == v.nextCapture
  {
    DestinationOnBoard(v.pieces, v.kings, v.turn, from, to, cap);
    CaptureHandledKeepsBoard(v, cap);
    var c := CaptureHandled(v, cap);
    RelocationKeepsBoard(c, from, to);
    var r := c.(pieces := Relocated(c.pieces, from, to, v.turn), kings := KingsRelocated(c.kings, from, to, v.turn));
    KingHandledKeepsBoard(r, to);
    MovedKeepsSelection(v, from, to, v.turn, cap);
  }

  /** Moving changes neither the side to move nor the selection. */
  lemma MovedKeepsSelection(v: GameView, from: Square, to: Square, color: Color, cap: Option<Square>)
    requires cap.Some? ==> cap.value in v.pieces
    ensures var w := Moved(v, from, to, color, cap);
            w.turn == v.turn && w.pieceFrom == v.pieceFrom && w.nextCapture == v.nextCapture
  {
  }

  /** A move valid_diag_move accepts onto an empty on-board square is a legal destination with its capture. */
  lemma AcceptedMoveIsDestination(pieces: Placement, kings: Placement, color: Color, from: Square, to: Square)
    requires to !in pieces && IsWithinBounds(to)
    requires ValidDiagMove(pieces, kings, from, to, color).0
    ensures IsDestination(pieces, kings, color, from, to, ValidDiagMove(pieces, kings, from, to, color).1)
  {
    var d := ValidDiagMove(pieces, kings, from, to, color);
    if HasCapture(pieces, kings, from, color) {
      BetweenOfCapture(pieces, from in kings, color, from, Capture(d.1.value, to));
    }
  }

  /** The end of a turn keeps the board as it is; when the turn passes nothing is selected. */
  lemma TurnEndKeepsValid(v: GameView)
    ensures var r := TurnEnd(v);
            && r.0.pieces == v.pieces && r.0.kings == v.kings && r.1.TurnEnded?
            && (BoardValid(v) ==> BoardValid(r.0) && (IsGameOver(r.1) || (ValidView(r.0) && r.0.pieceFrom.None?)))
  {
  }

  /**
   * A made move keeps the board invariant; the turn either continues with the moved piece
   * selected or ends, and unless the game is over the selection is again consistent.
   */
  lemma MoveMadeKeepsValid(v: GameView, from: Square, to: Square, cap: Option<Square>)
    requires BoardValid(v)
    requires from in v.pieces && v.pieces[from] == v.turn
    requires IsDestination(v.pieces, v.kings, v.turn, from, to, cap)
    ensures cap.Some? ==> cap.value in v.pieces
    ensures var r := MoveMade(v, from, to, cap);
            BoardValid(r.0) && (IsGameOver(r.1) || ValidView(r.0))
  {
    MovedKeepsBoard(v, from, to, cap);
    TurnEndKeepsValid(Moved(v, from, to, v.turn, cap));
  }

  /**
   * A second click either leaves the board and the turn alone, changing at most the
   * selection, or is a move valid_diag_move accepted.
   */
  lemma SecondClickCases(v: GameView, sq: Square)
    requires v.pieceFrom.Some?
    ensures var r := SecondClick(v, sq);
            var d := ValidDiagMove(v.pieces, v.kings, v.pieceFrom.value, sq, v.turn);
            || (&& r.0 == v.(pieceFrom := r.0.pieceFrom, pieceTo := r.0.pieceTo)
                && (r.0.pieceFrom == v.pieceFrom || r.0.pieceFrom.None?)
                && r.1 in {CaptureRequired, ContinuationRequired, NotForward, InvalidDiagonal})
            || (d.0 && r == MoveMade(v.(pieceTo := Some(sq)), v.pieceFrom.value, sq, d.1))
  {
    var v1 := v.(pieceTo := Some(sq));
    assert SecondClick(v, sq).1 !in {CaptureRequired, ContinuationRequired, NotForward}
           ==> SecondClick(v, sq) == AttemptMove(v1, v.pieceFrom.value, sq);
  }

  /** A made move leaves the board Moved describes, and either continues the capture or ends the turn. */
  lemma MoveMadeBoard(v: GameView, from: Square, to: Square, cap: Option<Square>)
    requires cap.Some? ==> cap.value in v.pieces
    ensures var r := MoveMade(v, from, to, cap);
            && r.0.pieces == Moved(v, from, to, v.turn, cap).pieces
            && (r.1 == CaptureContinues || r.1.TurnEnded?)
  {
    TurnEndKeepsValid(Moved(v, from, to, v.turn, cap));
  }

  /** The invariant survives every second click (up to the end of the game). */
  lemma SecondClickKeepsValid(v: GameView, sq: Square)
    requires ValidView(v) && v.pieceFrom.Some?
    requires sq !in v.pieces && IsPlayable(sq)
    ensures var r := SecondClick(v, sq);
            BoardValid(r.0) && (IsGameOver(r.1) || ValidView(r.0))
  {
    var from := v.pieceFrom.value;
    var d := ValidDiagMove(v.pieces, v.kings, from, sq, v.turn);
    var r := SecondClick(v, sq);
    SecondClickCases(v, sq);
    if d.0 && r == MoveMade(v.(pieceTo := Some(sq)), from, sq, d.1) {
      AcceptedMoveIsDestination(v.pieces, v.kings, v.turn, from, sq);
      MoveMadeKeepsValid(v.(pieceTo := Some(sq)), from, sq, d.1);
    } else {
      SelectionChangeKeepsValid(v, r.0.pieceFrom, r.0.pieceTo);
    }
  }

  /** Dropping or keeping the selected piece, and changing the target, keeps the invariant. */
  lemma SelectionChangeKeepsValid(v: GameView, pieceFrom: Option<Square>, pieceTo: Option<Square>)
    requires ValidView(v)
    requires pieceFrom == v.pieceFrom || pieceFrom.None?
    ensures ValidView(v.(pieceFrom := pieceFrom, pieceTo := pieceTo))
  {
  }

  /**
   * Every click on a dark square, or off the board, keeps the invariant: the board stays
   * well formed with its counters right, and the selection stays consistent unless the
   * game has just been won.
   */
  lemma ClickKeepsValid(v: GameView, square: Option<Square>)
    requires ValidView(v)
    requires square.Some? ==> IsPlayable(square.value)
    ensures var r := Click(v, square);
            BoardValid(r.0) && (IsGameOver(r.1) || ValidView(r.0))
  {
    var v0 := v.(validColRow := square);
    if square.Some? && !IsFirstClick(v0) && IsSecondClick(v0) {
      SecondClickKeepsValid(v0, square.value);
    }
  }

  /**
   * A click changes the board only by a legal move of the selected piece onto the clicked
   * square: the mover keeps all its pieces and the opponent loses exactly the captured one.
   * Captures are mandatory for that piece.
   */
  lemma ClickMovesLegally(v: GameView, square: Option<Square>)
    requires ValidView(v)
    requires square.Some? ==> IsPlayable(square.value)
    ensures var r := Click(v, square);
            r.0.pieces != v.pieces ==>
              && (r.1 == CaptureContinues || r.1.TurnEnded?)
              && v.pieceFrom.Some? && square.Some?
              && exists cap ::
                   && IsDestination(v.pieces, v.kings, v.turn, v.pieceFrom.value, square.value, cap)
                   && (HasCapture(v.pieces, v.kings, v.pieceFrom.value, v.turn) ==> cap.Some?)
                   && |PiecesOf(r.0.pieces, v.turn)| == |PiecesOf(v.pieces, v.turn)|
                   && |PiecesOf(r.0.pieces, Opponent(v.turn))|
                        == |PiecesOf(v.pieces, Opponent(v.turn))| - (if cap.Some? then 1 else 0)
  {
    var v0 := v.(validColRow := square);
    if square.Some? && !IsFirstClick(v0) && IsSecondClick(v0) {
      var sq := square.value;
      var from := v.pieceFrom.value;
      var d := ValidDiagMove(v.pieces, v.kings, from, sq, v.turn);
      SecondClickCases(v0, sq);
      if d.0 {
        AcceptedMoveIsDestination(v.pieces, v.kings, v.turn, from, sq);
        var v1 := v0.(pieceTo := Some(sq));
        MovedKeepsBoard(v1, from, sq, d.1);
        MoveMadeBoard(v1, from, sq, d.1);
      }
    }
  }

  /**
   * A first click selects a piece exactly when it lands on a piece of the side to move;
   * the selection is then that square and nothing else changes.
   */
  lemma FirstClickSelects(v: GameView, square: Option<Square>)
    requires v.pieceFrom.None?
    ensures var r := Click(v, square);
            && (r.0.pieceFrom.Some? <==> square.Some? && square.value in v.pieces && v.pieces[square.value] == v.turn)
            && (r.0.pieceFrom.Some? ==> r == (v.(validColRow := square, pieceFrom := square), PieceSelected))
            && (r.0.pieceFrom.None? ==> r.0 == v.(validColRow := square))
  {
    var v0 := v.(validColRow := square);
    assert !IsSecondClick(v0);
  }

  /**
   * The gates of a second click: when a capture exists for 'black' and the target is not
   * one of its landings, or a continuation is pending elsewhere, the board is untouched
   * and only piece_to changes (set, or cleared for a missed continuation).
   */
  lemma SecondClickGates(v: GameView, sq: Square)
    requires v.pieceFrom.Some? && sq !in v.pieces
    ensures var landings := CaptureLandings(v.pieces, v.kings);
            var v0 := v.(validColRow := Some(sq));
            var r := Click(v, Some(sq));
            && (landings != {} && sq !in landings ==> r == (v0.(pieceTo := Some(sq)), CaptureRequired))
            && ((!(landings != {} && sq !in landings) && v.nextCapture.Some? && v.nextCapture.value != sq)
                ==> r == (v0.(pieceTo := None), ContinuationRequired))
  {
    var v0 := v.(validColRow := Some(sq));
    assert !IsFirstClick(v0) && IsSecondClick(v0);
  }

  /**
   * A capture that can be continued keeps the turn: the moved piece stays selected on its
   * landing square and next_capture is the first landing of a further capture from there.
   */
  lemma ContinuationIsCapture(v: GameView, square: Option<Square>)
    ensures var r := Click(v, square);
            r.1 == CaptureContinues ==>
              && square.Some? && r.0.turn == v.turn && r.0.pieceFrom == square
              && r.0.nextCapture.Some?
              && exists c :: c in FindCaptureMoves(r.0.pieces, r.0.kings, square.value, v.turn)
                             && c.landing == r.0.nextCapture.value
  {
    var v0 := v.(validColRow := square);
    if square.Some? && !IsFirstClick(v0) && IsSecondClick(v0) {
      var sq := square.value;
      SecondClickCases(v0, sq);
      var d := ValidDiagMove(v.pieces, v.kings, v.pieceFrom.value, sq, v.turn);
      if d.0 {
        MoveMadeContinuation(v0.(pieceTo := Some(sq)), v.pieceFrom.value, sq, d.1);
      }
    }
  }

  /** The continuation branch of a made move: only after a capture, with a further capture from the landing square. */
  lemma MoveMadeContinuation(v: GameView, from: Square, to: Square, cap: Option<Square>)
    requires cap.Some? ==> cap.value in v.pieces
    ensures var r := MoveMade(v, from, to, cap);
            r.1 == CaptureContinues ==>
              && cap.Some? && r.0.turn == v.turn && r.0.pieceFrom == Some(to) && r.0.nextCapture.Some?
              && exists c :: c in FindCaptureMoves(r.0.pieces, r.0.kings, to, v.turn) && c.landing == r.0.nextCapture.value
  {
    var w := Moved(v, from, to, v.turn, cap);
    MovedKeepsSelection(v, from, to, v.turn, cap);
    var future := FindCaptureMoves(w.pieces, w.kings, to, v.turn);
    var r := MoveMade(v, from, to, cap);
    if cap.Some? && |future| > 0 {
      var c := future[0];
      assert r == (w.(nextCapture := Some(c.landing), pieceFrom := Some(to)), CaptureContinues);
      assert c in FindCaptureMoves(r.0.pieces, r.0.kings, to, v.turn);
    } else {
      assert r == TurnEnd(w);
    }
  }

  /**
   * When the turn passes, the side now to move has at least one move, and the bot is
   * scheduled exactly when that side is 'dark red'. When the game is won, the losing
   * side is the one to move and has no move, or has no pieces left.
   */
  lemma TurnEndMeaning(v: GameView)
    ensures var r := TurnEnd(v);
            && r.1.TurnEnded?
            && (r.1.winner.None? ==>
                  && r.0 == NextTurnView(v)
                  && AllMoves(r.0.pieces, r.0.kings, r.0.turn) != map[]
                  && v.redLeft > 0 && v.blackLeft > 0
                  && (r.1.botScheduled <==> r.0.turn == DarkRed))
            && (r.1.winner.Some? ==>
                  var loser := Opponent(r.1.winner.value);
                  && r.0 == v && !r.1.botScheduled
                  && ((loser == Opponent(v.turn) && AllMoves(v.pieces, v.kings, loser) == map[])
                      || (loser == DarkRed && v.redLeft <= 0) || (loser == Black && v.blackLeft <= 0)))
  {
  }

  /**
   * When a pieces-left counter agrees with the board, "no pieces left" means the side has
   * no piece on the board.
   */
  lemma LeftCounterMeaning(v: GameView)
    requires BoardValid(v)
    ensures v.redLeft <= 0 <==> PiecesOf(v.pieces, DarkRed) == {}
    ensures v.blackLeft <= 0 <==> PiecesOf(v.pieces, Black) == {}
  {
    if PiecesOf(v.pieces, DarkRed) != {} {
      var s :| s in PiecesOf(v.pieces, DarkRed);
    }
    if PiecesOf(v.pieces, Black) != {} {
      var s :| s in PiecesOf(v.pieces, Black);
    }
  }

  // ---------------------------------------------------------------------------
  // Finding: a captured king leaves its king entry behind
  // ---------------------------------------------------------------------------

  /** Red king on (3,3), black pieces on (4,4) and (2,4), a red piece on (6,0); black to move. */
  function StaleKingStart(): GameView {
    GameView(Black, 1, 0, None, None, None, 10, 10, None,
             map[Square(3, 3) := DarkRed, Square(6, 0) := DarkRed, Square(4, 4) := Black, Square(2, 4) := Black],
             map[Square(3, 3) := DarkRed], 2, 2)
  }

  lemma StaleKingStartValid()
    ensures var v := StaleKingStart();
            && ValidView(v)
            && IsDestination(v.pieces, v.kings, Black, Square(4, 4), Square(2, 2), Some(Square(3, 3)))
  {
    var v := StaleKingStart();
    assert PiecesOf(v.pieces, DarkRed) == {Square(3, 3), Square(6, 0)};
    assert PiecesOf(v.pieces, Black) == {Square(4, 4), Square(2, 4)};
    assert Capture(Square(3, 3), Square(2, 2)) in FindCaptureMoves(v.pieces, v.kings, Square(4, 4), Black);
  }

  /**
   * As written: when black jumps the red king (4,4)->(2,2), the king entry of the
   * captured piece outlives it, so the board is no longer well formed.
   */
  lemma StaleKingAsWritten()
    ensures var v0 := StaleKingStart();
            var v1 := MovedAsWritten(v0, Square(4, 4), Square(2, 2), Black, Some(Square(3, 3)));
            && ValidView(v0)
            && IsDestination(v0.pieces, v0.kings, Black, Square(4, 4), Square(2, 2), Some(Square(3, 3)))
            && Square(3, 3) !in v1.pieces && Square(3, 3) in v1.kings
            && !WellFormed(v1.pieces, v1.kings)
  {
    StaleKingStartValid();
  }

  /**
   * The consequence of a king entry left on an empty square: the next ordinary piece to
   * arrive there is registered as a king (of the captured piece's colour), and the
   * forward rule then lets it move in any direction, backwards included.
   */
  lemma StaleEntryCrownsArrival(pieces: Placement, kings: Placement, s: Square, from: Square, color: Color)
    requires s in kings && s !in pieces
    requires from in pieces && from !in kings && from != s
    ensures var k := KingsRelocated(kings, from, s, color);
            && Relocated(pieces, from, s, color)[s] == color
            && s in k && k[s] == kings[s]
            && forall t: Square :: t.col != s.col ==> MoveForward(k, s, t, color)
  {
  }

  /** As intended: the captured square leaves the king registry with the piece, so no entry outlives its piece. */
  lemma CaptureClearsKingEntry(v: GameView, from: Square, to: Square, cap: Option<Square>)
    requires BoardValid(v)
    requires from in v.pieces && v.pieces[from] == v.turn
    requires IsDestination(v.pieces, v.kings, v.turn, from, to, cap)
    requires cap.Some?
    ensures cap.value in v.pieces
    ensures var w := Moved(v, from, to, v.turn, cap);
            cap.value !in w.pieces && cap.value !in w.kings && WellFormed(w.pieces, w.kings)
  {
    DestinationOnBoard(v.pieces, v.kings, v.turn, from, to, cap);
    MovedKeepsBoard(v, from, to, cap);
  }

  // ---------------------------------------------------------------------------
  // Finding: the winner test examines the side that has just moved
  // ---------------------------------------------------------------------------

  /** Black has just moved; red's only piece, on (0,6), is blocked by the black piece on (1,7). */
  function StuckBotView(): GameView {
    GameView(Black, 0, 0, None, None, None, 11, 10, None,
             map[Square(0, 6) := DarkRed, Square(1, 7) := Black, Square(3, 3) := Black],
             map[], 1, 2)
  }

  lemma StuckBotValid()
    ensures ValidView(StuckBotView())
  {
    var v := StuckBotView();
    assert PiecesOf(v.pieces, DarkRed) == {Square(0, 6)};
    assert PiecesOf(v.pieces, Black) == {Square(1, 7), Square(3, 3)};
  }

  lemma StuckBotRedBlocked()
    ensures var v := StuckBotView(); AllMoves(v.pieces, v.kings, DarkRed) == map[]
  {
    var v := StuckBotView();
    var f := Square(0, 6);
    assert !HasCapture(v.pieces, v.kings, f, DarkRed);
    AllMovesEmptyIff(v.pieces, v.kings, DarkRed);
    forall g | g in v.pieces && v.pieces[g] == DarkRed
      ensures IsStuck(v.pieces, v.kings, DarkRed, g)
    {
      assert g == f;
      forall t | IsDiagonalTarget(false, DarkRed, f, t, 1)
        ensures t in v.pieces || !IsWithinBounds(t)
      {
        assert t == Square(1, 7) || t == Square(-1, 7);
      }
    }
  }

  lemma StuckBotBlackMoves()
    ensures var v := StuckBotView(); AllMoves(v.pieces, v.kings, Black) != map[]
  {
    var v := StuckBotView();
    var f := Square(3, 3);
    assert IsDiagonalTarget(false, Black, f, Square(2, 2), 1) && Square(2, 2) !in v.pieces && IsWithinBounds(Square(2, 2));
    assert !IsStuck(v.pieces, v.kings, Black, f);
    AllMovesEmptyIff(v.pieces, v.kings, Black);
  }

  /**
   * As written, winner() finds black able to move and passes the turn to the bot, which
   * has no move: random.choice receives an empty list. The intended decision declares
   * black the winner.
   */
  lemma WinnerAsWrittenMissesStuckBot()
    ensures var v := StuckBotView();
            && ValidView(v)
            && WinnerAsWritten(v) == None
            && AllMoves(v.pieces, v.kings, DarkRed) == map[]
            && WinnerOf(v) == Some(Black)
  {
    StuckBotValid();
    StuckBotRedBlocked();
    StuckBotBlackMoves();
  }

  /** The loop of capture_exists: the destination of every capturing move, in visiting order. */
  method CaptureLandingList(moves: map<Move, Option<Square>>) returns (r: seq<Square>)
    ensures forall t :: t in r <==> t in LandingsOf(moves)
  {
    r := [];
    var todo := moves.Keys;
    ghost var done: set<Move> := {};
    while todo != {}
      invariant done + todo == moves.Keys && done !! todo
      invariant forall t :: t in r <==> exists m :: m in done && moves[m].Some? && m.to == t
      decreases todo
    {
      var move :| move in todo;
      if moves[move].Some? {
        r := r + [move.to];
      }
      done := done + {move};
      todo := todo - {move};
    }
  }

  // ---------------------------------------------------------------------------
  // The game object
  // ---------------------------------------------------------------------------

  /** GameState: the turn, the click state, the scores and the board it plays on. */
  class GameState {
    var turnColor: Color
    var redKings: int
    var blackKings: int
    var pieceFrom: Option<Square>
    var pieceTo: Option<Square>
    var validColRow: Option<Square>
    const board: Board
    var blackScore: int
    var redScore: int
    var nextCapture: Option<Square>
    const botplayer: BotPlayer

    /** The game's fields and its board's dictionaries and counters, as one value. */
    function View(): GameView
      reads this, board
    {
      GameView(turnColor, redKings, blackKings, pieceFrom, pieceTo, validColRow, blackScore, redScore,
               nextCapture, board.pieceLocations, board.kingPieces, board.redLeft, board.blackLeft)
    }

    ghost predicate Valid()
      reads this, board
    {
      ValidView(View()) && botplayer.board == board
    }

    /** A new game: zero kings and scores, nothing selected, `turn` to move, 'black' unless given. */
    constructor (board: Board, botplayer: BotPlayer, turn: Color := Black)
      ensures this.board == board && this.botplayer == botplayer
      ensures View() == GameView(turn, 0, 0, None, None, None, 0, 0, None,
                                 board.pieceLocations, board.kingPieces, board.redLeft, board.blackLeft)
    {
      this.turnColor := turn;
      this.redKings, this.blackKings := 0, 0;
      this.pieceFrom, this.pieceTo := None, None;
      this.validColRow := None;
      this.board := board;
      this.blackScore, this.redScore := 0, 0;
      this.nextCapture := None;
      this.botplayer := botplayer;
    }

    /** next_turn; the result says whether the bot's turn is scheduled. */
    method NextTurn() returns (botScheduled: bool)
      modifies this
      ensures View() == NextTurnView(old(View()))
      ensures botScheduled <==> old(turnColor) == Black
    {
      ResetMove();
      if turnColor == Black {
        turnColor := DarkRed;
        botScheduled := true;
      } else {
        turnColor := Black;
        botScheduled := false;
      }
      nextCapture := None;
    }

    /** keep_score_and_piece_count. */
    method KeepScoreAndPieceCount(captured: Square)
      requires captured in board.pieceLocations
      modifies this, board
      ensures View() == Tallied(old(View()), old(board.pieceLocations[captured]))
    {
      var capturedColor := board.pieceLocations[captured];
      if capturedColor == DarkRed {
        blackScore := blackScore + 1;
        board.redLeft := board.redLeft - 1;
      } else {
        redScore := redScore + 1;
        board.blackLeft := board.blackLeft - 1;
      }
    }

    /** winner: the game ends with a winner, or the turn passes. */
    method Winner() returns (winner: Option<Color>, botScheduled: bool)
      modifies this
      ensures (View(), TurnEnded(winner, botScheduled)) == TurnEnd(old(View()))
    {
      var toMove := Opponent(turnColor);
      var piecesMoves := board.AllPossibleMoves(toMove);
      var isBlocked := IsBlockedFromMoving(piecesMoves);
      if (isBlocked && toMove == DarkRed) || board.redLeft <= 0 {
        return Some(Black), false;
      } else if (isBlocked && toMove == Black) || board.blackLeft <= 0 {
        return Some(DarkRed), false;
      }
      winner := None;
      botScheduled := NextTurn();
    }

    /** reset_move. */
    method ResetMove()
      modifies this
      ensures View() == old(View()).(pieceFrom := None, pieceTo := None)
    {
      pieceFrom := None;
      pieceTo := None;
    }

    /** handle_capture_move (corrected: the jumped square also leaves king_pieces). */
    method HandleCaptureMove(captured: Option<Square>)
      requires captured.Some? ==> captured.value in board.pieceLocations
      modifies this, board
      ensures View() == CaptureHandled(old(View()), captured)
    {
      if captured.Some? {
        KeepScoreAndPieceCount(captured.value);
        board.pieceLocations := board.pieceLocations - {captured.value};
        board.kingPieces := board.kingPieces - {captured.value};
      }
    }

    /** handle_king_piece. */
    method HandleKingPiece(to: Square)
      modifies this, board
      ensures View() == KingHandled(old(View()), to)
    {
      if turnColor == Black {
        if to.row == RedFirstRow {
          board.MakeKingPiece(to, turnColor);
          blackKings := blackKings + 1;
        }
      } else if to.row == BlackFirstRow {
        board.MakeKingPiece(to, turnColor);
        redKings := redKings + 1;
      }
    }

    /**
     * move_and_update_piece: moves the selected piece to piece_to for the side to move.
     * update_checker_loc fails on a missing piece_from, and keep_score_and_piece_count on
     * a missing captured square.
     */
    method MoveAndUpdatePiece(captured: Option<Square>)
      requires pieceFrom.Some? && pieceTo.Some? && pieceFrom.value in board.pieceLocations
      requires captured.Some? ==> captured.value in board.pieceLocations && captured.value != pieceFrom.value
      modifies this, board
      ensures View() == Moved(old(View()), old(pieceFrom.value), old(pieceTo.value), old(turnColor), captured)
    {
      HandleCaptureMove(captured);
      board.UpdateCheckerLoc(pieceFrom.value, pieceTo.value, turnColor);
      HandleKingPiece(pieceTo.value);
    }

    /** handle_bot_move: moves a 'dark red' piece; promotion goes by turn_color, as in the source. */
    method HandleBotMove(from: Square, to: Square, capture: Option<Square>)
      requires from in board.pieceLocations
      requires capture.Some? ==> capture.value in board.pieceLocations && capture.value != from
      modifies this, board
      ensures View() == Moved(old(View()), from, to, DarkRed, capture)
    {
      HandleCaptureMove(capture);
      board.UpdateCheckerLoc(from, to, DarkRed);
      HandleKingPiece(to);
    }

    /** capture_exists: the landing squares of the captures open to 'black'. */
    method CaptureExists() returns (r: seq<Square>)
      ensures forall t :: t in r <==> t in CaptureLandings(board.pieceLocations, board.kingPieces)
    {
      var allBlackPieces := board.AllPossibleMoves(Black);
      r := CaptureLandingList(allBlackPieces);
    }

    /**
     * move_checker_piece on a resolved square: a first click selects a piece, a second
     * click moves it when the gates allow. The square comes from valid_board_pos, which
     * yields only dark squares of the board.
     */
    method MoveCheckerPiece(square: Option<Square>) returns (outcome: ClickOutcome)
      requires Valid()
      requires square.Some? ==> IsPlayable(square.value)
      modifies this, board
      ensures (View(), outcome) == Click(old(View()), square)
      ensures BoardValid(View()) && (IsGameOver(outcome) || Valid())
    {
      ghost var v := View();
      ClickKeepsValid(v, square);
      validColRow := square;
      if validColRow.None? {
        return NoSquare;
      }
      var sq := validColRow.value;
      if IsFirstClick(View()) {
        if board.pieceLocations[sq] != turnColor {
          pieceFrom := None;
          return NotYourPiece;
        }
        pieceFrom := validColRow;
        return PieceSelected;
      } else if IsSecondClick(View()) {
        outcome := HandleSecondClick(sq);
      } else {
        outcome := ClickIgnored;
      }
    }

    /** The second-click branch of move_checker_piece: the gates, then the move. */
    method HandleSecondClick(sq: Square) returns (outcome: ClickOutcome)
      requires pieceFrom.Some? && pieceFrom.value in board.pieceLocations
      requires board.pieceLocations[pieceFrom.value] == turnColor
      modifies this, board
      ensures (View(), outcome) == SecondClick(old(View()), sq)
    {
      pieceTo := Some(sq);
      var captureExists := CaptureExists();
      ghost var landings := CaptureLandings(board.pieceLocations, board.kingPieces);
      assert |captureExists| > 0 <==> landings != {} by {
        if |captureExists| > 0 {
          assert captureExists[0] in captureExists;
        }
        if landings != {} {
          var t :| t in landings;
          assert t in captureExists;
        }
      }
      if |captureExists| > 0 && sq !in captureExists {
        return CaptureRequired;
      }
      if nextCapture.Some? && nextCapture.value != sq {
        pieceTo := None;
        return ContinuationRequired;
      }
      var from := pieceFrom.value;
      if !MoveForward(board.kingPieces, from, sq, turnColor) {
        ResetMove();
        return NotForward;
      }
      var isValidMove, captured := ValidDiagMove(board.pieceLocations, board.kingPieces, from, sq, turnColor).0,
                                   ValidDiagMove(board.pieceLocations, board.kingPieces, from, sq, turnColor).1;
      if !isValidMove {
        ResetMove();
        return InvalidDiagonal;
      }
      outcome := MakeMove(captured);
    }

    /** The end of move_checker_piece: move the piece, then continue the capture or end the turn. */
    method MakeMove(captured: Option<Square>) returns (outcome: ClickOutcome)
      requires pieceFrom.Some? && pieceTo.Some? && pieceFrom.value in board.pieceLocations
      requires captured.Some? ==> captured.value in board.pieceLocations && captured.value != pieceFrom.value
      modifies this, board
      ensures (View(), outcome) == MoveMade(old(View()), old(pieceFrom.value), old(pieceTo.value), captured)
    {
      MoveAndUpdatePiece(captured);
      var future := FindCaptureMoves(board.pieceLocations, board.kingPieces, pieceTo.value, turnColor);
      if captured.Some? && |future| > 0 {
        nextCapture := Some(future[0].landing);
        pieceFrom := pieceTo;
        return CaptureContinues;
      }
      var winner, botScheduled := Winner();
      return TurnEnded(winner, botScheduled);
    }

    /**
     * bot_player, with the multiple-capture loop as intended: the bot's move, then one
     * further capture at a time from the square the piece stands on, while one exists,
     * then the winner test. The bot runs on red's turn, scheduled by next_turn.
     */
    method BotPlayer() returns (winner: Option<Color>, botScheduled: bool)
      requires BoardValid(View()) && botplayer.board == board && turnColor == DarkRed
      requires AllMoves(board.pieceLocations, board.kingPieces, DarkRed) != map[]
      modifies this, board
      ensures BoardValid(View())
      ensures |PiecesOf(board.pieceLocations, DarkRed)| == old(|PiecesOf(board.pieceLocations, DarkRed)|)
      ensures var all := old(AllMoves(board.pieceLocations, board.kingPieces, DarkRed));
              (exists m :: m in all && all[m].Some?) ==> board.blackLeft < old(board.blackLeft)
      ensures winner.None? ==>
                && Valid() && turnColor == Black && !botScheduled
                && AllMoves(board.pieceLocations, board.kingPieces, Black) != map[]
      ensures var v := old(View());
              var all := AllMoves(v.pieces, v.kings, DarkRed);
              exists m :: m in all
                && ((exists k :: k in all && all[k].Some?) ==> all[m].Some?)
                && BotTurn(v, m) == (View(), TurnEnded(winner, botScheduled))
    {
      ghost var v0 := View();
      var sel := botplayer.BotMove();
      AllMovesMeaning(board.pieceLocations, board.kingPieces, DarkRed);
      MovedKeepsBoard(View(), sel.from, sel.to, sel.capture);
      HandleBotMove(sel.from, sel.to, sel.capture);
      var pieceTo := sel.to;
      var capture := sel.capture;
      ghost var target := if capture.Some? then BotContinued(View(), pieceTo).0 else View();
      var future := FindCaptureMoves(board.pieceLocations, board.kingPieces, pieceTo, DarkRed);
      while capture.Some? && |future| > 0
        invariant BoardValid(View()) && botplayer.board == board && turnColor == DarkRed
        invariant pieceTo in board.pieceLocations && board.pieceLocations[pieceTo] == DarkRed
        invariant future == FindCaptureMoves(board.pieceLocations, board.kingPieces, pieceTo, DarkRed)
        invariant |PiecesOf(board.pieceLocations, DarkRed)| == old(|PiecesOf(board.pieceLocations, DarkRed)|)
        invariant capture.Some? ==> board.blackLeft < old(board.blackLeft)
        invariant var all := old(AllMoves(board.pieceLocations, board.kingPieces, DarkRed));
                  (exists m :: m in all && all[m].Some?) ==> capture.Some?
        invariant capture.Some? ==> BotContinued(View(), pieceTo).0 == target
        invariant capture.None? ==> View() == target
        decreases board.blackLeft
      {
        var c := future[0];
        BetweenOfCapture(board.pieceLocations, pieceTo in board.kingPieces, DarkRed, pieceTo, c);
        MovedKeepsBoard(View(), pieceTo, c.landing, Some(c.captured));
        HandleBotMove(pieceTo, c.landing, Some(c.captured));
        pieceTo := c.landing;
        future := FindCaptureMoves(board.pieceLocations, board.kingPieces, pieceTo, DarkRed);
      }
      ghost var before := View();
      assert before == target;
      winner, botScheduled := Winner();
      TurnEndMeaning(before);
      assert BotTurn(v0, Move(sel.from, sel.to)) == (View(), TurnEnded(winner, botScheduled));
    }
  }
}
