/**
 * The checkers board: piece placement, king registry, geometry of diagonal moves,
 * capture detection and move generation (Checkers/board.py).
 *
 * The rules are functions of the two dictionaries of the board, `piece_locations`
 * (square -> colour) and `king_pieces` (square -> colour); the class `Board` holds
 * those dictionaries and the operations that build or update them step by step.
 */
module CheckersBoard {
  import opened Wrappers

  /** The two piece colours, 'black' (starts on rows 5-7, moves up) and 'dark red' (rows 0-2, moves down). */
  datatype Color = Black | DarkRed

  function Opponent(c: Color): Color { if c == Black then DarkRed else Black }

  /** A (column, row) coordinate. Row 0 is the top row. Candidate squares may lie off the board. */
  datatype Square = Square(col: int, row: int)

  /** The two move types of the source: a move one square over, or a capture two squares over. */
  datatype MoveKind = Step | Jump

  /** One capture opportunity: the square of the piece jumped over and the landing square. */
  datatype Capture = Capture(captured: Square, landing: Square)

  /** A key of `all_possible_moves`: (piece_from, piece_to). */
  datatype Move = Move(from: Square, to: Square)

  type Placement = map<Square, Color>

  /** The moves of one piece, each destination mapped to the square it captures, if any. */
  type Destinations = map<Square, Option<Square>>

  /** The loop bounds and the shifts of locate_starting_pieces (constants.py). */
  const BottomRow := -4
  const TopRow := 3
  const CenterRow := 0
  const ColShift := 4
  const RowShift := -3

  function Abs(x: int): int { if x < 0 then -x else x }

  predicate IsWithinBounds(s: Square) { 0 <= s.col < 8 && 0 <= s.row < 8 }

  /** A square that is not on the first or last row or column (is_not_corner_piece). */
  predicate IsNotCornerPiece(s: Square) { s.col != 7 && s.col != 0 && s.row != 0 && s.row != 7 }

  predicate IsEmptySquare(pieces: Placement, s: Square) { s !in pieces }

  /** A dark square of the board, the only squares pieces ever occupy. */
  predicate IsPlayable(s: Square) { IsWithinBounds(s) && s.col % 2 == s.row % 2 }

  /**
   * The board invariant: every piece is on a playable square, and every king entry
   * names an occupied square with the same colour.
   */
  predicate WellFormed(pieces: Placement, kings: Placement) {
    && (forall s :: s in pieces ==> IsPlayable(s))
    && (forall s :: s in kings ==> s in pieces && pieces[s] == kings[s])
  }

  // ---------------------------------------------------------------------------
  // Geometry
  // ---------------------------------------------------------------------------

  /** The row direction in which an ordinary piece of `color` moves: 'black' up, 'dark red' down. */
  function Forward(color: Color): int { if color == Black then -1 else 1 }

  /**
   * `to` lies `dist` squares from `from` along a diagonal a piece may follow: any of the
   * four for a king, one of the two forward diagonals for an ordinary piece.
   */
  predicate IsDiagonalTarget(isKing: bool, color: Color, from: Square, to: Square, dist: int) {
    && (to.col == from.col + dist || to.col == from.col - dist)
    && (if isKing then to.row == from.row - dist || to.row == from.row + dist
        else to.row == from.row + Forward(color) * dist)
  }

  /** move_to_coord_shift: one square for a move, two for a capture. */
  function Shift(kind: MoveKind): (s: int)
    ensures s == 1 || s == 2
    ensures s == 2 <==> kind == Jump
  {
    match kind
    case Step => 1
    case Jump => 2
  }

  /** move_king_to_coord: up-right, up-left, down-right, down-left. */
  function KingTargets(from: Square, kind: MoveKind): (r: seq<Square>)
    ensures |r| == 4
    ensures forall t :: t in r <==> IsDiagonalTarget(true, Black, from, t, Shift(kind))
  {
    var s := Shift(kind);
    [Square(from.col + s, from.row - s), Square(from.col - s, from.row - s),
     Square(from.col + s, from.row + s), Square(from.col - s, from.row + s)]
  }

  /** move_to_coord: right and left along the forward row of `color`. */
  function OrdinaryTargets(from: Square, color: Color, kind: MoveKind): (r: seq<Square>)
    ensures |r| == 2
    ensures forall t :: t in r <==> IsDiagonalTarget(false, color, from, t, Shift(kind))
  {
    var s := Shift(kind);
    var row := if color == Black then from.row - s else from.row + s;
    [Square(from.col + s, row), Square(from.col - s, row)]
  }

  /** The candidate squares of a piece: four directions for a king, two for an ordinary piece. */
  function Targets(isKing: bool, from: Square, color: Color, kind: MoveKind): (r: seq<Square>)
    ensures forall t :: t in r <==> IsDiagonalTarget(isKing, color, from, t, Shift(kind))
  {
    if isKing then KingTargets(from, kind) else OrdinaryTargets(from, color, kind)
  }

  /**
   * move_forward: a move must change column; a king may then go either way, an ordinary
   * piece only toward the opponent's side.
   */
  function MoveForward(kings: Placement, from: Square, to: Square, color: Color): (r: bool)
    ensures r <==> from.col != to.col && (from in kings || (to.row - from.row) * Forward(color) > 0)
  {
    if from.col != to.col then
      if from !in kings then
        match color
        case Black => from.row > to.row
        case DarkRed => from.row < to.row
      else true
    else false
  }

  // ---------------------------------------------------------------------------
  // Captures
  // ---------------------------------------------------------------------------

  /**
   * capture_piece_color: the colour of the piece on `captured` when it is off the outer
   * ring and the landing square is empty.
   */
  function CapturePieceColor(pieces: Placement, captured: Square, landing: Square): (r: Option<Color>)
    ensures r.Some? <==> IsNotCornerPiece(captured) && captured in pieces && landing !in pieces
    ensures r.Some? ==> r.value == pieces[captured]
  {
    if IsNotCornerPiece(captured) && captured in pieces && IsEmptySquare(pieces, landing)
    then Some(pieces[captured])
    else None
  }

  /**
   * A capture of the piece on `c.captured`, landing on `c.landing`, is open to a piece of
   * `color` on `from`: the jumped square is the next square along an allowed diagonal,
   * the landing square is the one after it, the jumped piece is an opponent's and is
   * off the outer ring, and the landing square is empty.
   */
  predicate IsCaptureOpportunity(pieces: Placement, isKing: bool, color: Color, from: Square, c: Capture) {
    && IsDiagonalTarget(isKing, color, from, c.captured, 1)
    && c.landing == Square(2 * c.captured.col - from.col, 2 * c.captured.row - from.row)
    && c.captured in pieces && pieces[c.captured] != color
    && IsNotCornerPiece(c.captured)
    && c.landing !in pieces
  }

  /** No two captures of the list land on the same square. */
  predicate LandingsDistinct(caps: seq<Capture>) {
    forall i, j :: 0 <= i < j < |caps| ==> caps[i].landing != caps[j].landing
  }

  /** One direction of can_capture / king_can_capture. */
  function CaptureAt(pieces: Placement, color: Color, captured: Square, landing: Square): seq<Capture> {
    var c := CapturePieceColor(pieces, captured, landing);
    if c.Some? && c.value != color && IsNotCornerPiece(captured) then [Capture(captured, landing)] else []
  }

  /** can_capture: the captures of an ordinary piece, right direction first. */
  function CanCapture(pieces: Placement, from: Square, color: Color): (r: seq<Capture>)
    ensures forall c :: c in r <==> IsCaptureOpportunity(pieces, false, color, from, c)
    ensures LandingsDistinct(r)
  {
    var steps := OrdinaryTargets(from, color, Step);
    var jumps := OrdinaryTargets(from, color, Jump);
    CaptureAt(pieces, color, steps[0], jumps[0]) + CaptureAt(pieces, color, steps[1], jumps[1])
  }

  /** king_can_capture: the captures of a king, in the order up-right, up-left, down-right, down-left. */
  function KingCanCapture(pieces: Placement, from: Square, color: Color): (r: seq<Capture>)
    ensures forall c :: c in r <==> IsCaptureOpportunity(pieces, true, color, from, c)
    ensures LandingsDistinct(r)
  {
    var steps := KingTargets(from, Step);
    var jumps := KingTargets(from, Jump);
    CaptureAt(pieces, color, steps[0], jumps[0]) + CaptureAt(pieces, color, steps[1], jumps[1])
      + CaptureAt(pieces, color, steps[2], jumps[2]) + CaptureAt(pieces, color, steps[3], jumps[3])
  }

  /**
   * find_capture_moves: the captures open to the piece on `from`; the source's
   * (None, None) is the empty list here. Kings are recognised by `king_pieces`.
   */
  function FindCaptureMoves(pieces: Placement, kings: Placement, from: Square, color: Color): (r: seq<Capture>)
    ensures forall c :: c in r <==> IsCaptureOpportunity(pieces, from in kings, color, from, c)
    ensures LandingsDistinct(r)
  {
    if from in kings then KingCanCapture(pieces, from, color) else CanCapture(pieces, from, color)
  }

  predicate HasCapture(pieces: Placement, kings: Placement, from: Square, color: Color) {
    |FindCaptureMoves(pieces, kings, from, color)| > 0
  }

  /** On a well-formed board every landing square of a capture is a playable, empty square. */
  lemma CaptureLandingOnBoard(pieces: Placement, kings: Placement, isKing: bool, from: Square, color: Color, c: Capture)
    requires WellFormed(pieces, kings) && IsPlayable(from)
    requires IsCaptureOpportunity(pieces, isKing, color, from, c)
    ensures IsPlayable(c.landing) && c.landing !in pieces && c.landing != from
    ensures c.captured in pieces && pieces[c.captured] == Opponent(color)
  {
    var dc, dr := c.captured.col - from.col, c.captured.row - from.row;
    assert (dc == 1 || dc == -1) && (dr == 1 || dr == -1);
    assert 1 <= c.captured.col <= 6 && 1 <= c.captured.row <= 6;
    assert c.landing == Square(from.col + 2 * dc, from.row + 2 * dr);
    SameParity(from.col, dc);
    SameParity(from.row, dr);
  }

  lemma SameParity(a: int, d: int)
    requires d == 1 || d == -1
    ensures (a + 2 * d) % 2 == a % 2
  {
  }

  // ---------------------------------------------------------------------------
  // Move validation and generation
  // ---------------------------------------------------------------------------

  /** The position of the first capture in `caps` that lands on `to` (list.index in the source). */
  function LandingIndex(caps: seq<Capture>, to: Square): (r: Option<nat>)
    ensures r.Some? ==> r.value < |caps| && caps[r.value].landing == to
    ensures r.Some? ==> forall j :: 0 <= j < r.value ==> caps[j].landing != to
    ensures r.None? <==> forall c :: c in caps ==> c.landing != to
  {
    if caps == [] then None
    else if caps[0].landing == to then Some(0)
    else match LandingIndex(caps[1..], to)
      case None => None
      case Some(i) => Some(i + 1)
  }

  /**
   * valid_diag_move: when the piece on `from` has a capture, only a capture landing square
   * is accepted, and it comes with the square it jumps; otherwise only a one-square
   * diagonal step in an allowed direction is accepted, with no capture. The step branch
   * checks neither that `to` is empty nor that it is on the board; the caller does the first.
   */
  function ValidDiagMove(pieces: Placement, kings: Placement, from: Square, to: Square, color: Color)
    : (r: (bool, Option<Square>))
    ensures !r.0 ==> r.1 == None
    ensures r.1.Some? ==> r.1.value in pieces && pieces[r.1.value] != color
    ensures HasCapture(pieces, kings, from, color) ==>
              && (r.0 <==> exists c :: c in FindCaptureMoves(pieces, kings, from, color) && c.landing == to)
              && (r.0 ==> r.1.Some? && IsCaptureOpportunity(pieces, from in kings, color, from, Capture(r.1.value, to)))
    ensures !HasCapture(pieces, kings, from, color) ==>
              r.1 == None && (r.0 <==> IsDiagonalTarget(from in kings, color, from, to, 1))
  {
    var caps := FindCaptureMoves(pieces, kings, from, color);
    if |caps| > 0 then
      match LandingIndex(caps, to)
      case Some(i) => (true, Some(caps[i].captured))
      case None => (false, None)
    else if to in Targets(from in kings, from, color, Step) then (true, None)
    else (false, None)
  }

  /**
   * The capture half of get_valid_moves_for_bot, `dict(zip(landings, captured))`:
   * every landing square mapped to the square its capture jumps.
   */
  function CaptureMap(caps: seq<Capture>): (m: Destinations)
    ensures forall t :: t in m <==> exists c :: c in caps && c.landing == t
    ensures LandingsDistinct(caps) ==> forall c :: c in caps ==> m[c.landing] == Some(c.captured)
  {
    if caps == [] then map[]
    else
      var last := caps[|caps| - 1];
      assert forall c :: c in caps ==> c in caps[..|caps| - 1] || c == last;
      CaptureMap(caps[..|caps| - 1])[last.landing := Some(last.captured)]
  }

  /** The non-capture half of get_valid_moves_for_bot: candidates that are empty and on the board. */
  function StepMap(pieces: Placement, candidates: seq<Square>): (m: Destinations)
    ensures forall t :: t in m <==> t in candidates && t !in pieces && IsWithinBounds(t)
    ensures forall t :: t in m ==> m[t] == None
  {
    map t | t in candidates && t !in pieces && IsWithinBounds(t) :: None
  }

  /** One more candidate adds itself to the step map when it is empty and on the board. */
  lemma StepMapSnoc(pieces: Placement, candidates: seq<Square>, c: Square)
    ensures StepMap(pieces, candidates + [c]) ==
            if c !in pieces && IsWithinBounds(c) then StepMap(pieces, candidates)[c := None]
            else StepMap(pieces, candidates)
  {
    var m := StepMap(pieces, candidates + [c]);
    var n := if c !in pieces && IsWithinBounds(c) then StepMap(pieces, candidates)[c := None]
             else StepMap(pieces, candidates);
    assert forall t :: t in m <==> t in n;
  }

  /**
   * get_valid_moves_for_bot: the capture map when the piece on `from` can capture,
   * otherwise its empty on-board one-square steps, or None when there are none.
   * Its meaning is stated by ValidMovesForBotMeaning.
   */
  function ValidMovesForBot(pieces: Placement, kings: Placement, from: Square, color: Color): Option<Destinations> {
    var caps := FindCaptureMoves(pieces, kings, from, color);
    if |caps| > 0 then Some(CaptureMap(caps))
    else
      var steps := StepMap(pieces, Targets(from in kings, from, color, Step));
      if steps == map[] then None else Some(steps)
  }

  /** The square between `from` and a capture's landing square `to`. */
  function Between(from: Square, to: Square): Square {
    Square((from.col + to.col) / 2, (from.row + to.row) / 2)
  }

  /**
   * The rules' meaning of "the piece of `color` on `from` may go to `to`, capturing
   * `cap`": when that piece has any capture, only captures are allowed and `cap` is
   * the jumped square; otherwise `to` is an empty on-board square one step along an
   * allowed diagonal and nothing is captured.
   */
  predicate IsDestination(pieces: Placement, kings: Placement, color: Color, from: Square, to: Square, cap: Option<Square>) {
    if HasCapture(pieces, kings, from, color) then
      cap == Some(Between(from, to)) && IsCaptureOpportunity(pieces, from in kings, color, from, Capture(Between(from, to), to))
    else
      cap == None && IsDiagonalTarget(from in kings, color, from, to, 1) && to !in pieces && IsWithinBounds(to)
  }

  lemma BetweenOfCapture(pieces: Placement, isKing: bool, color: Color, from: Square, c: Capture)
    requires IsCaptureOpportunity(pieces, isKing, color, from, c)
    ensures Between(from, c.landing) == c.captured
  {
  }

  /**
   * get_valid_moves_for_bot returns exactly the destinations the rules allow: every entry
   * it returns is an allowed destination with its capture, and every allowed destination
   * is an entry. Captures are mandatory: none of its entries is a plain step when the
   * piece can capture.
   */
  lemma ValidMovesForBotMeaning(pieces: Placement, kings: Placement, from: Square, color: Color)
    ensures var r := ValidMovesForBot(pieces, kings, from, color);
            r.Some? ==> forall t :: t in r.value ==> IsDestination(pieces, kings, color, from, t, r.value[t])
    ensures var r := ValidMovesForBot(pieces, kings, from, color);
            forall t, cap :: IsDestination(pieces, kings, color, from, t, cap) ==> r.Some? && t in r.value
    ensures var r := ValidMovesForBot(pieces, kings, from, color);
            r.Some? ==> (HasCapture(pieces, kings, from, color) <==> exists t :: t in r.value && r.value[t].Some?)
  {
    var r := ValidMovesForBot(pieces, kings, from, color);
    var caps := FindCaptureMoves(pieces, kings, from, color);
    if |caps| > 0 {
      var m := CaptureMap(caps);
      assert r == Some(m);
      forall t | t in m ensures IsDestination(pieces, kings, color, from, t, m[t]) {
        var c :| c in caps && c.landing == t;
        BetweenOfCapture(pieces, from in kings, color, from, c);
      }
      forall t, cap | IsDestination(pieces, kings, color, from, t, cap) ensures t in m {
        assert Capture(Between(from, t), t) in caps;
      }
      var t0 := caps[0].landing;
      assert t0 in m && m[t0].Some?;
    } else {
      var steps := StepMap(pieces, Targets(from in kings, from, color, Step));
      forall t, cap | IsDestination(pieces, kings, color, from, t, cap) ensures t in steps {
      }
    }
  }

  /** all_possible_moves: the moves of every piece of `color`, each mapped to its capture. */
  function AllMoves(pieces: Placement, kings: Placement, color: Color): map<Move, Option<Square>> {
    map m | m in MoveKeys(pieces, kings, color) :: ValidMovesForBot(pieces, kings, m.from, color).value[m.to]
  }

  /** The (piece_from, piece_to) keys of all_possible_moves. */
  function MoveKeys(pieces: Placement, kings: Placement, color: Color): set<Move> {
    set f, t | f in pieces.Keys && pieces[f] == color && ValidMovesForBot(pieces, kings, f, color).Some?
                 && t in ValidMovesForBot(pieces, kings, f, color).value.Keys :: Move(f, t)
  }

  /** The squares holding pieces of `color`. */
  function PiecesOf(pieces: Placement, color: Color): set<Square> {
    set s | s in pieces && pieces[s] == color
  }

  // ---------------------------------------------------------------------------
  // Properties of move generation
  // ---------------------------------------------------------------------------

  /**
   * all_possible_moves lists exactly the allowed moves of the pieces of `color`: each
   * entry starts on such a piece and is an allowed destination with its capture, and
   * every allowed destination of every such piece is an entry.
   */
  lemma AllMovesMeaning(pieces: Placement, kings: Placement, color: Color)
    ensures var all := AllMoves(pieces, kings, color);
            forall m :: m in all ==>
              m.from in pieces && pieces[m.from] == color && IsDestination(pieces, kings, color, m.from, m.to, all[m])
    ensures var all := AllMoves(pieces, kings, color);
            forall f, t, cap :: f in pieces && pieces[f] == color && IsDestination(pieces, kings, color, f, t, cap) ==>
              Move(f, t) in all && all[Move(f, t)] == cap
  {
    var all := AllMoves(pieces, kings, color);
    forall m | m in all
      ensures m.from in pieces && pieces[m.from] == color && IsDestination(pieces, kings, color, m.from, m.to, all[m])
    {
      assert m in MoveKeys(pieces, kings, color);
      ValidMovesForBotMeaning(pieces, kings, m.from, color);
    }
    forall f, t, cap | f in pieces && pieces[f] == color && IsDestination(pieces, kings, color, f, t, cap)
      ensures Move(f, t) in all && all[Move(f, t)] == cap
    {
      ValidMovesForBotMeaning(pieces, kings, f, color);
      var v := ValidMovesForBot(pieces, kings, f, color);
      assert Move(f, t) in MoveKeys(pieces, kings, color);
      assert IsDestination(pieces, kings, color, f, t, v.value[t]);
    }
  }

  /**
   * all_possible_moves is empty exactly when no piece of `color` has a capture and
   * none has an empty on-board diagonal step.
   */
  lemma AllMovesEmptyIff(pieces: Placement, kings: Placement, color: Color)
    ensures AllMoves(pieces, kings, color) == map[] <==>
              forall f :: f in pieces && pieces[f] == color ==> IsStuck(pieces, kings, color, f)
  {
    AllMovesMeaning(pieces, kings, color);
    var all := AllMoves(pieces, kings, color);
    if all == map[] {
      forall f | f in pieces && pieces[f] == color ensures IsStuck(pieces, kings, color, f) {
        StuckWithoutDestination(pieces, kings, color, f);
      }
    } else {
      var m :| m in all;
      assert IsDestination(pieces, kings, color, m.from, m.to, all[m]);
      StuckWithoutDestination(pieces, kings, color, m.from);
    }
  }

  /** The piece on `f` has no capture and no empty on-board diagonal step. */
  ghost predicate IsStuck(pieces: Placement, kings: Placement, color: Color, f: Square) {
    && !HasCapture(pieces, kings, f, color)
    && forall t :: IsDiagonalTarget(f in kings, color, f, t, 1) ==> t in pieces || !IsWithinBounds(t)
  }

  lemma StuckWithoutDestination(pieces: Placement, kings: Placement, color: Color, f: Square)
    ensures IsStuck(pieces, kings, color, f) <==> forall t, cap :: !IsDestination(pieces, kings, color, f, t, cap)
  {
    if HasCapture(pieces, kings, f, color) {
      var c := FindCaptureMoves(pieces, kings, f, color)[0];
      BetweenOfCapture(pieces, f in kings, color, f, c);
      assert IsDestination(pieces, kings, color, f, c.landing, Some(c.captured));
    } else if IsStuck(pieces, kings, color, f) {
      forall t, cap ensures !IsDestination(pieces, kings, color, f, t, cap) {
        if IsDiagonalTarget(f in kings, color, f, t, 1) {
          assert t in pieces || !IsWithinBounds(t);
        }
      }
    } else {
      var t :| IsDiagonalTarget(f in kings, color, f, t, 1) && t !in pieces && IsWithinBounds(t);
      assert IsDestination(pieces, kings, color, f, t, None);
    }
  }

  /** On a well-formed board every move all_possible_moves lists ends on an empty playable square. */
  lemma AllMovesStayOnBoard(pieces: Placement, kings: Placement, color: Color, m: Move)
    requires WellFormed(pieces, kings)
    requires m in AllMoves(pieces, kings, color)
    ensures m.from in pieces && pieces[m.from] == color
    ensures IsPlayable(m.to) && m.to !in pieces
    ensures var cap := AllMoves(pieces, kings, color)[m];
            cap.Some? ==> cap.value in pieces && pieces[cap.value] == Opponent(color) && cap.value != m.to
  {
    AllMovesMeaning(pieces, kings, color);
    var cap := AllMoves(pieces, kings, color)[m];
    assert IsDestination(pieces, kings, color, m.from, m.to, cap);
    assert IsPlayable(m.from);
    if HasCapture(pieces, kings, m.from, color) {
      CaptureLandingOnBoard(pieces, kings, m.from in kings, m.from, color, Capture(cap.value, m.to));
    } else {
      StepKeepsParity(m.from, m.to);
    }
  }

  /** A one-square diagonal step from a playable square to an on-board square stays playable. */
  lemma StepKeepsParity(from: Square, to: Square)
    requires IsPlayable(from) && IsWithinBounds(to)
    requires to.col - from.col == 1 || to.col - from.col == -1
    requires to.row - from.row == 1 || to.row - from.row == -1
    ensures IsPlayable(to)
  {
    FlipParity(from.col, to.col);
    FlipParity(from.row, to.row);
  }

  lemma FlipParity(a: int, b: int)
    requires b - a == 1 || b - a == -1
    ensures b % 2 == 1 - a % 2
  {
  }

  // ---------------------------------------------------------------------------
  // Relocation and promotion
  // ---------------------------------------------------------------------------

  /** The placement after update_checker_loc moves a piece of `color` from `from` to `to`. */
  function Relocated(pieces: Placement, from: Square, to: Square, color: Color): Placement {
    (pieces - {from})[to := color]
  }

  /** The king registry after update_checker_loc: a king entry migrates with its piece. */
  function KingsRelocated(kings: Placement, from: Square, to: Square, color: Color): Placement {
    if from in kings then (kings - {from})[to := color] else kings
  }

  /**
   * update_checker_loc removes `from`, maps `to` to the colour, moves a king entry from
   * `from` to `to`, and leaves every other square as it was.
   */
  lemma RelocatedFrame(pieces: Placement, kings: Placement, from: Square, to: Square, color: Color)
    requires from != to
    ensures var p := Relocated(pieces, from, to, color);
            && from !in p && p[to] == color
            && (forall s :: s != from && s != to ==> (s in p <==> s in pieces) && (s in p ==> p[s] == pieces[s]))
    ensures var k := KingsRelocated(kings, from, to, color);
            && from !in k
            && (from in kings ==> to in k && k[to] == color)
            && (forall s :: s != from && s != to ==> (s in k <==> s in kings) && (s in k ==> k[s] == kings[s]))
  {
  }

  /** A legal relocation keeps the board invariant, and a king stays a king. */
  lemma RelocatedWellFormed(pieces: Placement, kings: Placement, from: Square, to: Square, color: Color)
    requires WellFormed(pieces, kings)
    requires from in pieces && pieces[from] == color
    requires to !in pieces && IsPlayable(to)
    ensures WellFormed(Relocated(pieces, from, to, color), KingsRelocated(kings, from, to, color))
    ensures from in kings <==> to in KingsRelocated(kings, from, to, color)
  {
  }

  /** Moving a piece to an empty square and back restores the placement and the king registry. */
  lemma RelocatedRoundTrip(pieces: Placement, kings: Placement, from: Square, to: Square, color: Color)
    requires WellFormed(pieces, kings)
    requires from in pieces && pieces[from] == color && to !in pieces
    ensures Relocated(Relocated(pieces, from, to, color), to, from, color) == pieces
    ensures KingsRelocated(KingsRelocated(kings, from, to, color), to, from, color) == kings
  {
    assert from != to;
    var p := Relocated(Relocated(pieces, from, to, color), to, from, color);
    assert forall s :: s in p <==> s in pieces;
    var k := KingsRelocated(KingsRelocated(kings, from, to, color), to, from, color);
    assert forall s :: s in k <==> s in kings;
  }

  /** A king registered on an occupied square of its own colour keeps the board invariant. */
  lemma PromotedWellFormed(pieces: Placement, kings: Placement, s: Square, color: Color)
    requires WellFormed(pieces, kings)
    requires s in pieces && pieces[s] == color
    ensures WellFormed(pieces, kings[s := color])
  {
  }

  // ---------------------------------------------------------------------------
  // Starting layout
  // ---------------------------------------------------------------------------

  /** The colour a square holds at the start: 'black' on the dark squares of rows 5-7, 'dark red' on those of rows 0-2. */
  function StartingColor(s: Square): Option<Color> {
    if !IsPlayable(s) then None
    else if s.row >= 5 then Some(Black)
    else if s.row <= 2 then Some(DarkRed)
    else None
  }

  function BoardSquares(): set<Square> {
    set c, r | 0 <= c < 8 && 0 <= r < 8 :: Square(c, r)
  }

  /** The starting layout that locate_starting_pieces fills in. */
  function StartingLayout(): Placement {
    map s | s in BoardSquares() && StartingColor(s).Some? :: StartingColor(s).value
  }

  lemma BoardSquaresIff()
    ensures forall s :: s in BoardSquares() <==> IsWithinBounds(s)
  {
    forall s | IsWithinBounds(s) ensures s in BoardSquares() {
      assert s == Square(s.col, s.row);
    }
  }

  lemma StartingLayoutIff()
    ensures forall s :: s in StartingLayout() <==> StartingColor(s).Some?
    ensures forall s :: s in StartingLayout() ==> StartingLayout()[s] == StartingColor(s).value
  {
    BoardSquaresIff();
  }

  /** The pieces of one row: the row's four squares of matching parity. */
  function RowOf(squares: set<Square>, row: int): set<Square> {
    set s | s in squares && s.row == row
  }

  /** The colour that starts on `row`, if any. */
  function StartingRowColor(row: int): Option<Color> {
    if 5 <= row < 8 then Some(Black) else if 0 <= row <= 2 then Some(DarkRed) else None
  }

  lemma StartingRow(row: int)
    requires StartingRowColor(row).Some?
    ensures var first := row % 2;
            RowOf(PiecesOf(StartingLayout(), StartingRowColor(row).value), row)
              == {Square(first, row), Square(first + 2, row), Square(first + 4, row), Square(first + 6, row)}
    ensures |RowOf(PiecesOf(StartingLayout(), StartingRowColor(row).value), row)| == 4
  {
    StartingLayoutIff();
    var first := row % 2;
    var four := {Square(first, row), Square(first + 2, row), Square(first + 4, row), Square(first + 6, row)};
    var actual := RowOf(PiecesOf(StartingLayout(), StartingRowColor(row).value), row);
    forall s | s in actual ensures s in four {
      assert s.col % 2 == first;
      assert s.col == first || s.col == first + 2 || s.col == first + 4 || s.col == first + 6;
    }
    forall s | s in four ensures s in actual {
      assert (s.col - first) % 2 == 0;
    }
  }

  lemma EveryStartingPieceInRow(color: Color)
    ensures var rows := if color == Black then [5, 6, 7] else [0, 1, 2];
            PiecesOf(StartingLayout(), color) ==
              RowOf(PiecesOf(StartingLayout(), color), rows[0]) + RowOf(PiecesOf(StartingLayout(), color), rows[1])
                + RowOf(PiecesOf(StartingLayout(), color), rows[2])
  {
    StartingLayoutIff();
  }

  /**
   * The starting layout has exactly twelve 'black' pieces, four on each of rows 5-7,
   * and twelve 'dark red' pieces, four on each of rows 0-2, all on squares with
   * col % 2 == row % 2, and no kings.
   */
  lemma StartingLayoutShape()
    ensures forall s :: s in StartingLayout() ==> IsPlayable(s) && (s.row >= 5 || s.row <= 2)
    ensures forall s :: s in StartingLayout() ==> (StartingLayout()[s] == Black <==> s.row >= 5)
    ensures |PiecesOf(StartingLayout(), Black)| == 12 && |PiecesOf(StartingLayout(), DarkRed)| == 12
    ensures WellFormed(StartingLayout(), map[])
  {
    StartingLayoutIff();
    StartingCount(Black);
    StartingCount(DarkRed);
  }

  lemma StartingCount(color: Color)
    ensures |PiecesOf(StartingLayout(), color)| == 12
  {
    var rows := if color == Black then [5, 6, 7] else [0, 1, 2];
    var p := PiecesOf(StartingLayout(), color);
    EveryStartingPieceInRow(color);
    StartingRow(rows[0]);
    StartingRow(rows[1]);
    StartingRow(rows[2]);
    var a, b, c := RowOf(p, rows[0]), RowOf(p, rows[1]), RowOf(p, rows[2]);
    assert a * b == {};
    assert (a + b) * c == {};
  }

  // ---------------------------------------------------------------------------
  // The board object
  // ---------------------------------------------------------------------------

  /** Board: the placement and king dictionaries and the piece counters, updated in place. */
  class Board {
    var redLeft: int
    var blackLeft: int
    var redKings: int
    var blackKings: int
    var kingPieces: Placement
    var pieceLocations: Placement

    ghost predicate Valid()
      reads this
    {
      WellFormed(pieceLocations, kingPieces)
    }

    /** A new board: twelve pieces left per side, no kings, no pieces placed yet. */
    constructor ()
      ensures redLeft == 12 && blackLeft == 12 && redKings == 0 && blackKings == 0
      ensures kingPieces == map[] && pieceLocations == map[]
      ensures Valid()
    {
      redLeft, blackLeft := 12, 12;
      redKings, blackKings := 0, 0;
      kingPieces, pieceLocations := map[], map[];
    }

    /**
     * locate_starting_pieces: walks rows and columns -4..3 of a centred grid and puts
     * a piece on every square of matching parity in the three rows nearest each edge.
     */
    method LocateStartingPieces() returns (r: Placement)
      modifies this`pieceLocations
      ensures pieceLocations == StartingLayout() && r == pieceLocations
    {
      pieceLocations := map[];
      for row := BottomRow to TopRow + 1
        invariant pieceLocations == LayoutBefore(row, BottomRow)
      {
        for col := BottomRow to TopRow + 1
          invariant pieceLocations == LayoutBefore(row, col)
        {
          StartingSquare(row, col);
          StartingStep(row, col);
          if col % 2 == (row + 1) % 2 {
            if row < CenterRow - 1 {
              pieceLocations := pieceLocations[Square(col + ColShift, Abs(row + RowShift)) := Black];
            } else if row > CenterRow {
              pieceLocations := pieceLocations[Square(col + ColShift, Abs(row + RowShift)) := DarkRed];
            }
          }
        }
        LayoutBeforeNextRow(row);
      }
      LayoutBeforeAll();
      r := pieceLocations;
    }

    /**
     * update_checker_loc: removes `from`, maps `to` to `color`, and moves the king entry
     * of `from`, if any, to `to`.
     */
    method UpdateCheckerLoc(from: Square, to: Square, color: Color)
      requires from in pieceLocations
      modifies this`pieceLocations, this`kingPieces
      ensures pieceLocations == Relocated(old(pieceLocations), from, to, color)
      ensures kingPieces == KingsRelocated(old(kingPieces), from, to, color)
    {
      pieceLocations := pieceLocations - {from};
      pieceLocations := pieceLocations[to := color];
      if from in kingPieces {
        kingPieces := kingPieces - {from};
        kingPieces := kingPieces[to := color];
      }
    }

    /** make_king_piece, without the drawing: registers `s` as a king of `color`. */
    method MakeKingPiece(s: Square, color: Color)
      modifies this`kingPieces
      ensures kingPieces == old(kingPieces)[s := color]
    {
      kingPieces := kingPieces[s := color];
    }

    /** locate_red_or_black_checkers: every square holding a piece of `color`, each once. */
    method LocateRedOrBlackCheckers(color: Color) returns (r: seq<Square>)
      ensures forall s :: s in r <==> s in pieceLocations && pieceLocations[s] == color
      ensures forall i, j :: 0 <= i < j < |r| ==> r[i] != r[j]
    {
      r := [];
      var todo := pieceLocations.Keys;
      while todo != {}
        invariant todo <= pieceLocations.Keys
        invariant forall s :: s in r <==> s in pieceLocations.Keys - todo && pieceLocations[s] == color
        invariant forall i, j :: 0 <= i < j < |r| ==> r[i] != r[j]
        decreases todo
      {
        var s :| s in todo;
        if pieceLocations[s] == color {
          r := r + [s];
        }
        todo := todo - {s};
      }
    }

    /**
     * get_valid_moves_for_bot: the capture map when the piece can capture, otherwise
     * the empty on-board steps collected one candidate at a time.
     */
    method GetValidMovesForBot(piece: Square, color: Color) returns (r: Option<Destinations>)
      ensures r == ValidMovesForBot(pieceLocations, kingPieces, piece, color)
    {
      var captures := FindCaptureMoves(pieceLocations, kingPieces, piece, color);
      if |captures| > 0 {
        return Some(CaptureMap(captures));
      }
      var candidates := Targets(piece in kingPieces, piece, color, Step);
      var moves: Destinations := map[];
      for i := 0 to |candidates|
        invariant moves == StepMap(pieceLocations, candidates[..i])
      {
        var coordinate := candidates[i];
        assert candidates[..i + 1] == candidates[..i] + [coordinate];
        StepMapSnoc(pieceLocations, candidates[..i], coordinate);
        if IsEmptySquare(pieceLocations, coordinate) && IsWithinBounds(coordinate) {
          moves := moves[coordinate := None];
        }
      }
      assert candidates[..|candidates|] == candidates;
      r := if moves == map[] then None else Some(moves);
    }

    /**
     * all_possible_moves: walks the pieces of `color` and records every destination that
     * get_valid_moves_for_bot gives each of them. (The source's unused `piece_locations`
     * parameter is dropped: it reads the board's own dictionary.)
     */
    method AllPossibleMoves(color: Color) returns (r: map<Move, Option<Square>>)
      ensures r == AllMoves(pieceLocations, kingPieces, color)
    {
      ghost var all := AllMoves(pieceLocations, kingPieces, color);
      r := map[];
      var allPieces := LocateRedOrBlackCheckers(color);
      for i := 0 to |allPieces|
        invariant forall m :: m in r <==> m in all && m.from in allPieces[..i]
        invariant forall m :: m in r ==> r[m] == all[m]
      {
        var from := allPieces[i];
        r := AddMovesOfPiece(r, from, color);
        assert forall s :: s in allPieces[..i + 1] <==> s in allPieces[..i] || s == from;
      }
      assert allPieces[..|allPieces|] == allPieces;
      AllMovesFrom(pieceLocations, kingPieces, color);
      SameEntries(r, all);
    }

    /** One round of all_possible_moves: adds the moves of the piece on `from`. */
    method AddMovesOfPiece(moves: map<Move, Option<Square>>, from: Square, color: Color)
      returns (r: map<Move, Option<Square>>)
      requires from in pieceLocations && pieceLocations[from] == color
      ensures forall m :: m in r <==> m in moves || (m.from == from && m in AllMoves(pieceLocations, kingPieces, color))
      ensures forall m :: m in r ==>
                r[m] == if m.from == from && m in AllMoves(pieceLocations, kingPieces, color)
                        then AllMoves(pieceLocations, kingPieces, color)[m] else moves[m]
    {
      var possible := GetValidMovesForBot(from, color);
      AllMovesOfPiece(pieceLocations, kingPieces, color, from);
      if possible.Some? {
        r := RecordDestinations(moves, from, possible.value);
      } else {
        r := moves;
      }
    }
  }

  /**
   * The inner loop of all_possible_moves: adds an entry (from, to) -> capture for every
   * destination of the piece on `from`, keeping the other entries.
   */
  method RecordDestinations(moves: map<Move, Option<Square>>, from: Square, possible: Destinations)
    returns (r: map<Move, Option<Square>>)
    ensures forall m :: m in r <==> m in moves || (m.from == from && m.to in possible)
    ensures forall m :: m in r ==> r[m] == if m.from == from && m.to in possible then possible[m.to] else moves[m]
  {
    r := moves;
    var todo := possible.Keys;
    while todo != {}
      invariant todo <= possible.Keys
      invariant forall m :: m in r <==> m in moves || (m.from == from && m.to in possible.Keys - todo)
      invariant forall m :: m in r ==> r[m] == if m.from == from && m.to in possible.Keys - todo then possible[m.to] else moves[m]
      decreases todo
    {
      var to :| to in todo;
      r := r[Move(from, to) := possible[to]];
      todo := todo - {to};
    }
  }

  lemma SameEntries<K, V>(a: map<K, V>, b: map<K, V>)
    requires forall k :: k in a <==> k in b
    requires forall k :: k in a ==> a[k] == b[k]
    ensures a == b
  {
  }

  /** The entries of all_possible_moves that start on the piece on `f`. */
  lemma AllMovesOfPiece(pieces: Placement, kings: Placement, color: Color, f: Square)
    requires f in pieces && pieces[f] == color
    ensures var all := AllMoves(pieces, kings, color);
            var v := ValidMovesForBot(pieces, kings, f, color);
            && (forall t :: Move(f, t) in all <==> v.Some? && t in v.value)
            && (forall t :: Move(f, t) in all ==> all[Move(f, t)] == v.value[t])
  {
  }

  /** Every entry of all_possible_moves starts on a piece of `color`. */
  lemma AllMovesFrom(pieces: Placement, kings: Placement, color: Color)
    ensures forall m :: m in AllMoves(pieces, kings, color) ==> m.from in pieces && pieces[m.from] == color
  {
  }

  // ---------------------------------------------------------------------------
  // Loop bookkeeping for locate_starting_pieces
  // ---------------------------------------------------------------------------

  /** The loop indices (row, col) of locate_starting_pieces that put a piece on `s`. */
  predicate VisitedBefore(s: Square, row: int, col: int) {
    3 - s.row < row || (3 - s.row == row && s.col - 4 < col)
  }

  /** The part of the starting layout placed before loop position (row, col). */
  ghost function LayoutBefore(row: int, col: int): Placement {
    map s | s in StartingLayout() && VisitedBefore(s, row, col) :: StartingLayout()[s]
  }

  /** The square that loop position (row, col) of locate_starting_pieces addresses, and what it holds. */
  lemma StartingSquare(row: int, col: int)
    requires BottomRow <= row <= TopRow && BottomRow <= col <= TopRow
    ensures var sq := Square(col + ColShift, Abs(row + RowShift));
            && sq == Square(col + 4, 3 - row)
            && (sq in StartingLayout() <==> col % 2 == (row + 1) % 2 && (row < CenterRow - 1 || row > CenterRow))
            && (sq in StartingLayout() ==> StartingLayout()[sq] == (if row < CenterRow - 1 then Black else DarkRed))
  {
    var sq := Square(col + 4, 3 - row);
    StartingLayoutIff();
    BoardSquaresIff();
    ShiftedParity(row, col);
  }

  lemma ShiftedParity(row: int, col: int)
    ensures (col + 4) % 2 == (3 - row) % 2 <==> col % 2 == (row + 1) % 2
  {
    assert (col + 4) % 2 == col % 2;
    assert (3 - row) % 2 == (row + 1) % 2 by {
      assert (3 - row) + (row + 1) == 4;
    }
  }

  lemma StartingStep(row: int, col: int)
    requires BottomRow <= row <= TopRow && BottomRow <= col <= TopRow
    ensures var sq := Square(col + 4, 3 - row);
            LayoutBefore(row, col + 1) ==
              if sq in StartingLayout() then LayoutBefore(row, col)[sq := StartingLayout()[sq]]
              else LayoutBefore(row, col)
  {
    var sq := Square(col + 4, 3 - row);
    forall s | s in StartingLayout()
      ensures VisitedBefore(s, row, col + 1) <==> VisitedBefore(s, row, col) || s == sq
    {
    }
  }

  lemma LayoutBeforeNextRow(row: int)
    ensures LayoutBefore(row, TopRow + 1) == LayoutBefore(row + 1, BottomRow)
  {
    StartingLayoutIff();
    forall s | s in StartingLayout()
      ensures VisitedBefore(s, row, TopRow + 1) <==> VisitedBefore(s, row + 1, BottomRow)
    {
    }
  }

  lemma LayoutBeforeAll()
    ensures LayoutBefore(TopRow + 1, BottomRow) == StartingLayout()
  {
    StartingLayoutIff();
  }
}
