/**
 * The computer player, which always plays 'dark red' (Checkers/botplayer.py): it splits
 * the moves of all_possible_moves into ordinary moves and captures, prefers captures,
 * and picks one. The random pick is an index chosen by the caller or by `:|`.
 */
module CheckersBot {
  import opened Wrappers
  import opened CheckersBoard

  /**
   * An entry of the ordinary list as the source stores it, `(move[PIECE_TO], move[PIECE_FROM])`:
   * the destination first, then the start.
   */
  type OrdinaryEntry = (Square, Square)

  /** An entry of the capture list, `(move[PIECE_TO], move[PIECE_FROM], capture)`. */
  type CaptureEntry = (Square, Square, Square)

  /** The bot's chosen move: (piece_from, piece_to, capture). */
  datatype Selection = Selection(from: Square, to: Square, capture: Option<Square>)

  /**
   * The two lists split the moves: every ordinary entry is a non-capturing move, every
   * capture entry is a capturing move with its jumped square, and every move is in the
   * list its capture calls for.
   */
  predicate IsSplit(moves: map<Move, Option<Square>>, ordinary: seq<OrdinaryEntry>, captures: seq<CaptureEntry>) {
    && (forall k :: 0 <= k < |ordinary| ==>
          Move(ordinary[k].1, ordinary[k].0) in moves && moves[Move(ordinary[k].1, ordinary[k].0)] == None)
    && (forall k :: 0 <= k < |captures| ==>
          Move(captures[k].1, captures[k].0) in moves && moves[Move(captures[k].1, captures[k].0)] == Some(captures[k].2))
    && (forall m :: m in moves && moves[m].None? ==> (m.to, m.from) in ordinary)
    && (forall m :: m in moves && moves[m].Some? ==> (m.to, m.from, moves[m].value) in captures)
  }

  /**
   * selected_move_coordinates with the random index `i` made explicit: a capture entry
   * when the capture list is non-empty, an ordinary entry otherwise. The source reads
   * piece_from at tuple index PIECE_TO (1) and piece_to at PIECE_FROM (0), which swaps
   * the entries back.
   */
  function SelectedMoveCoordinates(ordinary: seq<OrdinaryEntry>, captures: seq<CaptureEntry>, i: nat): (r: Selection)
    requires if |captures| == 0 then i < |ordinary| else i < |captures|
    ensures |captures| > 0 <==> r.capture.Some?
  {
    if |captures| == 0 then
      Selection(ordinary[i].1, ordinary[i].0, None)
    else
      Selection(captures[i].1, captures[i].0, Some(captures[i].2))
  }

  /**
   * Whatever index is drawn, the selection is a move of the split map with its own
   * capture, and it is a capture whenever the map holds any capture: the two swaps of
   * the source cancel.
   */
  lemma SelectionIsListedMove(moves: map<Move, Option<Square>>, ordinary: seq<OrdinaryEntry>,
                              captures: seq<CaptureEntry>, i: nat)
    requires IsSplit(moves, ordinary, captures)
    requires if |captures| == 0 then i < |ordinary| else i < |captures|
    ensures var r := SelectedMoveCoordinates(ordinary, captures, i);
            && Move(r.from, r.to) in moves && moves[Move(r.from, r.to)] == r.capture
            && ((exists m :: m in moves && moves[m].Some?) ==> r.capture.Some?)
  {
    var r := SelectedMoveCoordinates(ordinary, captures, i);
    if exists m :: m in moves && moves[m].Some? {
      var m :| m in moves && moves[m].Some?;
      assert (m.to, m.from, moves[m].value) in captures;
    }
  }

  /** A split of a non-empty move map leaves something to choose from. */
  lemma SplitNonEmpty(moves: map<Move, Option<Square>>, ordinary: seq<OrdinaryEntry>, captures: seq<CaptureEntry>)
    requires IsSplit(moves, ordinary, captures)
    requires moves != map[]
    ensures |captures| > 0 || |ordinary| > 0
  {
    var m :| m in moves;
    if moves[m].None? {
      assert (m.to, m.from) in ordinary;
    } else {
      assert (m.to, m.from, moves[m].value) in captures;
    }
  }

  /** BotPlayer: holds the board it reads; it never changes it. */
  class BotPlayer {
    const board: Board

    constructor (board: Board)
      ensures this.board == board
    {
      this.board := board;
    }

    /**
     * all_possible_bot_moves: one pass over the moves, sending each capture to the
     * capture list and every other move to the ordinary list.
     */
    method AllPossibleBotMoves(moves: map<Move, Option<Square>>)
      returns (ordinary: seq<OrdinaryEntry>, captures: seq<CaptureEntry>)
      ensures IsSplit(moves, ordinary, captures)
      ensures |ordinary| + |captures| == |moves|
    {
      ordinary, captures := [], [];
      var todo := moves.Keys;
      ghost var done: set<Move> := {};
      while todo != {}
        invariant done + todo == moves.Keys && done !! todo
        invariant forall k :: 0 <= k < |ordinary| ==>
                    var m := Move(ordinary[k].1, ordinary[k].0); m in done && moves[m] == None
        invariant forall k :: 0 <= k < |captures| ==>
                    var m := Move(captures[k].1, captures[k].0); m in done && moves[m] == Some(captures[k].2)
        invariant forall m :: m in done && moves[m].None? ==> (m.to, m.from) in ordinary
        invariant forall m :: m in done && moves[m].Some? ==> (m.to, m.from, moves[m].value) in captures
        invariant |ordinary| + |captures| == |done|
        decreases todo
      {
        var move :| move in todo;
        var capture := moves[move];
        if capture.Some? {
          captures := captures + [(move.to, move.from, capture.value)];
        } else {
          ordinary := ordinary + [(move.to, move.from)];
        }
        done := done + {move};
        todo := todo - {move};
      }
    }

    /**
     * bot_move: a move of 'dark red' from all_possible_moves, a capture whenever one
     * exists, with its capture; the board is left as it was. The source fails with an
     * empty move list (random.choice on []), hence the precondition.
     */
    method BotMove() returns (r: Selection)
      requires AllMoves(board.pieceLocations, board.kingPieces, DarkRed) != map[]
      ensures var all := AllMoves(board.pieceLocations, board.kingPieces, DarkRed);
              && Move(r.from, r.to) in all && all[Move(r.from, r.to)] == r.capture
              && ((exists m :: m in all && all[m].Some?) ==> r.capture.Some?)
    {
      var allRedPiecesMoves := board.AllPossibleMoves(DarkRed);
      var ordinary, captures := AllPossibleBotMoves(allRedPiecesMoves);
      SplitNonEmpty(allRedPiecesMoves, ordinary, captures);
      var i :| 0 <= i && (if |captures| == 0 then i < |ordinary| else i < |captures|);
      r := SelectedMoveCoordinates(ordinary, captures, i);
      SelectionIsListedMove(allRedPiecesMoves, ordinary, captures, i);
    }
  }
}
