/** The game state the trainer keeps and the step that applies a move to
    it, with the turn gate that decides which pieces may be picked up and
    the mapping from a piece to its image. */
module Game {
  import opened Chess
  import opened Generators

  /** Result of an attempt at the puzzle; while it is unset the board is live. */
  datatype Outcome = Success | Fail | Surrender

  /** The position: board, side to move, and the castling-rights field,
      which is carried along and never read. */
  datatype GameState = GameState(chessBoard: Board, turn: Color, castleRights: string)

  /** `b` with the cell at `sq` set to `v`. */
  function PutPiece(b: Board, sq: Square, v: Option<Piece>): (r: Board)
    requires OnBoard(sq)
    ensures PieceAt(r, sq) == v
    ensures forall s :: s != sq ==> PieceAt(r, s) == PieceAt(b, s)
  {
    b[sq.row := b[sq.row][sq.col := v]]
  }

  /** The board after the piece on `from` moves to `to`: `from` is emptied
      first, then `to` receives the piece, replacing any occupant. */
  function Moved(b: Board, from: Square, to: Square): (r: Board)
    requires OnBoard(from) && OnBoard(to)
    ensures PieceAt(r, to) == PieceAt(b, from)
    ensures from != to ==> PieceAt(r, from).None?
    ensures forall s :: s != from && s != to ==> PieceAt(r, s) == PieceAt(b, s)
  {
    PutPiece(PutPiece(b, from, None), to, PieceAt(b, from))
  }

  /** The source's `movePiece`: a destination the generator does not offer
      leaves the state as it is; otherwise the board is copied, the two
      cells are assigned on the copy, and the turn passes to the other
      side with the castling field carried through. */
  method MovePiece(gameState: GameState, from: Square, to: Square) returns (next: GameState)
    requires OnBoard(from)
    ensures to !in AvailableMoves(gameState.chessBoard, from) ==> next == gameState
    ensures to in AvailableMoves(gameState.chessBoard, from) ==>
      next == GameState(Moved(gameState.chessBoard, from, to), Opponent(gameState.turn), gameState.castleRights)
  {
    var availableMoves := AvailableMoves(gameState.chessBoard, from);
    if to !in availableMoves {
      return gameState;
    }
    var board := gameState.chessBoard;
    var updated := new Option<Piece>[8, 8]((r, c) requires 0 <= r < 8 && 0 <= c < 8 => board[r][c]);
    var piece := board[from.row][from.col];
    updated[from.row, from.col] := None;
    updated[to.row, to.col] := piece;
    var copy := seq(8, r requires 0 <= r < 8 reads updated => seq(8, c requires 0 <= c < 8 reads updated => updated[r, c]));
    next := GameState(copy, Opponent(gameState.turn), gameState.castleRights);
    var want := Moved(board, from, to);
    forall r | 0 <= r < 8
      ensures copy[r] == want[r]
    {
      forall c | 0 <= c < 8
        ensures copy[r][c] == want[r][c]
      {
        assert copy[r][c] == updated[r, c];
        assert PieceAt(want, Square(r, c)) == want[r][c];
        assert PieceAt(board, Square(r, c)) == board[r][c];
      }
    }
    assert copy == want;
  }

  /** The source's turn gate `canMovePiece`: it reads the piece letter's
      case; the contract states it in terms of colour. */
  function CanMovePiece(result: Option<Outcome>, gameState: GameState, sq: Square): (r: bool)
    requires OnBoard(sq)
    ensures r <==> result.None? && PieceAt(gameState.chessBoard, sq).Some?
                   && PieceAt(gameState.chessBoard, sq).value.color == gameState.turn
  {
    if result.Some? then false
    else match gameState.chessBoard[sq.row][sq.col]
      case None => false
      case Some(piece) => if IsUpper(Letter(piece)) then gameState.turn == White else gameState.turn == Black
  }

  /** The source's `pieceToImage`: `w` or `b` by the letter's case, then
      the upper-cased letter. */
  function PieceToImage(piece: Piece): (r: string)
    ensures r == "piece-sets/alpha/" + [if piece.color == White then 'w' else 'b', RoleLetter(piece.role)] + ".svg"
  {
    var letter := Letter(piece);
    var upperCasePiece := ToUpper(letter);
    var imageName := if letter == upperCasePiece then ['w', upperCasePiece] else ['b', upperCasePiece];
    "piece-sets/alpha/" + imageName + ".svg"
  }

  /** Different pieces get different images. */
  lemma PieceToImageInjective(p: Piece, q: Piece)
    ensures PieceToImage(p) == PieceToImage(q) ==> p == q
  {
    if PieceToImage(p) == PieceToImage(q) {
      assert PieceToImage(p)[17] == PieceToImage(q)[17];
      assert PieceToImage(p)[18] == PieceToImage(q)[18];
    }
  }

  // ---------------------------------------------------------------------
  // Counting pieces.

  function Occupied(v: Option<Piece>): nat {
    if v.Some? then 1 else 0
  }

  function CountRow(row: seq<Option<Piece>>): nat {
    if row == [] then 0 else Occupied(row[0]) + CountRow(row[1..])
  }

  function CountRows(rows: seq<seq<Option<Piece>>>): nat {
    if rows == [] then 0 else CountRow(rows[0]) + CountRows(rows[1..])
  }

  /** Number of pieces on the board. */
  function CountPieces(b: Board): nat {
    CountRows(b)
  }

  lemma {:induction false} CountRowUpdate(row: seq<Option<Piece>>, c: nat, v: Option<Piece>)
    requires c < |row|
    ensures CountRow(row[c := v]) == CountRow(row) - Occupied(row[c]) + Occupied(v)
  {
    if c > 0 {
      assert row[c := v][1..] == row[1..][c - 1 := v];
      CountRowUpdate(row[1..], c - 1, v);
    } else {
      assert row[c := v][1..] == row[1..];
    }
  }

  lemma {:induction false} CountRowsUpdate(rows: seq<seq<Option<Piece>>>, r: nat, row: seq<Option<Piece>>)
    requires r < |rows|
    ensures CountRows(rows[r := row]) == CountRows(rows) - CountRow(rows[r]) + CountRow(row)
  {
    if r > 0 {
      assert rows[r := row][1..] == rows[1..][r - 1 := row];
      CountRowsUpdate(rows[1..], r - 1, row);
    } else {
      assert rows[r := row][1..] == rows[1..];
    }
  }

  /** Setting one cell changes the count by what left and what arrived. */
  lemma PutPieceCount(b: Board, sq: Square, v: Option<Piece>)
    requires OnBoard(sq)
    ensures CountPieces(PutPiece(b, sq, v)) == CountPieces(b) - Occupied(PieceAt(b, sq)) + Occupied(v)
  {
    CountRowUpdate(b[sq.row], sq.col, v);
    CountRowsUpdate(b, sq.row, b[sq.row][sq.col := v]);
  }

  /** An accepted move removes exactly one piece when it captures and none
      otherwise; what it captures is always a piece of the other side. */
  lemma AcceptedMoveCount(b: Board, from: Square, to: Square)
    requires OnBoard(from) && to in AvailableMoves(b, from)
    ensures OnBoard(to) && from != to
    ensures PieceAt(b, to).Some? ==> PieceAt(b, to).value.color != PieceAt(b, from).value.color
    ensures CountPieces(Moved(b, from, to)) == CountPieces(b) - Occupied(PieceAt(b, to))
  {
    var cleared := PutPiece(b, from, None);
    PutPieceCount(b, from, None);
    PutPieceCount(cleared, to, PieceAt(b, from));
  }

  /** After an accepted move by the side to move, the moved piece can no
      longer be picked up, and apart from the two squares involved a
      piece can be picked up exactly when it belongs to the other side. */
  lemma TurnPasses(gameState: GameState, from: Square, to: Square)
    requires OnBoard(from) && CanMovePiece(None, gameState, from)
    requires to in AvailableMoves(gameState.chessBoard, from)
    ensures OnBoard(to)
    ensures var next := GameState(Moved(gameState.chessBoard, from, to), Opponent(gameState.turn), gameState.castleRights);
      && !CanMovePiece(None, next, to)
      && forall sq :: OnBoard(sq) && sq != from && sq != to ==>
           (CanMovePiece(None, next, sq) <==>
              PieceAt(gameState.chessBoard, sq).Some? && PieceAt(gameState.chessBoard, sq).value.color != gameState.turn)
  {
  }
}
