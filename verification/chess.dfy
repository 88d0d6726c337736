/** Pieces, squares and the 8x8 board of the trainer's rules engine.

    The source encodes a piece as one letter whose case gives its colour
    (upper case is White). Here colour and role are explicit; `Letter` and
    `PieceOfLetter` connect the two encodings. */
module Chess {

  datatype Option<T> = None | Some(value: T)

  datatype Color = White | Black

  datatype Role = Pawn | Knight | Bishop | Rook | Queen | King

  datatype Piece = Piece(role: Role, color: Color)

  /** A square: row 0 is the top rank (rank 8), col 0 is file 'a'. */
  datatype Square = Square(row: int, col: int)

  /** A direction vector `{ row, col }` along which moves are generated. */
  datatype Vector = Vector(row: int, col: int)

  /** A board is always exactly 8 rows of 8 cells. */
  type Board = b: seq<seq<Option<Piece>>> | |b| == 8 && forall r :: 0 <= r < 8 ==> |b[r]| == 8
    witness seq(8, _ => seq(8, _ => None))

  predicate OnBoard(sq: Square) {
    0 <= sq.row < 8 && 0 <= sq.col < 8
  }

  /** The cell at `sq`; a square off the board reads as empty. */
  function PieceAt(b: Board, sq: Square): Option<Piece> {
    if OnBoard(sq) then b[sq.row][sq.col] else None
  }

  /** The square reached from `sq` after `k` steps along `v`. */
  function Shift(sq: Square, v: Vector, k: int): Square {
    Square(sq.row + k * v.row, sq.col + k * v.col)
  }

  function Opponent(c: Color): (r: Color)
    ensures r != c
  {
    if c == White then Black else White
  }

  /** A piece of colour `mover` may end its move on `sq`: the square is on
      the board and is empty or holds a piece of the other colour. */
  predicate Enterable(b: Board, sq: Square, mover: Color) {
    OnBoard(sq) && (PieceAt(b, sq).None? || PieceAt(b, sq).value.color != mover)
  }

  /** `sq` holds a piece of the colour opposing `mover`. */
  predicate HoldsEnemy(b: Board, sq: Square, mover: Color) {
    PieceAt(b, sq).Some? && PieceAt(b, sq).value.color != mover
  }

  /** Upper-case role letter, the same for both colours. */
  function RoleLetter(role: Role): char {
    match role
    case Pawn => 'P'
    case Knight => 'N'
    case Bishop => 'B'
    case Rook => 'R'
    case Queen => 'Q'
    case King => 'K'
  }

  predicate IsUpper(ch: char) {
    'A' <= ch <= 'Z'
  }

  /** ASCII upper-casing, as the source's `toUpperCase` does on piece letters. */
  function ToUpper(ch: char): (r: char)
    ensures IsUpper(ch) ==> r == ch
  {
    if 'a' <= ch <= 'z' then (ch as int - 32) as char else ch
  }

  /** The source's one-letter encoding of a piece: upper case for White. */
  function Letter(p: Piece): (r: char)
    ensures IsUpper(r) <==> p.color == White
    ensures ToUpper(r) == RoleLetter(p.role)
  {
    var upper := RoleLetter(p.role);
    if p.color == White then upper else (upper as int + 32) as char
  }

  /** Decodes a piece letter; any character outside `pnbrqkPNBRQK` is not a piece. */
  function PieceOfLetter(ch: char): (r: Option<Piece>)
    ensures r.Some? ==> (IsUpper(ch) <==> r.value.color == White)
  {
    var color := if IsUpper(ch) then White else Black;
    match ToUpper(ch)
    case 'P' => Some(Piece(Pawn, color))
    case 'N' => Some(Piece(Knight, color))
    case 'B' => Some(Piece(Bishop, color))
    case 'R' => Some(Piece(Rook, color))
    case 'Q' => Some(Piece(Queen, color))
    case 'K' => Some(Piece(King, color))
    case _ => None
  }

  /** The letter codec is a bijection between the twelve pieces and the
      twelve letters `pnbrqkPNBRQK`. */
  lemma LetterRoundTrip(p: Piece, ch: char)
    ensures PieceOfLetter(Letter(p)) == Some(p)
    ensures PieceOfLetter(ch).Some? ==> Letter(PieceOfLetter(ch).value) == ch
  {
  }
}
