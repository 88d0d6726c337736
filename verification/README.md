# Chess move generator of the mate-in-two trainer, in Dafny

This project models the rules engine of a chess-tactics trainer. The engine
has two parts:

- a pseudo-legal move generator. For the piece on a square it returns the
  squares it may move to, obeying movement, capture, blocking and board
  bounds, with no check detection, castling, en passant or promotion;
- the step that applies a move to the game state.

Every generator is built from one primitive, `getAvailableMovesInLine`. It
walks outward from a square along a direction and stops at the board edge,
at a distance limit, or at the first occupied square. It keeps that square
only when the square holds a piece of the other colour.

Files, one module each:

- `chess.dfy` (`Chess`): pieces as an explicit `{role, color}` pair, squares,
  direction vectors and the 8×8 board of `Option<Piece>`. It also holds the
  source's one-letter piece encoding (upper case is White) and its inverse.
- `lines.dfy` (`Lines`): the ray primitive. `Ray` is the specification
  function and `MovesInLine` is the source's loop, proved equal to `Ray`.
  An independent predicate, `InLine`, describes exactly which squares a ray
  yields.
- `generators.dfy` (`Generators`): the per-piece generators, the dispatcher
  `AvailableMoves`, and the lemmas that tie each generator to a reference
  description. It also holds the starting position.
- `game.dfy` (`Game`): `GameState` and `MovePiece`. `MovePiece` copies the
  board into a fresh 8×8 array, assigns the two cells on the copy and reads
  the copy back. It is proved to equal the `Moved` board with the turn
  flipped. This file also has the turn gate `CanMovePiece`, the image
  mapping `PieceToImage` and piece counting.

The source's default `maxDistance = Infinity` is modelled as
`Lines.NoLimit = 8`. `Lines.LongerLimitSameRay` proves that, along a nonzero line, any limit
of 8 or more yields the same ray.

## Model

| member | source | states |
|---|---|---|
| `Chess.Letter` | src/utils/chess.ts:3-15 | the letter is upper case iff the piece is White, and it upper-cases to the role letter |
| `Chess.PieceOfLetter` | src/utils/chess.ts:3-15 | a decoded letter is upper case iff it decodes to a White piece |
| `Chess.LetterRoundTrip` | src/utils/chess.ts:3-15 | letter encoding and decoding are inverse on the twelve pieces and twelve piece letters |
| `Chess.Opponent` | src/App.tsx:258 | the side to move after a move is the other colour |
| `Lines.Walk` | src/utils/chess.ts:167-183 | the remaining ray is bounded by the limit; every square on it is on the board and enterable; every square but the last is empty |
| `Lines.Ray` | src/utils/chess.ts:154-186 | at most `maxDistance` squares; no squares when the source square is empty; each square is on the board and empty or an enemy; every square but the last is empty |
| `Lines.RayExact` | src/utils/chess.ts:167-182 | the i-th square is `from + (i+1)*line`; a square k steps out is yielded iff k is within the limit, all squares before it are on the board and empty, and it is empty or holds an enemy |
| `Lines.RayOneStep` | src/utils/chess.ts:167-183 | with limit 1 a ray is the single square one step out, kept iff on the board and empty or enemy |
| `Lines.MovesInLine` | src/utils/chess.ts:154-186 | the loop returns exactly `Ray` |
| `Lines.LongerLimitSameRay` | src/utils/chess.ts:158 | along a nonzero line every limit of at least 8 gives the same ray as limit 8 |
| `Generators.KeepEmpty` | src/utils/chess.ts:64 | keeps exactly the empty squares of its input |
| `Generators.KeepEnemies` | src/utils/chess.ts:74-81 | keeps exactly the input squares holding a piece of the other colour |
| `Generators.PawnMoves` | src/utils/chess.ts:45-84 | every destination is on the board and empty or enemy |
| `Generators.KnightMoves` | src/utils/chess.ts:86-100 | every destination is on the board and empty or enemy |
| `Generators.BishopMoves` | src/utils/chess.ts:102-112 | every destination is on the board and empty or enemy |
| `Generators.RookMoves` | src/utils/chess.ts:114-124 | every destination is on the board and empty or enemy |
| `Generators.QueenMoves` | src/utils/chess.ts:126-134 | every destination is on the board and empty or enemy |
| `Generators.KingMoves` | src/utils/chess.ts:136-152 | every destination is on the board and empty or enemy |
| `Generators.AvailableMoves` | src/utils/chess.ts:18-43 | an empty source square gives no moves; every destination is on the board and empty or held by the other colour; the source square itself is never a destination |
| `Generators.RayMembership` | src/utils/chess.ts:167-183 | a square is on a ray iff it lies k steps out for a k that `InLine` admits |
| `Generators.RaysMembership` | src/utils/chess.ts:106-111 | a square is among several concatenated rays iff it is admitted on one of their lines |
| `Generators.StepsMembership` | src/utils/chess.ts:90-99 | single-step probes yield, in total, no more squares than there are offsets, exactly the enterable squares one offset away |
| `Generators.KnightMovesSpec` | src/utils/chess.ts:90-99 | knight moves are the eight offsets probed in the listed order: at most 8 squares, exactly the enterable knight jumps |
| `Generators.KingMovesSpec` | src/utils/chess.ts:142-151 | king moves are the first step of the eight queen lines in the listed order: at most 8 squares, exactly the enterable neighbours |
| `Generators.BishopMovesSpec` | src/utils/chess.ts:106-111 | bishop moves are the four diagonal rays in the listed order, each stopping at the first occupied square and keeping it only when it holds an enemy |
| `Generators.RookMovesSpec` | src/utils/chess.ts:118-123 | the same for the four orthogonal rays |
| `Generators.QueenMovesSpec` | src/utils/chess.ts:130-133 | queen moves are the bishop's rays followed by the rook's, with the same membership description over all eight lines |
| `Generators.PawnForward` | src/utils/chess.ts:56-64 | the forward part is one step onto an empty square, plus a second step onto an empty square from the starting row (row 6 for White moving up, row 1 for Black moving down) |
| `Generators.PawnCapture` | src/utils/chess.ts:66-81 | a diagonal probe survives the filter iff its square holds an enemy |
| `Generators.PawnCaptures` | src/utils/chess.ts:66-81 | the capture part is the left diagonal then the right one, each only onto an enemy |
| `Generators.PawnMovesExact` | src/utils/chess.ts:45-84 | pawn moves equal the independent `PawnReference`: forward moves, then the captures, in that order |
| `Generators.StartingKingPawn` | src/utils/chess.ts:56-64 | in the starting position the white pawn at (6,4) yields exactly [(5,4), (4,4)] |
| `Game.PutPiece` | src/App.tsx:252-253 | the assigned cell holds the new value and every other cell is unchanged |
| `Game.Moved` | src/App.tsx:245-253 | the destination holds the moving piece, the source square is empty, every other square is unchanged |
| `Game.MovePiece` | src/App.tsx:231-260 | a destination not offered by `AvailableMoves` returns the state unchanged; otherwise the board becomes `Moved`, the turn passes to the other colour and `castleRights` is kept |
| `Game.CanMovePiece` | src/App.tsx:43-51 | true iff no result is set, the square holds a piece, and the piece's colour is the side to move |
| `Game.PieceToImage` | src/App.tsx:262-267 | the image path is `piece-sets/alpha/` then `w` or `b` by colour, then the upper-case role letter, then `.svg` |
| `Game.PieceToImageInjective` | src/App.tsx:262-267 | distinct pieces get distinct images |
| `Game.PutPieceCount` | src/App.tsx:252-253 | assigning one cell changes the piece count by what left it and what arrived |
| `Game.AcceptedMoveCount` | src/App.tsx:236-253 | an accepted move has distinct on-board squares, only ever captures an enemy, and lowers the piece count by one iff the destination was occupied |
| `Game.TurnPasses` | src/App.tsx:43-51 | after an accepted move the moved piece cannot be picked up; on every other square a piece can be picked up iff it belongs to the side that did not move |

## Left out

- The position parser `parseFEN` and the notation codec `moveToNotation` / `notationToMove` (imported by `src/App.tsx:3-9` from `./utils/chess`) are outside this model's scope, so the notation round trip and the position-string parser are not modelled.
- `isUpperCase` from `./utils/string` is not part of this model. The model uses the explicit colour instead. `Chess.Letter` and `Chess.PieceOfLetter` show that colour matches letter case.
- Castling, en passant, promotion and check detection are not modelled, because the source does not implement them.
- The React component is not modelled: state hooks, drag and mouse handlers, hit tests, styles and rendering (`src/App.tsx:19-229`). It is UI plumbing around the engine.
- `getRandomProblem` is not modelled. It depends on `Math.random` and a JSON import.
- `tools/pgnToJson.js` is not modelled. It is a file-reading build script.
- AvailableMoves: requires `from` on the board. The source throws on an off-board row and returns no moves for an off-board column. Its callers only pass board squares.
- MovePiece: the model returns an equal value, not the same object, when a move is rejected. The caller's identity test (`updatedState !== gameState`, `src/App.tsx:98`) therefore becomes an equality test. Because the board is a value, "the input board is not mutated" holds by construction.
- MovePiece: `availableMoves.some(...)` is modelled as sequence membership, `to in AvailableMoves(...)`.
- A board is always exactly 8×8. The source's type does not enforce that; the model's `Board` type does.
