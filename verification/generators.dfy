/** The per-piece pseudo-legal move generators and the dispatcher that
    picks one by the role of the piece on the source square. No check
    detection, castling, en passant or promotion: the source has none. */
module Generators {
  import opened Chess
  import opened Lines

  const BishopLines: seq<Vector> := [Vector(-1, -1), Vector(1, -1), Vector(-1, 1), Vector(1, 1)]
  const RookLines: seq<Vector> := [Vector(1, 0), Vector(0, 1), Vector(-1, 0), Vector(0, -1)]
  const KnightOffsets: seq<Vector> :=
    [Vector(-2, -1), Vector(-2, 1), Vector(-1, -2), Vector(-1, 2),
     Vector(1, -2), Vector(1, 2), Vector(2, -1), Vector(2, 1)]

  /** Keeps the squares that are empty (the pawn's forward filter). */
  function KeepEmpty(b: Board, s: seq<Square>): (r: seq<Square>)
    ensures |r| <= |s|
    ensures forall sq :: sq in r <==> sq in s && PieceAt(b, sq).None?
  {
    if s == [] then []
    else (if PieceAt(b, s[0]).None? then [s[0]] else []) + KeepEmpty(b, s[1..])
  }

  /** Keeps the squares that hold a piece of the other colour (the pawn's
      capture filter). */
  function KeepEnemies(b: Board, mover: Color, s: seq<Square>): (r: seq<Square>)
    ensures |r| <= |s|
    ensures forall sq :: sq in r <==> sq in s && HoldsEnemy(b, sq, mover)
  {
    if s == [] then []
    else (if HoldsEnemy(b, s[0], mover) then [s[0]] else []) + KeepEnemies(b, mover, s[1..])
  }

  /** Row direction of a pawn's advance: up the board for White. */
  function Forward(c: Color): int {
    if c == White then -1 else 1
  }

  /** The row a pawn of colour `c` starts on. */
  function StartRow(c: Color): int {
    if c == White then 6 else 1
  }

  function PawnMoves(b: Board, from: Square): (r: seq<Square>)
    requires OnBoard(from)
    ensures Targets(b, from, r)
  {
    match PieceAt(b, from)
    case None => []
    case Some(piece) =>
      var direction := Forward(piece.color);
      var isStartingRow := from.row == StartRow(piece.color);
      var forwardMoves := KeepEmpty(b, Ray(b, Vector(direction, 0), from, if isStartingRow then 2 else 1));
      var captures := KeepEnemies(b, piece.color,
        Ray(b, Vector(direction, -1), from, 1) + Ray(b, Vector(direction, 1), from, 1));
      forwardMoves + captures
  }

  function KnightMoves(b: Board, from: Square): (r: seq<Square>)
    requires OnBoard(from)
    ensures Targets(b, from, r)
  {
    Ray(b, Vector(-2, -1), from, 1) + Ray(b, Vector(-2, 1), from, 1)
    + Ray(b, Vector(-1, -2), from, 1) + Ray(b, Vector(-1, 2), from, 1)
    + Ray(b, Vector(1, -2), from, 1) + Ray(b, Vector(1, 2), from, 1)
    + Ray(b, Vector(2, -1), from, 1) + Ray(b, Vector(2, 1), from, 1)
  }

  function BishopMoves(b: Board, from: Square): (r: seq<Square>)
    requires OnBoard(from)
    ensures Targets(b, from, r)
  {
    Ray(b, Vector(-1, -1), from, NoLimit) + Ray(b, Vector(1, -1), from, NoLimit)
    + Ray(b, Vector(-1, 1), from, NoLimit) + Ray(b, Vector(1, 1), from, NoLimit)
  }

  function RookMoves(b: Board, from: Square): (r: seq<Square>)
    requires OnBoard(from)
    ensures Targets(b, from, r)
  {
    Ray(b, Vector(1, 0), from, NoLimit) + Ray(b, Vector(0, 1), from, NoLimit)
    + Ray(b, Vector(-1, 0), from, NoLimit) + Ray(b, Vector(0, -1), from, NoLimit)
  }

  function QueenMoves(b: Board, from: Square): (r: seq<Square>)
    requires OnBoard(from)
    ensures Targets(b, from, r)
  {
    BishopMoves(b, from) + RookMoves(b, from)
  }

  function KingMoves(b: Board, from: Square): (r: seq<Square>)
    requires OnBoard(from)
    ensures Targets(b, from, r)
  {
    Ray(b, Vector(-1, -1), from, 1) + Ray(b, Vector(1, -1), from, 1)
    + Ray(b, Vector(-1, 1), from, 1) + Ray(b, Vector(1, 1), from, 1)
    + Ray(b, Vector(1, 0), from, 1) + Ray(b, Vector(0, 1), from, 1)
    + Ray(b, Vector(-1, 0), from, 1) + Ray(b, Vector(0, -1), from, 1)
  }

  /** The source's `getAvailableMoves`: every destination is on the board
      and empty or held by the other colour (so never the source square
      itself), and an empty source square has no moves. */
  function AvailableMoves(b: Board, from: Square): (r: seq<Square>)
    requires OnBoard(from)
    ensures PieceAt(b, from).None? ==> r == []
    ensures Targets(b, from, r)
    ensures from !in r
  {
    match PieceAt(b, from)
    case None => []
    case Some(piece) =>
      match piece.role
      case Bishop => BishopMoves(b, from)
      case Rook => RookMoves(b, from)
      case Queen => QueenMoves(b, from)
      case King => KingMoves(b, from)
      case Knight => KnightMoves(b, from)
      case Pawn => PawnMoves(b, from)
  }

  // ---------------------------------------------------------------------
  // Reference descriptions and the lemmas tying the generators to them.

  /** The rays along `lines`, one after the other, all with the same limit. */
  function Rays(b: Board, from: Square, lines: seq<Vector>, maxDistance: nat): (r: seq<Square>)
    requires OnBoard(from)
    ensures Targets(b, from, r)
  {
    if lines == [] then [] else Ray(b, lines[0], from, maxDistance) + Rays(b, from, lines[1..], maxDistance)
  }

  lemma {:induction false} RaysAppend(b: Board, from: Square, xs: seq<Vector>, ys: seq<Vector>, n: nat)
    requires OnBoard(from)
    ensures Rays(b, from, xs + ys, n) == Rays(b, from, xs, n) + Rays(b, from, ys, n)
  {
    if xs != [] {
      assert (xs + ys)[0] == xs[0] && (xs + ys)[1..] == xs[1..] + ys;
      RaysAppend(b, from, xs[1..], ys, n);
      var head, tail, rest := Ray(b, xs[0], from, n), Rays(b, from, xs[1..], n), Rays(b, from, ys, n);
      assert Rays(b, from, xs + ys, n) == head + Rays(b, from, xs[1..] + ys, n);
      assert Rays(b, from, xs, n) == head + tail;
      assert head + (tail + rest) == (head + tail) + rest;
    } else {
      assert xs + ys == ys;
    }
  }

  /** A square is on a ray iff it lies `k` steps out for some `k` that
      `InLine` admits. */
  lemma RayMembership(b: Board, line: Vector, from: Square, n: nat)
    requires OnBoard(from)
    ensures forall sq :: sq in Ray(b, line, from, n) <==>
      exists k: nat :: InLine(b, line, from, n, k) && sq == Shift(from, line, k)
  {
    var r := Ray(b, line, from, n);
    RayExact(b, line, from, n);
    forall sq | sq in r ensures exists k: nat :: InLine(b, line, from, n, k) && sq == Shift(from, line, k) {
      var i :| 0 <= i < |r| && r[i] == sq;
      assert InLine(b, line, from, n, i + 1);
    }
    forall sq, k: nat | InLine(b, line, from, n, k) && sq == Shift(from, line, k) ensures sq in r {
      assert r[k - 1] == Shift(from, line, k);
    }
  }

  lemma {:induction false} RaysMembership(b: Board, from: Square, lines: seq<Vector>, n: nat)
    requires OnBoard(from)
    ensures forall sq :: sq in Rays(b, from, lines, n) <==>
      exists i, k: nat :: 0 <= i < |lines| && InLine(b, lines[i], from, n, k) && sq == Shift(from, lines[i], k)
  {
    if lines != [] {
      RayMembership(b, lines[0], from, n);
      RaysMembership(b, from, lines[1..], n);
      forall sq | sq in Rays(b, from, lines, n)
        ensures exists i, k: nat :: 0 <= i < |lines| && InLine(b, lines[i], from, n, k) && sq == Shift(from, lines[i], k)
      {
        if sq in Ray(b, lines[0], from, n) {
          var k: nat :| InLine(b, lines[0], from, n, k) && sq == Shift(from, lines[0], k);
          assert 0 < |lines| && InLine(b, lines[0], from, n, k);
        } else {
          assert sq in Rays(b, from, lines[1..], n);
          var i, k: nat :| 0 <= i < |lines[1..]| && InLine(b, lines[1..][i], from, n, k) && sq == Shift(from, lines[1..][i], k);
          assert InLine(b, lines[i + 1], from, n, k);
        }
      }
      forall sq, i, k: nat | 0 <= i < |lines| && InLine(b, lines[i], from, n, k) && sq == Shift(from, lines[i], k)
        ensures sq in Rays(b, from, lines, n)
      {
        if i > 0 {
          assert lines[1..][i - 1] == lines[i];
        }
      }
    }
  }

  lemma {:induction false} RaysOneLength(b: Board, from: Square, offsets: seq<Vector>)
    requires OnBoard(from)
    ensures |Rays(b, from, offsets, 1)| <= |offsets|
  {
    if offsets != [] {
      RaysOneLength(b, from, offsets[1..]);
    }
  }

  /** With limit 1 each line is a single probe, so the rays along
      `offsets` yield at most one square per offset: exactly the squares
      one offset away that the mover may enter. */
  lemma StepsMembership(b: Board, from: Square, offsets: seq<Vector>)
    requires OnBoard(from)
    ensures |Rays(b, from, offsets, 1)| <= |offsets|
    ensures forall sq :: sq in Rays(b, from, offsets, 1) <==>
      PieceAt(b, from).Some? &&
      exists i :: 0 <= i < |offsets| && sq == Shift(from, offsets[i], 1) && Enterable(b, sq, PieceAt(b, from).value.color)
  {
    RaysOneLength(b, from, offsets);
    RaysMembership(b, from, offsets, 1);
    forall sq | sq in Rays(b, from, offsets, 1)
      ensures PieceAt(b, from).Some? &&
        exists i :: 0 <= i < |offsets| && sq == Shift(from, offsets[i], 1) && Enterable(b, sq, PieceAt(b, from).value.color)
    {
      var i, k: nat :| 0 <= i < |offsets| && InLine(b, offsets[i], from, 1, k) && sq == Shift(from, offsets[i], k);
      assert k == 1;
    }
    forall sq, i | PieceAt(b, from).Some? && 0 <= i < |offsets| && sq == Shift(from, offsets[i], 1)
        && Enterable(b, sq, PieceAt(b, from).value.color)
      ensures sq in Rays(b, from, offsets, 1)
    {
      assert InLine(b, offsets[i], from, 1, 1);
    }
  }

  lemma RaysOfFour(b: Board, from: Square, lines: seq<Vector>, n: nat)
    requires OnBoard(from) && |lines| == 4
    ensures Rays(b, from, lines, n)
      == Ray(b, lines[0], from, n) + Ray(b, lines[1], from, n) + Ray(b, lines[2], from, n) + Ray(b, lines[3], from, n)
  {
    var l1, l2, l3 := lines[1..], lines[2..], lines[3..];
    var r0, r1, r2, r3 := Ray(b, lines[0], from, n), Ray(b, lines[1], from, n), Ray(b, lines[2], from, n), Ray(b, lines[3], from, n);
    assert l1[0] == lines[1] && l1[1..] == l2;
    assert l2[0] == lines[2] && l2[1..] == l3;
    assert l3[0] == lines[3] && l3[1..] == [];
    assert Rays(b, from, l3, n) == r3 + [];
    assert Rays(b, from, l2, n) == r2 + Rays(b, from, l3, n);
    assert Rays(b, from, l1, n) == r1 + Rays(b, from, l2, n);
    assert Rays(b, from, lines, n) == r0 + Rays(b, from, l1, n);
    assert r0 + (r1 + (r2 + r3)) == r0 + r1 + r2 + r3;
  }

  lemma RaysOfEight(b: Board, from: Square, lines: seq<Vector>, n: nat)
    requires OnBoard(from) && |lines| == 8
    ensures Rays(b, from, lines, n)
      == Ray(b, lines[0], from, n) + Ray(b, lines[1], from, n) + Ray(b, lines[2], from, n) + Ray(b, lines[3], from, n)
       + Ray(b, lines[4], from, n) + Ray(b, lines[5], from, n) + Ray(b, lines[6], from, n) + Ray(b, lines[7], from, n)
  {
    var front, back := lines[..4], lines[4..];
    assert lines == front + back;
    assert front[0] == lines[0] && front[1] == lines[1] && front[2] == lines[2] && front[3] == lines[3];
    assert back[0] == lines[4] && back[1] == lines[5] && back[2] == lines[6] && back[3] == lines[7];
    RaysAppend(b, from, front, back, n);
    RaysOfFour(b, from, front, n);
    RaysOfFour(b, from, back, n);
    var x := Rays(b, from, front, n);
    var r4, r5, r6, r7 := Ray(b, lines[4], from, n), Ray(b, lines[5], from, n), Ray(b, lines[6], from, n), Ray(b, lines[7], from, n);
    AppendAssoc(x, r4 + r5 + r6, r7);
    AppendAssoc(x, r4 + r5, r6);
    AppendAssoc(x, r4, r5);
  }

  /** Knight moves: the eight knight offsets probed in the listed order,
      at most eight squares, each an enterable knight jump away. */
  lemma KnightMovesSpec(b: Board, from: Square)
    requires OnBoard(from)
    ensures KnightMoves(b, from) == Rays(b, from, KnightOffsets, 1)
    ensures |KnightMoves(b, from)| <= 8
    ensures forall sq :: sq in KnightMoves(b, from) <==>
      PieceAt(b, from).Some? &&
      exists i :: 0 <= i < 8 && sq == Shift(from, KnightOffsets[i], 1) && Enterable(b, sq, PieceAt(b, from).value.color)
  {
    RaysOfEight(b, from, KnightOffsets, 1);
    StepsMembership(b, from, KnightOffsets);
  }

  /** King moves: the first step of each of the queen's eight lines, in
      the same order, at most eight squares, each enterable. */
  lemma KingMovesSpec(b: Board, from: Square)
    requires OnBoard(from)
    ensures KingMoves(b, from) == Rays(b, from, BishopLines + RookLines, 1)
    ensures |KingMoves(b, from)| <= 8
    ensures forall sq :: sq in KingMoves(b, from) <==>
      PieceAt(b, from).Some? &&
      exists i :: 0 <= i < 8 && sq == Shift(from, (BishopLines + RookLines)[i], 1) && Enterable(b, sq, PieceAt(b, from).value.color)
  {
    RaysOfEight(b, from, BishopLines + RookLines, 1);
    StepsMembership(b, from, BishopLines + RookLines);
  }

  /** Bishop moves: the four diagonal rays in the listed order; a square is
      yielded iff it lies `k` steps out along one of them with every square
      before it empty, and is empty or held by the other colour. */
  lemma BishopMovesSpec(b: Board, from: Square)
    requires OnBoard(from)
    ensures BishopMoves(b, from) == Rays(b, from, BishopLines, NoLimit)
    ensures forall sq :: sq in BishopMoves(b, from) <==>
      exists i, k: nat :: 0 <= i < 4 && InLine(b, BishopLines[i], from, NoLimit, k) && sq == Shift(from, BishopLines[i], k)
  {
    RaysOfFour(b, from, BishopLines, NoLimit);
    RaysMembership(b, from, BishopLines, NoLimit);
  }

  /** Rook moves: the same for the four orthogonal rays. */
  lemma RookMovesSpec(b: Board, from: Square)
    requires OnBoard(from)
    ensures RookMoves(b, from) == Rays(b, from, RookLines, NoLimit)
    ensures forall sq :: sq in RookMoves(b, from) <==>
      exists i, k: nat :: 0 <= i < 4 && InLine(b, RookLines[i], from, NoLimit, k) && sq == Shift(from, RookLines[i], k)
  {
    RaysOfFour(b, from, RookLines, NoLimit);
    RaysMembership(b, from, RookLines, NoLimit);
  }

  /** Queen moves are the bishop's four rays followed by the rook's four. */
  lemma QueenMovesSpec(b: Board, from: Square)
    requires OnBoard(from)
    ensures QueenMoves(b, from) == Rays(b, from, BishopLines + RookLines, NoLimit)
    ensures forall sq :: sq in QueenMoves(b, from) <==>
      exists i, k: nat :: 0 <= i < 8 && InLine(b, (BishopLines + RookLines)[i], from, NoLimit, k)
        && sq == Shift(from, (BishopLines + RookLines)[i], k)
  {
    BishopMovesSpec(b, from);
    RookMovesSpec(b, from);
    RaysAppend(b, from, BishopLines, RookLines, NoLimit);
    RaysMembership(b, from, BishopLines + RookLines, NoLimit);
  }

  /** Independent description of a pawn's moves, in the generator's order:
      the forward moves, then the capture to the left, then the one to
      the right. White moves up the board (row - 1), Black down (row + 1). */
  function PawnReference(b: Board, from: Square, c: Color): seq<Square> {
    var dir := Forward(c);
    PawnAdvance(b, from, c)
    + CaptureOnto(b, Square(from.row + dir, from.col - 1), c)
    + CaptureOnto(b, Square(from.row + dir, from.col + 1), c)
  }

  /** One step forward onto an empty square, then a second step onto an
      empty square when the pawn stands on its starting row. */
  function PawnAdvance(b: Board, from: Square, c: Color): seq<Square> {
    var dir := Forward(c);
    var one := Square(from.row + dir, from.col);
    var two := Square(from.row + 2 * dir, from.col);
    if OnBoard(one) && PieceAt(b, one).None?
    then [one] + (if from.row == StartRow(c) && PieceAt(b, two).None? then [two] else [])
    else []
  }

  /** A diagonal square is a destination only when it holds an enemy. */
  function CaptureOnto(b: Board, sq: Square, c: Color): seq<Square> {
    if HoldsEnemy(b, sq, c) then [sq] else []
  }

  lemma KeepEmptyCons(b: Board, sq: Square, s: seq<Square>)
    ensures KeepEmpty(b, [sq] + s) == (if PieceAt(b, sq).None? then [sq] else []) + KeepEmpty(b, s)
  {
    assert ([sq] + s)[0] == sq && ([sq] + s)[1..] == s;
  }

  /** A ray of limit 1 or 2, filtered down to empty squares: the first
      square when it is on the board and empty, then with limit 2 the
      second when it is empty too. */
  lemma AdvanceRay(b: Board, from: Square, line: Vector, limit: nat)
    requires OnBoard(from) && PieceAt(b, from).Some? && 1 <= limit <= 2
    requires limit == 2 ==> OnBoard(Shift(from, line, 2))
    ensures var one, two := Shift(from, line, 1), Shift(from, line, 2);
      KeepEmpty(b, Ray(b, line, from, limit))
      == if OnBoard(one) && PieceAt(b, one).None?
         then [one] + (if limit == 2 && PieceAt(b, two).None? then [two] else [])
         else []
  {
    var c := PieceAt(b, from).value.color;
    var one, two := Shift(from, line, 1), Shift(from, line, 2);
    var w1 := Walk(b, c, line, from, 1, limit);
    if OnBoard(one) && PieceAt(b, one).None? {
      var w2 := Walk(b, c, line, from, 2, limit);
      assert w1 == [one] + w2;
      KeepEmptyCons(b, one, w2);
      if limit == 2 && PieceAt(b, two).None? {
        assert Walk(b, c, line, from, 3, limit) == [];
        KeepEmptyCons(b, two, []);
      } else if limit == 2 {
        assert KeepEmpty(b, w2) == [];
      } else {
        assert w2 == [];
      }
    } else {
      assert KeepEmpty(b, w1) == [];
    }
  }

  /** The forward part: the ray straight ahead with limit 2 on the
      starting row (else 1), filtered down to empty squares. */
  lemma PawnForward(b: Board, from: Square)
    requires OnBoard(from) && PieceAt(b, from).Some?
    ensures var c := PieceAt(b, from).value.color;
      var isStartingRow := from.row == StartRow(c);
      KeepEmpty(b, Ray(b, Vector(Forward(c), 0), from, if isStartingRow then 2 else 1)) == PawnAdvance(b, from, c)
  {
    var c := PieceAt(b, from).value.color;
    var dir := Forward(c);
    var line := Vector(dir, 0);
    var limit := if from.row == StartRow(c) then 2 else 1;
    assert Shift(from, line, 1) == Square(from.row + dir, from.col);
    assert Shift(from, line, 2) == Square(from.row + 2 * dir, from.col);
    assert limit == 2 ==> OnBoard(Shift(from, line, 2));
    AdvanceRay(b, from, line, limit);
  }

  /** A diagonal probe keeps its square iff it holds an enemy piece. */
  lemma PawnCapture(b: Board, from: Square, line: Vector)
    requires OnBoard(from) && PieceAt(b, from).Some?
    ensures var sq := Shift(from, line, 1);
      KeepEnemies(b, PieceAt(b, from).value.color, Ray(b, line, from, 1))
      == if HoldsEnemy(b, sq, PieceAt(b, from).value.color) then [sq] else []
  {
    RayOneStep(b, line, from);
    var sq := Shift(from, line, 1);
    var c := PieceAt(b, from).value.color;
    if Enterable(b, sq, c) {
      assert KeepEnemies(b, c, [sq]) == (if HoldsEnemy(b, sq, c) then [sq] else []) + KeepEnemies(b, c, []);
    }
  }

  /** Both diagonal probes, filtered to captures. */
  lemma PawnCaptures(b: Board, from: Square)
    requires OnBoard(from) && PieceAt(b, from).Some?
    ensures var c := PieceAt(b, from).value.color;
      var dir := Forward(c);
      KeepEnemies(b, c, Ray(b, Vector(dir, -1), from, 1) + Ray(b, Vector(dir, 1), from, 1))
      == CaptureOnto(b, Square(from.row + dir, from.col - 1), c) + CaptureOnto(b, Square(from.row + dir, from.col + 1), c)
  {
    var c := PieceAt(b, from).value.color;
    var dir := Forward(c);
    PawnCapture(b, from, Vector(dir, -1));
    assert Shift(from, Vector(dir, -1), 1) == Square(from.row + dir, from.col - 1);
    PawnCapture(b, from, Vector(dir, 1));
    assert Shift(from, Vector(dir, 1), 1) == Square(from.row + dir, from.col + 1);
    KeepEnemiesAppend(b, c, Ray(b, Vector(dir, -1), from, 1), Ray(b, Vector(dir, 1), from, 1));
  }

  /** The pawn generator agrees with `PawnReference`. */
  lemma PawnMovesExact(b: Board, from: Square)
    requires OnBoard(from) && PieceAt(b, from).Some?
    ensures PawnMoves(b, from) == PawnReference(b, from, PieceAt(b, from).value.color)
  {
    var c := PieceAt(b, from).value.color;
    var dir := Forward(c);
    var isStartingRow := from.row == StartRow(c);
    var fwd := KeepEmpty(b, Ray(b, Vector(dir, 0), from, if isStartingRow then 2 else 1));
    var caps := KeepEnemies(b, c, Ray(b, Vector(dir, -1), from, 1) + Ray(b, Vector(dir, 1), from, 1));
    assert PawnMoves(b, from) == fwd + caps;
    PawnForward(b, from);
    PawnCaptures(b, from);
    AppendAssoc(PawnAdvance(b, from, c),
      CaptureOnto(b, Square(from.row + dir, from.col - 1), c), CaptureOnto(b, Square(from.row + dir, from.col + 1), c));
  }

  lemma AppendAssoc(xs: seq<Square>, ys: seq<Square>, zs: seq<Square>)
    ensures xs + (ys + zs) == xs + ys + zs
  {
  }

  lemma {:induction false} KeepEnemiesAppend(b: Board, c: Color, xs: seq<Square>, ys: seq<Square>)
    ensures KeepEnemies(b, c, xs + ys) == KeepEnemies(b, c, xs) + KeepEnemies(b, c, ys)
  {
    if xs != [] {
      assert (xs + ys)[0] == xs[0] && (xs + ys)[1..] == xs[1..] + ys;
      KeepEnemiesAppend(b, c, xs[1..], ys);
      var head := if HoldsEnemy(b, xs[0], c) then [xs[0]] else [];
      var tail, rest := KeepEnemies(b, c, xs[1..]), KeepEnemies(b, c, ys);
      assert head + (tail + rest) == (head + tail) + rest;
    } else {
      assert xs + ys == ys;
    }
  }

  // ---------------------------------------------------------------------
  // The starting position.

  function BackRank(c: Color): seq<Option<Piece>> {
    [Some(Piece(Rook, c)), Some(Piece(Knight, c)), Some(Piece(Bishop, c)), Some(Piece(Queen, c)),
     Some(Piece(King, c)), Some(Piece(Bishop, c)), Some(Piece(Knight, c)), Some(Piece(Rook, c))]
  }

  function PawnRank(c: Color): seq<Option<Piece>> {
    seq(8, _ => Some(Piece(Pawn, c)))
  }

  function EmptyRank(): seq<Option<Piece>> {
    seq(8, _ => None)
  }

  /** `rnbqkbnr/pppppppp/8/8/8/8/PPPPPPPP/RNBQKBNR`. */
  function StartBoard(): Board {
    [BackRank(Black), PawnRank(Black), EmptyRank(), EmptyRank(),
     EmptyRank(), EmptyRank(), PawnRank(White), BackRank(White)]
  }

  /** The white king's pawn (row 6, col 4) can go to e3 and e4, in that order. */
  lemma StartingKingPawn()
    ensures AvailableMoves(StartBoard(), Square(6, 4)) == [Square(5, 4), Square(4, 4)]
  {
    var b := StartBoard();
    PawnMovesExact(b, Square(6, 4));
    assert PieceAt(b, Square(5, 4)) == None && PieceAt(b, Square(4, 4)) == None;
    assert PieceAt(b, Square(5, 3)) == None && PieceAt(b, Square(5, 5)) == None;
  }
}
