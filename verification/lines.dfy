/** The ray-walking primitive every piece generator is built from: step
    outward from a square along a direction, stopping at the board edge,
    at the distance limit, or at the first occupied square (which is kept
    only when it holds a piece of the other colour). */
module Lines {
  import opened Chess

  /** Stands in for the source's default `maxDistance = Infinity`: no ray
      leaves the board in 8 steps, so any larger limit gives the same ray
      (`LongerLimitSameRay`). */
  const NoLimit: nat := 8

  /** The squares the ray still yields from step `distance` on, for a mover
      of colour `mover` standing on `from`. */
  function Walk(b: Board, mover: Color, line: Vector, from: Square, distance: nat, maxDistance: nat): (r: seq<Square>)
    requires 1 <= distance <= maxDistance + 1
    ensures distance + |r| <= maxDistance + 1
    ensures forall i :: 0 <= i < |r| ==> Enterable(b, r[i], mover)
    ensures forall i :: 0 <= i < |r| - 1 ==> PieceAt(b, r[i]).None?
    decreases maxDistance + 1 - distance
  {
    var sq := Shift(from, line, distance);
    if !OnBoard(sq) || distance > maxDistance then []
    else match PieceAt(b, sq)
      case None => [sq] + Walk(b, mover, line, from, distance + 1, maxDistance)
      case Some(p) => if p.color != mover then [sq] else []
  }

  /** The value of the source's `getAvailableMovesInLine`. */
  function Ray(b: Board, line: Vector, from: Square, maxDistance: nat): (r: seq<Square>)
    requires OnBoard(from)
    ensures |r| <= maxDistance
    ensures Targets(b, from, r)
    ensures forall i :: 0 <= i < |r| - 1 ==> PieceAt(b, r[i]).None?
  {
    match PieceAt(b, from)
    case None => []
    case Some(mover) => Walk(b, mover.color, line, from, 1, maxDistance)
  }

  /** Every square of `s` is a square the piece on `from` may end its move
      on; in particular `s` is empty when `from` is. */
  predicate Targets(b: Board, from: Square, s: seq<Square>) {
    forall sq :: sq in s ==> PieceAt(b, from).Some? && Enterable(b, sq, PieceAt(b, from).value.color)
  }

  /** A single probe: with limit 1 a ray is the one square a step away,
      kept iff the mover may enter it. */
  lemma RayOneStep(b: Board, line: Vector, from: Square)
    requires OnBoard(from) && PieceAt(b, from).Some?
    ensures var sq := Shift(from, line, 1);
      Ray(b, line, from, 1) == if Enterable(b, sq, PieceAt(b, from).value.color) then [sq] else []
  {
    var c := PieceAt(b, from).value.color;
    var sq := Shift(from, line, 1);
    if OnBoard(sq) && PieceAt(b, sq).None? {
      assert Walk(b, c, line, from, 2, 1) == [];
    }
  }

  /** Independent description of the ray: the square `k` steps out is
      yielded iff `k` is within the limit, every square before it is on
      the board and empty, and it is itself enterable by the mover. */
  ghost predicate Open(b: Board, mover: Color, line: Vector, from: Square, distance: nat, maxDistance: nat, k: nat)
  {
    && k <= maxDistance
    && (forall j :: distance <= j < k ==> OnBoard(Shift(from, line, j)) && PieceAt(b, Shift(from, line, j)).None?)
    && Enterable(b, Shift(from, line, k), mover)
  }

  ghost predicate InLine(b: Board, line: Vector, from: Square, maxDistance: nat, k: nat)
  {
    PieceAt(b, from).Some? && 1 <= k && Open(b, PieceAt(b, from).value.color, line, from, 1, maxDistance, k)
  }

  lemma {:induction false} WalkExact(b: Board, mover: Color, line: Vector, from: Square, distance: nat, maxDistance: nat)
    requires 1 <= distance <= maxDistance + 1
    ensures var r := Walk(b, mover, line, from, distance, maxDistance);
      && (forall i :: 0 <= i < |r| ==> r[i] == Shift(from, line, distance + i))
      && (forall k: nat :: distance <= k ==> (k < distance + |r| <==> Open(b, mover, line, from, distance, maxDistance, k)))
    decreases maxDistance + 1 - distance
  {
    var r := Walk(b, mover, line, from, distance, maxDistance);
    var sq := Shift(from, line, distance);
    if !OnBoard(sq) || distance > maxDistance {
      forall k: nat | distance <= k
        ensures !Open(b, mover, line, from, distance, maxDistance, k)
      {
        if k > distance && distance <= maxDistance {
          assert !(OnBoard(Shift(from, line, distance)));
        }
      }
    } else if PieceAt(b, sq).Some? {
      forall k: nat | distance < k
        ensures !Open(b, mover, line, from, distance, maxDistance, k)
      {
        assert PieceAt(b, Shift(from, line, distance)).Some?;
      }
    } else {
      var rest := Walk(b, mover, line, from, distance + 1, maxDistance);
      WalkExact(b, mover, line, from, distance + 1, maxDistance);
      assert r == [sq] + rest;
      forall k: nat | distance < k
        ensures Open(b, mover, line, from, distance, maxDistance, k)
            <==> Open(b, mover, line, from, distance + 1, maxDistance, k)
      {
      }
    }
  }

  /** The k-th square of a ray (counting from 1) is `from + k * line`, and
      a square `k` steps out is yielded exactly when `InLine` holds. */
  lemma RayExact(b: Board, line: Vector, from: Square, maxDistance: nat)
    requires OnBoard(from)
    ensures var r := Ray(b, line, from, maxDistance);
      && (forall i :: 0 <= i < |r| ==> r[i] == Shift(from, line, i + 1))
      && (forall k: nat :: 1 <= k ==> (k <= |r| <==> InLine(b, line, from, maxDistance, k)))
  {
    if PieceAt(b, from).Some? {
      var r := Ray(b, line, from, maxDistance);
      WalkExact(b, PieceAt(b, from).value.color, line, from, 1, maxDistance);
      assert r == Walk(b, PieceAt(b, from).value.color, line, from, 1, maxDistance);
      forall i | 0 <= i < |r| ensures r[i] == Shift(from, line, i + 1) {
        assert r[i] == Shift(from, line, 1 + i);
        assert 1 + i == i + 1;
      }
    }
  }

  /** The source's loop: `row`, `col` and `distance` advance together and
      each empty or capturable square is pushed onto `available`. */
  method MovesInLine(b: Board, line: Vector, from: Square, maxDistance: nat) returns (available: seq<Square>)
    requires OnBoard(from)
    ensures available == Ray(b, line, from, maxDistance)
  {
    var movingPiece := b[from.row][from.col];
    available := [];
    if movingPiece.None? {
      return [];
    }
    var mover := movingPiece.value.color;
    var row, col, distance := from.row + line.row, from.col + line.col, 1;
    while 0 <= row < 8 && 0 <= col < 8 && distance <= maxDistance
      invariant 1 <= distance <= maxDistance + 1
      invariant Square(row, col) == Shift(from, line, distance)
      invariant available + Walk(b, mover, line, from, distance, maxDistance) == Ray(b, line, from, maxDistance)
      decreases maxDistance + 1 - distance
    {
      var pieceAtSquare := b[row][col];
      if pieceAtSquare.Some? {
        if pieceAtSquare.value.color != mover {
          available := available + [Square(row, col)];
        }
        break;
      }
      available := available + [Square(row, col)];
      row, col, distance := row + line.row, col + line.col, distance + 1;
    }
  }

  /** Any nonzero line leaves the board within 8 steps. */
  lemma OffBoardAfterEight(from: Square, line: Vector, k: int)
    requires OnBoard(from) && line != Vector(0, 0) && k >= 8
    ensures !OnBoard(Shift(from, line, k))
  {
    if line.row > 0 {
      assert k * line.row >= k * 1;
    } else if line.row < 0 {
      assert k * line.row <= k * -1;
    } else if line.col > 0 {
      assert k * line.col >= k * 1;
    } else {
      assert k * line.col <= k * -1;
    }
  }

  lemma {:induction false} WalkLimitIrrelevant(b: Board, mover: Color, line: Vector, from: Square, distance: nat, m: nat, n: nat)
    requires OnBoard(from) && line != Vector(0, 0)
    requires NoLimit <= m && NoLimit <= n && 1 <= distance <= NoLimit
    ensures Walk(b, mover, line, from, distance, m) == Walk(b, mover, line, from, distance, n)
    decreases NoLimit - distance
  {
    if distance == NoLimit {
      OffBoardAfterEight(from, line, distance);
    } else if OnBoard(Shift(from, line, distance)) {
      WalkLimitIrrelevant(b, mover, line, from, distance + 1, m, n);
    }
  }

  /** Modelling `Infinity` as `NoLimit` is exact: every limit of at least
      8 yields the same ray along a nonzero line. */
  lemma LongerLimitSameRay(b: Board, line: Vector, from: Square, n: nat)
    requires OnBoard(from) && line != Vector(0, 0) && NoLimit <= n
    ensures Ray(b, line, from, n) == Ray(b, line, from, NoLimit)
  {
    if PieceAt(b, from).Some? {
      WalkLimitIrrelevant(b, PieceAt(b, from).value.color, line, from, 1, n, NoLimit);
    }
  }
}
