/**
 * The movement rules of the six piece variants, before the "does this leave my
 * own king in check" test: the shared base test and obstruction test of
 * ChessPiece, and the geometric tests of Pawn, Knight, Bishop, Rook, Queen and
 * King.  Each rule is a predicate over the board value; the methods read the
 * board array exactly as the original does and are proved to compute the
 * predicate.
 */
module Rules {
  import opened Coordinates
  import opened Pieces
  import opened ChessMoves

  /**
   * validUniversalBaseMove: the destination is on the board, is not the piece's
   * own square, and holds no piece of the mover's team.
   */
  predicate ValidBaseMove(g: Grid, p: Piece, x: int, y: int): (ok: bool)
    ensures !InBounds(x, y) ==> !ok
    ensures x == p.x && y == p.y ==> !ok
    ensures InBounds(x, y) && (x != p.x || y != p.y) ==>
              (ok <==> g[x][y].None? || g[x][y].value.team != p.team)
  {
    InBounds(x, y) && !(x == p.x && y == p.y) && !(g[x][y].Some? && g[x][y].value.team == p.team)
  }

  /** pieceBetweenPieceAndMove: some square strictly between the two squares is occupied. */
  predicate PieceBetween(g: Grid, x0: int, y0: int, x1: int, y1: int)
    requires Aligned(x0, y0, x1, y1)
  {
    var s := SquaresBetween(x0, y0, x1, y1);
    exists k :: 0 <= k < |s| && Occupied(g, s[k].0, s[k].1)
  }

  /** The square k steps from (x0, y0) in the direction of (x1, y1). */
  function Along(x0: int, y0: int, x1: int, y1: int, k: int): (int, int)
  {
    (Walk(x0, Sign(x1 - x0), k), Walk(y0, Sign(y1 - y0), k))
  }

  /**
   * The obstruction test in closed form: there is a piece k steps along the line
   * from the start, for some k strictly between 0 and the distance to the end.
   */
  lemma PieceBetweenAt(g: Grid, x0: int, y0: int, x1: int, y1: int)
    requires Aligned(x0, y0, x1, y1)
    ensures PieceBetween(g, x0, y0, x1, y1) <==>
            exists k :: 1 <= k < Dist(x0, y0, x1, y1) &&
              Occupied(g, Along(x0, y0, x1, y1, k).0, Along(x0, y0, x1, y1, k).1)
  {
    var s := SquaresBetween(x0, y0, x1, y1);
    SquaresBetweenLength(x0, y0, x1, y1);
    if PieceBetween(g, x0, y0, x1, y1) {
      var k :| 0 <= k < |s| && Occupied(g, s[k].0, s[k].1);
      SquaresBetweenAt(x0, y0, x1, y1, k);
      assert s[k] == Along(x0, y0, x1, y1, k + 1);
    }
    if exists k :: 1 <= k < Dist(x0, y0, x1, y1) && Occupied(g, Along(x0, y0, x1, y1, k).0, Along(x0, y0, x1, y1, k).1) {
      var k :| 1 <= k < Dist(x0, y0, x1, y1) && Occupied(g, Along(x0, y0, x1, y1, k).0, Along(x0, y0, x1, y1, k).1);
      SquaresBetweenAt(x0, y0, x1, y1, k - 1);
      assert s[k - 1] == Along(x0, y0, x1, y1, k);
    }
  }

  /** validKnightMove: one square on one axis and two on the other, whatever stands between. */
  predicate KnightMove(p: Piece, x: int, y: int)
  {
    var ax, ay := Abs(x - p.x), Abs(y - p.y);
    (ax == 1 && ay == 2) || (ax == 2 && ay == 1)
  }

  /** validKingMove: at most one square on each axis. */
  predicate KingMove(p: Piece, x: int, y: int)
  {
    Abs(x - p.x) <= 1 && Abs(y - p.y) <= 1
  }

  predicate Diagonal(p: Piece, x: int, y: int)
  {
    Abs(x - p.x) == Abs(y - p.y)
  }

  predicate Straight(p: Piece, x: int, y: int)
  {
    x == p.x || y == p.y
  }

  /** validBishopMove: a diagonal line with nothing standing on it. */
  predicate BishopMove(g: Grid, p: Piece, x: int, y: int)
  {
    Diagonal(p, x, y) && !PieceBetween(g, p.x, p.y, x, y)
  }

  /** validRookMove: a rank or file line with nothing standing on it. */
  predicate RookMove(g: Grid, p: Piece, x: int, y: int)
  {
    Straight(p, x, y) && !PieceBetween(g, p.x, p.y, x, y)
  }

  /** validQueenMove: a diagonal or straight line with nothing standing on it. */
  predicate QueenMove(g: Grid, p: Piece, x: int, y: int)
  {
    (Diagonal(p, x, y) || Straight(p, x, y)) && !PieceBetween(g, p.x, p.y, x, y)
  }

  /** The pawn's direction of travel: up the ranks for white, down for black. */
  function Direction(t: Team): (d: int)
    ensures d == 1 || d == -1
    ensures d == 1 <==> t == White
  {
    if t == White then 1 else -1
  }

  /** A change of coordinate measured in the team's direction of travel (change * direction). */
  function Forward(t: Team, d: int): (f: int)
    ensures f == d * Direction(t)
  {
    if t == White then d else -d
  }

  /** The rank on which a pawn of the team promotes. */
  function LastRank(t: Team): (r: int)
    ensures 0 <= r <= 7
    ensures Forward(t, 2 * r - 7) == 7
  {
    if t == White then 7 else 0
  }

  /**
   * validEnPessant: a sideways pawn step onto the square just behind an enemy
   * pawn that jumped two ranks on the last move; it answers with that pawn.
   */
  function ValidEnPassant(p: Piece, lm: Move, x: int, y: int): (r: (bool, Option<Piece>))
    ensures r.0 <==> x != p.x && lm.WasPawnJump() && lm.moveToX == x && lm.moveToY + Direction(p.team) == y
    ensures r.1 == (if r.0 then lm.piece else None)
  {
    if Forward(p.team, x - p.x) != 0 && lm.WasPawnJump() && lm.moveToX == x && lm.moveToY == y - Direction(p.team)
    then (true, lm.piece)
    else (false, None)
  }

  /** Every square from one step ahead of the pawn up to ym steps ahead, on file x, is empty. */
  predicate PawnPathClear(g: Grid, p: Piece, x: int, ym: int)
  {
    forall k :: 1 <= k <= ym ==> !Occupied(g, x, p.y + Forward(p.team, k))
  }

  /**
   * validPawnMove: one or two ranks forward and at most one file sideways; two
   * ranks only straight and only on the pawn's first move; a straight move needs
   * every square up to and including the destination empty; a sideways move
   * needs an enemy to capture there, or an en passant capture.
   */
  predicate PawnMove(g: Grid, lm: Move, p: Piece, x: int, y: int)
  {
    var xm, ym := Forward(p.team, x - p.x), Forward(p.team, y - p.y);
    && 1 <= ym <= 2 && -1 <= xm <= 1
    && (ym == 2 ==> xm == 0 && p.firstMove)
    && (xm == 0 ==> PawnPathClear(g, p, x, ym))
    && (xm != 0 ==> (Occupied(g, x, y) && g[x][y].value.team != p.team) || ValidEnPassant(p, lm, x, y).0)
  }

  /**
   * The board conditions of validCastle (everything but its check test on the
   * first square the king crosses): the unmoved king steps two files along its
   * own rank, the nearer corner of that rank holds an unmoved rook, and nothing
   * stands between king and rook.  The answer is that rook's file and the file
   * the rook lands on.
   */
  function CastleRook(g: Grid, k: Piece, x: int, y: int): (r: Option<(int, int)>)
    requires InBounds(x, y)
    ensures r.Some? ==> k.firstMove && y == k.y && Abs(k.x - x) == 2
    ensures r.Some? ==> r.value == (if x < 4 then (0, 3) else (7, 5))
    ensures r.Some? ==> var rook := g[r.value.0][y];
                        rook.Some? && rook.value.kind == Rook && rook.value.firstMove
    ensures r.Some? <==>
              && k.firstMove && y == k.y && Abs(k.x - x) == 2
              && var rx := if x < 4 then 0 else 7;
                 && g[rx][y].Some? && g[rx][y].value.kind == Rook && g[rx][y].value.firstMove
                 && !PieceBetween(g, k.x, k.y, rx, y)
  {
    if !k.firstMove || y != k.y then None
    else if Abs(k.x - x) != 2 then None
    else
      var rookX := if x < 7 - x then 0 else 7;
      var rook := g[rookX][y];
      if rook.None? || rook.value.kind != Rook || !rook.value.firstMove then None
      else if PieceBetween(g, k.x, k.y, rookX, y) then None
      else Some((rookX, if rookX == 0 then 3 else 5))
  }

  /**
   * The variant's own movement test as the attack scan evaluates it: for a king,
   * a castling move passing the board conditions or an ordinary king step.
   */
  predicate Geometry(g: Grid, lm: Move, p: Piece, x: int, y: int)
    requires InBounds(x, y)
  {
    match p.kind
    case Pawn => PawnMove(g, lm, p, x, y)
    case Knight => KnightMove(p, x, y)
    case Bishop => BishopMove(g, p, x, y)
    case Rook => RookMove(g, p, x, y)
    case Queen => QueenMove(g, p, x, y)
    case King => CastleRook(g, p, x, y).Some? || KingMove(p, x, y)
  }

  /** The piece q could move to (x, y) if leaving its own king exposed were allowed. */
  predicate Attacks(g: Grid, lm: Move, q: Piece, x: int, y: int)
  {
    ValidBaseMove(g, q, x, y) && Geometry(g, lm, q, x, y)
  }

  /** The knight's rule never looks at the board: pieces standing in between do not matter. */
  lemma KnightIgnoresBoard(g: Grid, h: Grid, lm: Move, lm': Move, p: Piece, x: int, y: int)
    requires p.kind == Knight && InBounds(x, y)
    ensures Geometry(g, lm, p, x, y) == Geometry(h, lm', p, x, y)
    ensures Geometry(g, lm, p, x, y) <==> (Abs(x - p.x), Abs(y - p.y)) in {(1, 2), (2, 1)}
  {
  }

  /** The queen moves exactly where a rook or a bishop standing on its square could. */
  lemma QueenIsRookOrBishop(g: Grid, p: Piece, x: int, y: int)
    ensures QueenMove(g, p, x, y) <==> RookMove(g, p, x, y) || BishopMove(g, p, x, y)
  {
  }

  /**
   * The sliding pieces in closed form: the line shape of the variant, and no
   * piece on any of the squares 1 .. Dist - 1 steps along the line.
   */
  lemma SlidingMove(g: Grid, lm: Move, p: Piece, x: int, y: int)
    requires p.kind == Bishop || p.kind == Rook || p.kind == Queen
    requires InBounds(x, y)
    ensures Geometry(g, lm, p, x, y) <==>
              && (if p.kind == Bishop then Diagonal(p, x, y)
                  else if p.kind == Rook then Straight(p, x, y)
                  else Diagonal(p, x, y) || Straight(p, x, y))
              && forall k :: 1 <= k < Dist(p.x, p.y, x, y) ==>
                   !Occupied(g, Along(p.x, p.y, x, y, k).0, Along(p.x, p.y, x, y, k).1)
  {
    if Diagonal(p, x, y) || Straight(p, x, y) {
      PieceBetweenAt(g, p.x, p.y, x, y);
    }
  }

  /**
   * A pawn moves exactly when it goes one or two ranks forward and at most one
   * file sideways, two ranks only straight, on its first move and over an empty
   * middle square; a straight move needs its destination empty, a sideways one
   * an enemy there or an en passant capture.
   */
  lemma PawnMoveShape(g: Grid, lm: Move, p: Piece, x: int, y: int)
    requires InBounds(x, y)
    ensures PawnMove(g, lm, p, x, y) <==>
              && 1 <= (y - p.y) * Direction(p.team) <= 2 && -1 <= x - p.x <= 1
              && ((y - p.y) * Direction(p.team) == 2 ==>
                    x == p.x && p.firstMove && !Occupied(g, x, p.y + Direction(p.team)))
              && (x == p.x ==> g[x][y].None?)
              && (x != p.x ==> (g[x][y].Some? && g[x][y].value.team != p.team) || ValidEnPassant(p, lm, x, y).0)
  {
    var ym := Forward(p.team, y - p.y);
    assert p.y + Forward(p.team, ym) == y;
    assert p.y + Forward(p.team, 1) == p.y + Direction(p.team);
  }

  // ---------------------------------------------------------------------------
  // The original's procedures over the board array.
  // ---------------------------------------------------------------------------

  /** validUniversalBaseMove, testing the bounds before it reads the destination square. */
  method ValidUniversalBaseMove(board: array2<Option<Piece>>, p: Piece, x: int, y: int) returns (ok: bool)
    requires board.Length0 == 8 && board.Length1 == 8
    ensures ok == ValidBaseMove(Snapshot(board), p, x, y)
  {
    var outsideBoard := x < 0 || x > 7 || y < 0 || y > 7;
    if outsideBoard {
      return false;
    }
    var moveLocation := board[x, y];
    if x == p.x && y == p.y {
      return false;
    }
    if moveLocation.Some? && moveLocation.value.team == p.team {
      return false;
    }
    return true;
  }

  /**
   * pieceBetweenPieceAndMove: a foreach over the squares the squaresBetween
   * generator yields, answering true at the first occupied one.
   */
  method PieceBetweenPieceAndMove(board: array2<Option<Piece>>, p: Piece, x: int, y: int) returns (r: bool)
    requires board.Length0 == 8 && board.Length1 == 8
    requires InBounds(p.x, p.y) && InBounds(x, y) && Aligned(p.x, p.y, x, y)
    ensures r == PieceBetween(Snapshot(board), p.x, p.y, x, y)
  {
    var squares := SquaresBetween(p.x, p.y, x, y);
    SquaresBetweenInBounds(p.x, p.y, x, y);
    var k := 0;
    while k < |squares|
      invariant 0 <= k <= |squares|
      invariant forall j :: 0 <= j < k ==> !Occupied(Snapshot(board), squares[j].0, squares[j].1)
    {
      var (squareX, squareY) := squares[k];
      assert squares[k] in squares;
      if board[squareX, squareY].Some? {
        assert Occupied(Snapshot(board), squares[k].0, squares[k].1);
        return true;
      }
      k := k + 1;
    }
    return false;
  }

  /** validBishopMove. */
  method ValidBishopMove(board: array2<Option<Piece>>, p: Piece, x: int, y: int) returns (ok: bool)
    requires board.Length0 == 8 && board.Length1 == 8
    requires InBounds(p.x, p.y) && InBounds(x, y)
    ensures ok == BishopMove(Snapshot(board), p, x, y)
  {
    if Abs(x - p.x) != Abs(y - p.y) {
      return false;
    }
    var blocked := PieceBetweenPieceAndMove(board, p, x, y);
    return !blocked;
  }

  /** validRookMove. */
  method ValidRookMove(board: array2<Option<Piece>>, p: Piece, x: int, y: int) returns (ok: bool)
    requires board.Length0 == 8 && board.Length1 == 8
    requires InBounds(p.x, p.y) && InBounds(x, y)
    ensures ok == RookMove(Snapshot(board), p, x, y)
  {
    if x - p.x != 0 && y - p.y != 0 {
      return false;
    }
    var blocked := PieceBetweenPieceAndMove(board, p, x, y);
    return !blocked;
  }

  /** validQueenMove. */
  method ValidQueenMove(board: array2<Option<Piece>>, p: Piece, x: int, y: int) returns (ok: bool)
    requires board.Length0 == 8 && board.Length1 == 8
    requires InBounds(p.x, p.y) && InBounds(x, y)
    ensures ok == QueenMove(Snapshot(board), p, x, y)
  {
    var diagonal := Abs(x - p.x) == Abs(y - p.y);
    var straight := x - p.x == 0 || y - p.y == 0;
    if !(diagonal || straight) {
      return false;
    }
    var blocked := PieceBetweenPieceAndMove(board, p, x, y);
    return !blocked;
  }

  /** validPawnMove, with its do-while scan up the file. */
  method ValidPawnMove(board: array2<Option<Piece>>, lm: Move, p: Piece, x: int, y: int) returns (ok: bool)
    requires board.Length0 == 8 && board.Length1 == 8
    requires InBounds(p.x, p.y) && InBounds(x, y)
    ensures ok == PawnMove(Snapshot(board), lm, p, x, y)
  {
    ghost var g := Snapshot(board);
    var direction := if p.team == White then 1 else -1;
    var xMovement := (x - p.x) * direction;
    var yMovement := (y - p.y) * direction;
    assert xMovement == Forward(p.team, x - p.x) && yMovement == Forward(p.team, y - p.y);
    if yMovement < 1 || yMovement > 2 || xMovement > 1 || xMovement < -1 {
      return false;
    }
    if yMovement == 2 && xMovement != 0 {
      return false;
    }
    if yMovement == 2 && !p.firstMove {
      return false;
    }
    if xMovement == 0 {
      var i := p.y;
      while true
        invariant 0 <= Forward(p.team, i - p.y) < yMovement
        invariant i == p.y + Forward(p.team, Forward(p.team, i - p.y))
        invariant forall k :: 1 <= k <= Forward(p.team, i - p.y) ==> !Occupied(g, x, p.y + Forward(p.team, k))
        decreases yMovement - Forward(p.team, i - p.y)
      {
        i := i + direction;
        if board[x, i].Some? {
          assert Occupied(g, x, p.y + Forward(p.team, Forward(p.team, i - p.y)));
          return false;
        }
        if i == y {
          break;
        }
      }
    }
    var moveLocation := board[x, y];
    var (validEnPassant, _) := ValidEnPassant(p, lm, x, y);
    var validCapture := xMovement != 0 && moveLocation.Some? && moveLocation.value.team != p.team;
    if xMovement != 0 && !validCapture && !validEnPassant {
      return false;
    }
    return true;
  }

  /**
   * The board part of validCastle: the answer is (false, -1, -1) unless the
   * castling conditions hold, and then (true, rookX, newRookX).
   */
  method CastleConditions(board: array2<Option<Piece>>, k: Piece, x: int, y: int) returns (valid: bool, rookX: int, newRookX: int)
    requires board.Length0 == 8 && board.Length1 == 8
    requires InBounds(k.x, k.y) && InBounds(x, y)
    ensures valid <==> CastleRook(Snapshot(board), k, x, y).Some?
    ensures valid ==> (rookX, newRookX) == CastleRook(Snapshot(board), k, x, y).value
    ensures !valid ==> rookX == -1 && newRookX == -1
  {
    if !k.firstMove || y != k.y {
      return false, -1, -1;
    }
    if Abs(k.x - x) != 2 {
      return false, -1, -1;
    }
    var useLeft := x < 7 - x;
    var rx := if useLeft then 0 else 7;
    var rook := board[rx, y];
    if rook.None? || rook.value.kind != Rook || !rook.value.firstMove {
      return false, -1, -1;
    }
    var blocked := PieceBetweenPieceAndMove(board, k, rx, y);
    if blocked {
      return false, -1, -1;
    }
    return true, rx, if rx == 0 then 3 else 5;
  }

  /**
   * The canMove(..., true, ...) of the attack scan, cut at the self-check test:
   * the base test and the variant's movement rule.
   */
  method PseudoLegalMove(board: array2<Option<Piece>>, lm: Move, q: Piece, x: int, y: int) returns (ok: bool)
    requires board.Length0 == 8 && board.Length1 == 8
    requires InBounds(q.x, q.y)
    ensures ok == Attacks(Snapshot(board), lm, q, x, y)
  {
    ok := ValidUniversalBaseMove(board, q, x, y);
    if !ok {
      return;
    }
    match q.kind
    case Pawn =>
      ok := ValidPawnMove(board, lm, q, x, y);
    case Knight =>
      ok := KnightMove(q, x, y);
    case Bishop =>
      ok := ValidBishopMove(board, q, x, y);
    case Rook =>
      ok := ValidRookMove(board, q, x, y);
    case Queen =>
      ok := ValidQueenMove(board, q, x, y);
    case King =>
      var castle, _, _ := CastleConditions(board, q, x, y);
      ok := castle || KingMove(q, x, y);
  }
}
