/**
 * Check and checkmate on the board value: the simulated move and its undoing
 * (moveSelectedPiece, unMovePiece), the king search (findKing), the attack scan
 * of resultsInCheck, the full legality test of a piece's canMove, and the
 * exhaustive search of inCheckMate / hasCheckmateStoppingMove.
 *
 * The original's attack scan asks each enemy piece canMove(..., true, ...),
 * which itself runs resultsInCheck again.  That recursion ends at the third
 * level: the king searched for there has been captured by the simulation, so
 * findKing answers (-1, -1), and the first piece asked normally throws on the
 * off-board index.  Here the scan asks the pseudo-legal Attacks predicate (the
 * base test and the variant's movement rule), so the definitions are not
 * recursive.
 */
module Check {
  import opened Coordinates
  import opened Pieces
  import opened ChessMoves
  import opened Rules

  /**
   * moveSelectedPiece: an empty source changes nothing; otherwise the source
   * square is emptied and the piece, now storing the destination, stands on it.
   */
  function MovePiece(g: Grid, sx: int, sy: int, x: int, y: int): (r: Grid)
    requires InBounds(sx, sy) && InBounds(x, y)
    ensures g[sx][sy].None? ==> r == g
    ensures g[sx][sy].Some? ==> r[x][y] == Some(g[sx][sy].value.(x := x, y := y))
    ensures g[sx][sy].Some? && (sx != x || sy != y) ==> r[sx][sy].None?
    ensures forall i, j {:trigger r[i][j]} :: InBounds(i, j) && (i != sx || j != sy) && (i != x || j != y) ==> r[i][j] == g[i][j]
  {
    match g[sx][sy]
    case None => g
    case Some(p) => Set(Set(g, sx, sy, None), x, y, Some(p.(x := x, y := y)))
  }

  /**
   * unMovePiece: the saved origin occupant goes back to the origin, storing the
   * origin again; if there was one, the saved destination occupant goes back too.
   */
  function UnMove(g: Grid, current: Option<Piece>, moveSquare: Option<Piece>, cx: int, cy: int, mx: int, my: int): (r: Grid)
    requires InBounds(cx, cy) && InBounds(mx, my)
    ensures current.None? ==> r == Set(g, cx, cy, None)
    ensures current.Some? && (cx != mx || cy != my) ==>
              && r[cx][cy] == Some(current.value.(x := cx, y := cy))
              && r[mx][my] == moveSquare
    ensures forall i, j {:trigger r[i][j]} :: InBounds(i, j) && (i != cx || j != cy) && (i != mx || j != my) ==> r[i][j] == g[i][j]
  {
    match current
    case None => Set(g, cx, cy, None)
    case Some(p) => Set(Set(g, cx, cy, Some(p.(x := cx, y := cy))), mx, my, moveSquare)
  }

  /** Moving a piece keeps every piece's stored position equal to its square. */
  lemma MovePiecePositions(g: Grid, sx: int, sy: int, x: int, y: int)
    requires InBounds(sx, sy) && InBounds(x, y) && PositionsAgree(g)
    ensures PositionsAgree(MovePiece(g, sx, sy, x, y))
  {
  }

  /**
   * The simulate-and-revert of resultsInCheck: moving a piece and undoing the
   * move with the two saved occupants gives back exactly the board before.
   */
  lemma SimulateThenRestore(g: Grid, cx: int, cy: int, mx: int, my: int)
    requires InBounds(cx, cy) && InBounds(mx, my) && (cx != mx || cy != my)
    requires PositionsAgree(g)
    ensures UnMove(MovePiece(g, cx, cy, mx, my), g[cx][cy], g[mx][my], cx, cy, mx, my) == g
  {
    var r := UnMove(MovePiece(g, cx, cy, mx, my), g[cx][cy], g[mx][my], cx, cy, mx, my);
    GridsEqual(r, g);
  }

  /** The cell holds a king of the team. */
  predicate IsKingOf(c: Option<Piece>, team: Team)
  {
    c.Some? && c.value.kind == King && c.value.team == team
  }

  /** Square (a, b) comes before square (i, j) in the file-major scan order of the nested loops. */
  predicate Before(a: int, b: int, i: int, j: int)
  {
    a < i || (a == i && b < j)
  }

  /**
   * The king search of findKing from square (i, j) on: the first king of the team
   * in scan order, or the sentinel (-1, -1) when there is none.
   */
  function FindKingFrom(g: Grid, team: Team, i: int, j: int): (r: (int, int))
    requires 0 <= i <= 8 && 0 <= j <= 8
    ensures r != (-1, -1) ==> InBounds(r.0, r.1) && IsKingOf(g[r.0][r.1], team) && !Before(r.0, r.1, i, j)
    ensures forall a, b {:trigger IsKingOf(g[a][b], team)} :: InBounds(a, b) && !Before(a, b, i, j) && (r == (-1, -1) || Before(a, b, r.0, r.1)) ==>
              !IsKingOf(g[a][b], team)
    decreases 8 - i, 8 - j
  {
    if i == 8 then (-1, -1)
    else if j == 8 then FindKingFrom(g, team, i + 1, 0)
    else if IsKingOf(g[i][j], team) then (i, j)
    else FindKingFrom(g, team, i, j + 1)
  }

  /** findKing: the team's first king in scan order; (-1, -1) exactly when the team has no king. */
  function FindKing(g: Grid, team: Team): (r: (int, int))
    ensures r == (-1, -1) <==> forall a, b {:trigger IsKingOf(g[a][b], team)} :: InBounds(a, b) ==> !IsKingOf(g[a][b], team)
    ensures r != (-1, -1) ==> InBounds(r.0, r.1) && IsKingOf(g[r.0][r.1], team)
    ensures forall a, b {:trigger IsKingOf(g[a][b], team)} :: InBounds(a, b) && r != (-1, -1) && Before(a, b, r.0, r.1) ==> !IsKingOf(g[a][b], team)
  {
    FindKingFrom(g, team, 0, 0)
  }

  /** Some piece of the other team attacks the square findKing reports for the team. */
  ghost predicate KingAttacked(g: Grid, lm: Move, team: Team)
  {
    var k := FindKing(g, team);
    exists i, j {:trigger Attacks(g, lm, g[i][j].value, k.0, k.1)} ::
      InBounds(i, j) && g[i][j].Some? && g[i][j].value.team != team && Attacks(g, lm, g[i][j].value, k.0, k.1)
  }

  /**
   * resultsInCheck: the team's king is attacked once the piece on (cx, cy) has
   * moved to (mx, my); when the two squares coincide the move counts as made
   * and the board is scanned as it is.
   */
  ghost predicate InCheckAfter(g: Grid, lm: Move, cx: int, cy: int, mx: int, my: int, team: Team)
    requires InBounds(cx, cy) && InBounds(mx, my)
  {
    KingAttacked(if cx == mx && cy == my then g else MovePiece(g, cx, cy, mx, my), lm, team)
  }

  /**
   * validCastle: the board conditions of castling hold, and the square the king
   * crosses first is not attacked once the king stands on it.
   */
  ghost predicate CastleValid(g: Grid, lm: Move, k: Piece, x: int, y: int)
    requires InBounds(k.x, k.y) && InBounds(x, y)
  {
    CastleRook(g, k, x, y).Some? && !InCheckAfter(g, lm, k.x, k.y, k.x + Sign(x - k.x), y, k.team)
  }

  /** A pawn move onto its last rank that is real, not simulated, needs a promotion prompt to answer. */
  predicate PromotionBlocked(p: Piece, y: int, simulated: bool, hasInteractor: bool)
  {
    p.kind == Pawn && y == LastRank(p.team) && !simulated && !hasInteractor
  }

  /**
   * canMove of every variant: the base test, the variant's movement rule (for a
   * king, castling or a king step), the move does not leave the mover's own king
   * attacked, and a pawn's real move onto the last rank has a prompt to ask.
   */
  ghost predicate CanMoveSpec(g: Grid, lm: Move, p: Piece, x: int, y: int, simulated: bool, hasInteractor: bool)
    requires InBounds(p.x, p.y) && InBounds(x, y)
  {
    && ValidBaseMove(g, p, x, y)
    && (if p.kind == King then CastleValid(g, lm, p, x, y) || KingMove(p, x, y) else Geometry(g, lm, p, x, y))
    && !InCheckAfter(g, lm, p.x, p.y, x, y, p.team)
    && !PromotionBlocked(p, y, simulated, hasInteractor)
  }

  /** The condition hasCheckmateStoppingMove tests on each square: a simulated legal move that leaves the player's king safe. */
  ghost predicate StoppingMove(g: Grid, lm: Move, p: Piece, player: Team, x: int, y: int)
    requires InBounds(p.x, p.y) && InBounds(x, y)
  {
    CanMoveSpec(g, lm, p, x, y, true, false) && !InCheckAfter(g, lm, p.x, p.y, x, y, player)
  }

  /** hasCheckmateStoppingMove: some square of the board is a stopping move for the piece. */
  ghost predicate HasStoppingMove(g: Grid, lm: Move, p: Piece, player: Team)
  {
    InBounds(p.x, p.y) && exists x, y {:trigger StoppingMove(g, lm, p, player, x, y)} :: InBounds(x, y) && StoppingMove(g, lm, p, player, x, y)
  }

  /** The piece has some square its simulated canMove accepts (and so clears its team's check flag). */
  ghost predicate Movable(g: Grid, lm: Move, p: Piece)
  {
    InBounds(p.x, p.y) && exists x, y {:trigger CanMoveSpec(g, lm, p, x, y, true, false)} :: InBounds(x, y) && CanMoveSpec(g, lm, p, x, y, true, false)
  }

  /** inCheckMate: no piece of the player, on its own square, has a stopping move. */
  ghost predicate CheckMate(g: Grid, lm: Move, player: Team)
  {
    forall i, j {:trigger HasStoppingMove(g, lm, g[i][j].value, player)} ::
      InBounds(i, j) && g[i][j].Some? && g[i][j].value.team == player ==>
      !HasStoppingMove(g, lm, g[i][j].value, player)
  }

  /** Some piece of the player, on its own square, has a square its simulated canMove accepts. */
  ghost predicate AnyMovable(g: Grid, lm: Move, player: Team)
  {
    exists i, j {:trigger Movable(g, lm, g[i][j].value)} ::
      InBounds(i, j) && g[i][j].Some? && g[i][j].value.team == player && Movable(g, lm, g[i][j].value)
  }

  /** A king of the team with no king of the team before it in scan order is what findKing reports. */
  lemma FirstKing(g: Grid, team: Team, i: int, j: int)
    requires InBounds(i, j) && IsKingOf(g[i][j], team)
    requires forall a, b {:trigger IsKingOf(g[a][b], team)} :: InBounds(a, b) && Before(a, b, i, j) ==> !IsKingOf(g[a][b], team)
    ensures FindKing(g, team) == (i, j)
  {
    var r := FindKing(g, team);
    assert r != (-1, -1);
    assert !Before(r.0, r.1, i, j);
    assert !Before(i, j, r.0, r.1);
  }

  /** A team without a king is never reported attacked: the sentinel (-1, -1) is off the board. */
  lemma NoKingNoCheck(g: Grid, lm: Move, team: Team)
    requires forall a, b {:trigger IsKingOf(g[a][b], team)} :: InBounds(a, b) ==> !IsKingOf(g[a][b], team)
    ensures !KingAttacked(g, lm, team)
  {
    assert FindKing(g, team) == (-1, -1);
  }

  /**
   * The check test handleMovePiece runs after the move: the origin is already
   * empty (or is the destination), so the simulation changes nothing and the
   * test is the attack scan of the board as it stands.
   */
  lemma PostMoveScan(g: Grid, lm: Move, cx: int, cy: int, mx: int, my: int, team: Team)
    requires InBounds(cx, cy) && InBounds(mx, my)
    requires (cx == mx && cy == my) || g[cx][cy].None?
    ensures InCheckAfter(g, lm, cx, cy, mx, my, team) == KingAttacked(g, lm, team)
  {
  }

  /** For the player's own piece, the extra check test of hasCheckmateStoppingMove repeats canMove's own. */
  lemma StoppingMoveIsLegalMove(g: Grid, lm: Move, p: Piece, x: int, y: int)
    requires InBounds(p.x, p.y) && InBounds(x, y)
    ensures StoppingMove(g, lm, p, p.team, x, y) <==> CanMoveSpec(g, lm, p, x, y, true, false)
  {
  }

  /** A simulated canMove ignores whether a promotion prompt exists. */
  lemma SimulatedIgnoresInteractor(g: Grid, lm: Move, p: Piece, x: int, y: int)
    requires InBounds(p.x, p.y) && InBounds(x, y)
    ensures CanMoveSpec(g, lm, p, x, y, true, true) == CanMoveSpec(g, lm, p, x, y, true, false)
  {
  }

  /**
   * inCheckMate in the terms of article 5.1.1 of the FIDE Laws of Chess: the
   * player is mated exactly when no piece of theirs has a legal move (one that
   * does not leave their king attacked).
   */
  lemma CheckMateIffNoLegalMove(g: Grid, lm: Move, player: Team)
    ensures CheckMate(g, lm, player) <==> !AnyMovable(g, lm, player)
  {
    if !CheckMate(g, lm, player) {
      var i, j :| InBounds(i, j) && g[i][j].Some? && g[i][j].value.team == player &&
                  HasStoppingMove(g, lm, g[i][j].value, player);
      var p := g[i][j].value;
      var x, y :| InBounds(x, y) && StoppingMove(g, lm, p, player, x, y);
      assert Movable(g, lm, p);
    }
    if AnyMovable(g, lm, player) {
      var i, j :| InBounds(i, j) && g[i][j].Some? && g[i][j].value.team == player && Movable(g, lm, g[i][j].value);
      var p := g[i][j].value;
      var x, y :| InBounds(x, y) && CanMoveSpec(g, lm, p, x, y, true, false);
      StoppingMoveIsLegalMove(g, lm, p, x, y);
      assert HasStoppingMove(g, lm, p, player);
    }
  }

  /** No enemy piece standing before (i, j) in scan order attacks (kx, ky). */
  ghost predicate NoAttackerBefore(g: Grid, lm: Move, team: Team, kx: int, ky: int, i: int, j: int)
  {
    forall a, b {:trigger Attacks(g, lm, g[a][b].value, kx, ky)} ::
      InBounds(a, b) && Before(a, b, i, j) && g[a][b].Some? && g[a][b].value.team != team ==>
      !Attacks(g, lm, g[a][b].value, kx, ky)
  }

  /** The scan passes a square whose occupant, if an enemy, does not attack. */
  lemma ScanStep(g: Grid, lm: Move, team: Team, kx: int, ky: int, i: int, j: int)
    requires InBounds(i, j) && NoAttackerBefore(g, lm, team, kx, ky, i, j)
    requires g[i][j].None? || g[i][j].value.team == team || !Attacks(g, lm, g[i][j].value, kx, ky)
    ensures NoAttackerBefore(g, lm, team, kx, ky, i, j + 1)
  {
  }

  /** Finishing a file of the scan is starting the next one. */
  lemma ScanNextFile(g: Grid, lm: Move, team: Team, kx: int, ky: int, i: int)
    requires NoAttackerBefore(g, lm, team, kx, ky, i, 8)
    ensures NoAttackerBefore(g, lm, team, kx, ky, i + 1, 0)
  {
  }

  /** A scan of the whole board that finds no attacker of findKing's square means the king is not attacked. */
  lemma ScanComplete(g: Grid, lm: Move, team: Team)
    requires var k := FindKing(g, team); NoAttackerBefore(g, lm, team, k.0, k.1, 8, 0)
    ensures !KingAttacked(g, lm, team)
  {
  }

  // ---------------------------------------------------------------------------
  // The two nested scans of inCheckMate and hasCheckmateStoppingMove, square by square.
  // ---------------------------------------------------------------------------

  /** No square before (i, j) in scan order is a stopping move for p. */
  ghost predicate NoStopBefore(g: Grid, lm: Move, p: Piece, player: Team, i: int, j: int)
    requires InBounds(p.x, p.y)
  {
    forall a, b {:trigger StoppingMove(g, lm, p, player, a, b)} ::
      InBounds(a, b) && Before(a, b, i, j) ==> !StoppingMove(g, lm, p, player, a, b)
  }

  /** Some square before (i, j) in scan order is accepted by p's simulated canMove. */
  ghost predicate MovableBefore(g: Grid, lm: Move, p: Piece, i: int, j: int)
    requires InBounds(p.x, p.y)
  {
    exists a, b {:trigger CanMoveSpec(g, lm, p, a, b, true, false)} ::
      InBounds(a, b) && Before(a, b, i, j) && CanMoveSpec(g, lm, p, a, b, true, false)
  }

  /** Passing square (i, j) of the per-piece scan. */
  lemma StopScanStep(g: Grid, lm: Move, p: Piece, player: Team, i: int, j: int)
    requires InBounds(p.x, p.y) && InBounds(i, j)
    ensures NoStopBefore(g, lm, p, player, i, j + 1) == (NoStopBefore(g, lm, p, player, i, j) && !StoppingMove(g, lm, p, player, i, j))
    ensures MovableBefore(g, lm, p, i, j + 1) == (MovableBefore(g, lm, p, i, j) || CanMoveSpec(g, lm, p, i, j, true, false))
  {
  }

  /** Finishing file i of the per-piece scan is starting file i + 1. */
  lemma StopScanNextFile(g: Grid, lm: Move, p: Piece, player: Team, i: int)
    requires InBounds(p.x, p.y)
    ensures NoStopBefore(g, lm, p, player, i, 8) == NoStopBefore(g, lm, p, player, i + 1, 0)
    ensures MovableBefore(g, lm, p, i, 8) == MovableBefore(g, lm, p, i + 1, 0)
  {
  }

  /** The per-piece scan, from its start to its end. */
  lemma StopScanBounds(g: Grid, lm: Move, p: Piece, player: Team)
    requires InBounds(p.x, p.y)
    ensures NoStopBefore(g, lm, p, player, 0, 0) && !MovableBefore(g, lm, p, 0, 0)
    ensures NoStopBefore(g, lm, p, player, 8, 0) == !HasStoppingMove(g, lm, p, player)
    ensures MovableBefore(g, lm, p, 8, 0) == Movable(g, lm, p)
  {
  }

  /** A stopping move found on (x, y) answers the piece's scan, and the piece can move. */
  lemma StopFound(g: Grid, lm: Move, p: Piece, player: Team, x: int, y: int)
    requires InBounds(p.x, p.y) && InBounds(x, y) && StoppingMove(g, lm, p, player, x, y)
    ensures HasStoppingMove(g, lm, p, player) && Movable(g, lm, p)
  {
  }

  /** No piece of the player before (i, j) in scan order has a stopping move. */
  ghost predicate NoStopperBefore(g: Grid, lm: Move, player: Team, i: int, j: int)
  {
    forall a, b {:trigger HasStoppingMove(g, lm, g[a][b].value, player)} ::
      InBounds(a, b) && Before(a, b, i, j) && g[a][b].Some? && g[a][b].value.team == player ==>
      !HasStoppingMove(g, lm, g[a][b].value, player)
  }

  /** Some piece of the player before (i, j) in scan order can move. */
  ghost predicate MovableOwnBefore(g: Grid, lm: Move, player: Team, i: int, j: int)
  {
    exists a, b {:trigger Movable(g, lm, g[a][b].value)} ::
      InBounds(a, b) && Before(a, b, i, j) && g[a][b].Some? && g[a][b].value.team == player &&
      Movable(g, lm, g[a][b].value)
  }

  /** Passing square (i, j) of the board scan. */
  lemma MateScanStep(g: Grid, lm: Move, player: Team, i: int, j: int)
    requires InBounds(i, j)
    ensures var own := g[i][j].Some? && g[i][j].value.team == player;
            && NoStopperBefore(g, lm, player, i, j + 1) ==
               (NoStopperBefore(g, lm, player, i, j) && !(own && HasStoppingMove(g, lm, g[i][j].value, player)))
            && MovableOwnBefore(g, lm, player, i, j + 1) ==
               (MovableOwnBefore(g, lm, player, i, j) || (own && Movable(g, lm, g[i][j].value)))
  {
  }

  /** Finishing file i of the board scan is starting file i + 1. */
  lemma MateScanNextFile(g: Grid, lm: Move, player: Team, i: int)
    ensures NoStopperBefore(g, lm, player, i, 8) == NoStopperBefore(g, lm, player, i + 1, 0)
    ensures MovableOwnBefore(g, lm, player, i, 8) == MovableOwnBefore(g, lm, player, i + 1, 0)
  {
  }

  /** The board scan, from its start to its end. */
  lemma MateScanBounds(g: Grid, lm: Move, player: Team)
    ensures NoStopperBefore(g, lm, player, 0, 0) && !MovableOwnBefore(g, lm, player, 0, 0)
    ensures NoStopperBefore(g, lm, player, 8, 0) == CheckMate(g, lm, player)
    ensures MovableOwnBefore(g, lm, player, 8, 0) == AnyMovable(g, lm, player)
  {
  }

  /** A piece of the player with a stopping move refutes the mate, and that piece can move. */
  lemma StopperFound(g: Grid, lm: Move, player: Team, i: int, j: int)
    requires InBounds(i, j) && g[i][j].Some? && g[i][j].value.team == player
    requires HasStoppingMove(g, lm, g[i][j].value, player)
    ensures !CheckMate(g, lm, player) && AnyMovable(g, lm, player)
  {
    var p := g[i][j].value;
    var x, y :| InBounds(x, y) && StoppingMove(g, lm, p, player, x, y);
    StopFound(g, lm, p, player, x, y);
  }
}
