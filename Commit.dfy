/**
 * The game state the ChessGame fields make up, and the two committing
 * operations as functions of it: handleMovePiece (move, record, flip the turn,
 * flag check and checkmate) and tryMove (legality, then the move with its
 * castling rook and en passant capture).
 */
module Commit {
  import opened Coordinates
  import opened Pieces
  import opened ChessMoves
  import opened Rules
  import opened Check

  datatype State = State(grid: Grid, currentPlayer: Team, lastMove: Move,
                         whiteInCheck: bool, blackInCheck: bool, gameRunning: bool)
  {
    /** The check flag of the team. */
    function InCheck(t: Team): bool
    {
      if t == White then whiteInCheck else blackInCheck
    }

    /** The state with the team's check flag set to v. */
    function WithCheck(t: Team, v: bool): (s: State)
      ensures s.InCheck(t) == v && s.InCheck(Opponent(t)) == InCheck(Opponent(t))
      ensures s.grid == grid && s.currentPlayer == currentPlayer && s.lastMove == lastMove && s.gameRunning == gameRunning
    {
      if t == White then this.(whiteInCheck := v) else this.(blackInCheck := v)
    }
  }

  /** The piece of the last move stands where that move took it. */
  predicate LastMoveAgrees(m: Move)
  {
    m.piece.Some? ==> InBounds(m.moveToX, m.moveToY) && m.piece.value.x == m.moveToX && m.piece.value.y == m.moveToY
  }

  /** The invariant of the game state: stored positions agree with squares, and so does the last move's piece. */
  ghost predicate ValidState(s: State)
  {
    PositionsAgree(s.grid) && LastMoveAgrees(s.lastMove)
  }

  /**
   * The state once a move has been made: the board g and last move lm given,
   * the turn passed to the opponent, whose flag is raised when their king is
   * attacked; a mate (which is only asked about when there is check) stops the game.
   */
  function PassTurn(s: State, g: Grid, lm: Move, attacked: bool, mate: bool): (r: State)
    ensures r.grid == g && r.lastMove == lm && r.currentPlayer == Opponent(s.currentPlayer)
    ensures r.InCheck(Opponent(s.currentPlayer)) == (s.InCheck(Opponent(s.currentPlayer)) || attacked)
    ensures r.InCheck(s.currentPlayer) == s.InCheck(s.currentPlayer)
    ensures r.gameRunning == (s.gameRunning && !(attacked && mate))
  {
    var opp := Opponent(s.currentPlayer);
    State(g, opp, lm, s.whiteInCheck || (opp == White && attacked), s.blackInCheck || (opp == Black && attacked),
          s.gameRunning && !(attacked && mate))
  }

  /**
   * handleMovePiece: nothing happens from an empty square.  Otherwise the piece
   * moves, becomes the last move, the turn passes, and if the opponent's king is
   * now attacked the opponent's check flag is set and, when the opponent is also
   * mated, the game stops.  The mover's team is returned.
   */
  ghost function Handle(s: State, sx: int, sy: int, mx: int, my: int): (r: (State, Option<Team>))
    requires InBounds(sx, sy) && InBounds(mx, my)
  {
    match s.grid[sx][sy]
    case None => (s, None)
    case Some(piece) =>
      var g := MovePiece(s.grid, sx, sy, mx, my);
      var lm := Move(Some(piece.(x := mx, y := my)), sx, sy, mx, my);
      var opp := Opponent(s.currentPlayer);
      (PassTurn(s, g, lm, KingAttacked(g, lm, opp), CheckMate(g, lm, opp)), Some(s.currentPlayer))
  }

  /** The occupant of (x, y), if any, has made its first move. */
  function MarkMoved(g: Grid, x: int, y: int): (r: Grid)
    requires InBounds(x, y)
  {
    match g[x][y]
    case None => g
    case Some(p) => Set(g, x, y, Some(p.(firstMove := false)))
  }

  /** The same flag on the last move's piece, which is the same piece object as the mover. */
  function MarkLastMove(m: Move): Move
  {
    match m.piece
    case None => m
    case Some(p) => m.(piece := Some(p.(firstMove := false)))
  }

  /** potentialValidCastle as a value: the rook files of a valid castle by p, or None. */
  ghost function CastleOf(s: State, p: Piece, mx: int, my: int): (c: Option<(int, int)>)
    requires InBounds(p.x, p.y) && InBounds(mx, my)
    ensures c.Some? ==> c == CastleRook(s.grid, p, mx, my) && InBounds(c.value.0, p.y) && InBounds(c.value.1, p.y)
  {
    if p.kind == King && CastleValid(s.grid, s.lastMove, p, mx, my) then CastleRook(s.grid, p, mx, my) else None
  }

  /** potentialValidEnPessant as a value. */
  function EnPassantOf(s: State, p: Piece, mx: int, my: int): (r: (bool, Option<Piece>))
    ensures r.0 ==> p.kind == Pawn && r.1 == s.lastMove.piece
    ensures p.kind == Pawn ==> r == ValidEnPassant(p, s.lastMove, mx, my)
  {
    if p.kind == Pawn then ValidEnPassant(p, s.lastMove, mx, my) else (false, None)
  }

  /** The castling rook's move on rank y0, handled as a second move by the mover; nothing without a castle. */
  ghost function CastleStep(s: State, mover: Team, y0: int, castle: Option<(int, int)>): State
    requires castle.Some? ==> InBounds(castle.value.0, y0) && InBounds(castle.value.1, y0)
  {
    if castle.Some? then Handle(s.(currentPlayer := mover), castle.value.0, y0, castle.value.1, y0).0 else s
  }

  /**
   * The rest of tryMove once the move itself is handled: the mover (now on
   * (mx, my)) is marked as moved, a castling rook on rank y0 is handled as a
   * second move by the same player, and an en passant victim is removed.
   */
  ghost function Completion(s1: State, mover: Team, mx: int, my: int, y0: int,
                            castle: Option<(int, int)>, ep: (bool, Option<Piece>)): State
    requires InBounds(mx, my)
    requires castle.Some? ==> InBounds(castle.value.0, y0) && InBounds(castle.value.1, y0)
    requires ep.0 && ep.1.Some? ==> InBounds(ep.1.value.x, ep.1.value.y)
  {
    var s2 := s1.(grid := MarkMoved(s1.grid, mx, my), lastMove := MarkLastMove(s1.lastMove));
    var s3 := CastleStep(s2, mover, y0, castle);
    if ep.0 && ep.1.Some? then s3.(grid := Set(s3.grid, ep.1.value.x, ep.1.value.y, None)) else s3
  }

  /**
   * The accepted move of tryMove: the castling and en passant answers are taken
   * first, then the move is handled and completed by the player to move.
   */
  ghost function Committed(s: State, p: Piece, mx: int, my: int): (r: (State, Option<Team>))
    requires ValidState(s) && InBounds(p.x, p.y) && InBounds(mx, my)
  {
    var castle := CastleOf(s, p, mx, my);
    var ep := EnPassantOf(s, p, mx, my);
    var (s1, player) := Handle(s, p.x, p.y, mx, my);
    (Completion(s1, s.currentPlayer, mx, my, p.y, castle, ep), player)
  }

  /**
   * tryMove of the piece p (the occupant of its own square): refused, with
   * nothing changed, unless canMove accepts; otherwise the check flag of p's
   * team is cleared and the move is committed.
   */
  ghost function TryMoveSpec(s: State, p: Piece, mx: int, my: int, hasInteractor: bool): (r: (State, bool, Option<Team>))
    requires ValidState(s) && InBounds(p.x, p.y) && InBounds(mx, my) && s.grid[p.x][p.y] == Some(p)
  {
    if !CanMoveSpec(s.grid, s.lastMove, p, mx, my, false, hasInteractor) then (s, false, None)
    else
      var (s', player) := Committed(s.WithCheck(p.team, false), p, mx, my);
      (s', true, player)
  }
}

module CommitFacts {
  import opened Coordinates
  import opened Pieces
  import opened ChessMoves
  import opened Rules
  import opened Check
  import opened Commit

  /**
   * handleMovePiece from an empty square changes nothing and returns no player;
   * otherwise the board is the moved board, the last move is exactly (piece,
   * from, to), the turn passes, only the opponent's flag can rise (exactly when
   * their king is attacked) and the game stops only on check with mate.
   */
  lemma HandleEffects(s: State, sx: int, sy: int, mx: int, my: int)
    requires InBounds(sx, sy) && InBounds(mx, my)
    ensures s.grid[sx][sy].None? ==> Handle(s, sx, sy, mx, my) == (s, None)
    ensures s.grid[sx][sy].Some? ==>
              var (r, player) := Handle(s, sx, sy, mx, my);
              var opp := Opponent(s.currentPlayer);
              var attacked := KingAttacked(r.grid, r.lastMove, opp);
              && player == Some(s.currentPlayer)
              && r.grid == MovePiece(s.grid, sx, sy, mx, my)
              && r.lastMove == Move(Some(s.grid[sx][sy].value.(x := mx, y := my)), sx, sy, mx, my)
              && r.currentPlayer == opp
              && r.InCheck(opp) == (s.InCheck(opp) || attacked)
              && r.InCheck(s.currentPlayer) == s.InCheck(s.currentPlayer)
              && r.gameRunning == (s.gameRunning && !(attacked && CheckMate(r.grid, r.lastMove, opp)))
  {
  }

  /** handleMovePiece keeps the state invariant: positions agree with squares, and the last move's piece stands where it went. */
  lemma HandlePreservesValid(s: State, sx: int, sy: int, mx: int, my: int)
    requires ValidState(s) && InBounds(sx, sy) && InBounds(mx, my)
    ensures ValidState(Handle(s, sx, sy, mx, my).0)
  {
    if s.grid[sx][sy].Some? {
      MovePiecePositions(s.grid, sx, sy, mx, my);
    }
  }

  /** tryMove of a move canMove refuses: nothing changes, failure, no player. */
  lemma TryMoveRefused(s: State, p: Piece, mx: int, my: int, hasInteractor: bool)
    requires ValidState(s) && InBounds(p.x, p.y) && InBounds(mx, my) && s.grid[p.x][p.y] == Some(p)
    requires !CanMoveSpec(s.grid, s.lastMove, p, mx, my, false, hasInteractor)
    ensures TryMoveSpec(s, p, mx, my, hasInteractor) == (s, false, None)
  {
  }

  /** After the king's own move the castling rook's square is still occupied, so the rook's move really happens. */
  lemma CastleRookStillThere(s: State, p: Piece, mx: int, my: int)
    requires ValidState(s) && InBounds(p.x, p.y) && InBounds(mx, my) && s.grid[p.x][p.y] == Some(p)
    requires CastleOf(s, p, mx, my).Some?
    ensures var rx := CastleOf(s, p, mx, my).value.0;
            MarkMoved(MovePiece(s.grid, p.x, p.y, mx, my), mx, my)[rx][p.y].Some?
  {
    var rx := CastleOf(s, p, mx, my).value.0;
    assert s.grid[rx][p.y].value.kind == Rook;
    assert rx != p.x;
  }

  /**
   * The completion of a move passes the turn on from the mover once more exactly
   * when a castling rook is moved (its square being occupied), and keeps the
   * mover's check flag.
   */
  lemma CompletionTurn(s1: State, mover: Team, mx: int, my: int, y0: int,
                       castle: Option<(int, int)>, ep: (bool, Option<Piece>))
    requires InBounds(mx, my)
    requires castle.Some? ==> InBounds(castle.value.0, y0) && InBounds(castle.value.1, y0)
    requires ep.0 && ep.1.Some? ==> InBounds(ep.1.value.x, ep.1.value.y)
    requires castle.Some? ==> MarkMoved(s1.grid, mx, my)[castle.value.0][y0].Some?
    ensures var r := Completion(s1, mover, mx, my, y0, castle, ep);
            && r.currentPlayer == (if castle.Some? then Opponent(mover) else s1.currentPlayer)
            && r.InCheck(mover) == s1.InCheck(mover)
  {
    var s2 := s1.(grid := MarkMoved(s1.grid, mx, my), lastMove := MarkLastMove(s1.lastMove));
    if castle.Some? {
      HandleEffects(s2.(currentPlayer := mover), castle.value.0, y0, castle.value.1, y0);
    }
  }

  /**
   * A successful tryMove returns the mover's team and leaves the turn with the
   * opponent: passed once by the move, and after a castle passed back to the
   * mover for the rook's move and passed again.  When the mover is the player to
   * move, its check flag ends cleared.
   */
  lemma TryMoveTurnPassesOnce(s: State, p: Piece, mx: int, my: int, hasInteractor: bool)
    requires ValidState(s) && InBounds(p.x, p.y) && InBounds(mx, my) && s.grid[p.x][p.y] == Some(p)
    requires CanMoveSpec(s.grid, s.lastMove, p, mx, my, false, hasInteractor)
    ensures var r := TryMoveSpec(s, p, mx, my, hasInteractor);
            && r.1 && r.2 == Some(s.currentPlayer)
            && r.0.currentPlayer == Opponent(s.currentPlayer)
            && (p.team == s.currentPlayer ==> !r.0.InCheck(p.team))
  {
    var s0 := s.WithCheck(p.team, false);
    var castle := CastleOf(s0, p, mx, my);
    var ep := EnPassantOf(s0, p, mx, my);
    HandleEffects(s0, p.x, p.y, mx, my);
    var s1 := Handle(s0, p.x, p.y, mx, my).0;
    if castle.Some? {
      CastleRookStillThere(s0, p, mx, my);
    }
    CompletionTurn(s1, s.currentPlayer, mx, my, p.y, castle, ep);
  }

  /** The board after a completed move: the mover marked, the castling rook moved, the en passant victim removed. */
  lemma CompletionGrid(s1: State, mover: Team, mx: int, my: int, y0: int,
                       castle: Option<(int, int)>, ep: (bool, Option<Piece>))
    requires InBounds(mx, my)
    requires castle.Some? ==> InBounds(castle.value.0, y0) && InBounds(castle.value.1, y0)
    requires ep.0 && ep.1.Some? ==> InBounds(ep.1.value.x, ep.1.value.y)
    ensures var g2 := MarkMoved(s1.grid, mx, my);
            var g3 := if castle.Some? then MovePiece(g2, castle.value.0, y0, castle.value.1, y0) else g2;
            Completion(s1, mover, mx, my, y0, castle, ep).grid ==
              if ep.0 && ep.1.Some? then Set(g3, ep.1.value.x, ep.1.value.y, None) else g3
  {
    var s2 := s1.(grid := MarkMoved(s1.grid, mx, my), lastMove := MarkLastMove(s1.lastMove));
    if castle.Some? {
      HandleEffects(s2.(currentPlayer := mover), castle.value.0, y0, castle.value.1, y0);
    }
  }

  /**
   * A successful tryMove that is neither a castle nor an en passant capture:
   * the piece moves, is marked as moved, and is the last move.
   */
  lemma TryMoveOrdinary(s: State, p: Piece, mx: int, my: int, hasInteractor: bool)
    requires ValidState(s) && InBounds(p.x, p.y) && InBounds(mx, my) && s.grid[p.x][p.y] == Some(p)
    requires CanMoveSpec(s.grid, s.lastMove, p, mx, my, false, hasInteractor)
    requires CastleOf(s, p, mx, my).None? && !EnPassantOf(s, p, mx, my).0
    ensures var r := TryMoveSpec(s, p, mx, my, hasInteractor).0;
            var moved := p.(x := mx, y := my, firstMove := false);
            && r.grid == Set(MovePiece(s.grid, p.x, p.y, mx, my), mx, my, Some(moved))
            && r.grid[mx][my] == Some(moved)
            && r.lastMove == Move(Some(moved), p.x, p.y, mx, my)
  {
    var s0 := s.WithCheck(p.team, false);
    HandleEffects(s0, p.x, p.y, mx, my);
    var s1 := Handle(s0, p.x, p.y, mx, my).0;
    CompletionGrid(s1, s.currentPlayer, mx, my, p.y, None, EnPassantOf(s0, p, mx, my));
  }

  /**
   * A successful en passant capture: the captured pawn is the last move's piece,
   * standing beside the pawn's origin on the destination file; its square is
   * emptied and the capturing pawn stands, marked as moved, on the destination.
   */
  lemma TryMoveEnPassant(s: State, p: Piece, mx: int, my: int, hasInteractor: bool)
    requires ValidState(s) && InBounds(p.x, p.y) && InBounds(mx, my) && s.grid[p.x][p.y] == Some(p)
    requires CanMoveSpec(s.grid, s.lastMove, p, mx, my, false, hasInteractor)
    requires EnPassantOf(s, p, mx, my).0
    ensures s.lastMove.piece.Some?
    ensures var v := s.lastMove.piece.value;
            var r := TryMoveSpec(s, p, mx, my, hasInteractor).0;
            var moved := p.(x := mx, y := my, firstMove := false);
            && v.x == mx && v.y == my - Direction(p.team)
            && r.grid == Set(Set(MovePiece(s.grid, p.x, p.y, mx, my), mx, my, Some(moved)), v.x, v.y, None)
            && r.grid[v.x][v.y].None? && r.grid[p.x][p.y].None? && r.grid[mx][my] == Some(moved)
  {
    var s0 := s.WithCheck(p.team, false);
    HandleEffects(s0, p.x, p.y, mx, my);
    var s1 := Handle(s0, p.x, p.y, mx, my).0;
    CompletionGrid(s1, s.currentPlayer, mx, my, p.y, None, EnPassantOf(s0, p, mx, my));
  }

  /**
   * The castling squares on one rank: the king moves from kx to mx and is marked
   * as moved, then the rook moves from rx to nrx; four distinct files.
   */
  lemma CastleBoard(g: Grid, k: Piece, mx: int, rx: int, nrx: int)
    requires InBounds(k.x, k.y) && InBounds(mx, k.y) && InBounds(rx, k.y) && InBounds(nrx, k.y)
    requires g[k.x][k.y] == Some(k) && g[rx][k.y].Some?
    requires k.x != mx && k.x != rx && k.x != nrx && mx != rx && mx != nrx && rx != nrx
    ensures var moved := k.(x := mx, y := k.y, firstMove := false);
            var h := MovePiece(Set(MovePiece(g, k.x, k.y, mx, k.y), mx, k.y, Some(moved)), rx, k.y, nrx, k.y);
            && h[mx][k.y] == Some(moved)
            && h[nrx][k.y] == Some(g[rx][k.y].value.(x := nrx, y := k.y))
            && h[k.x][k.y].None? && h[rx][k.y].None?
            && forall i, j {:trigger h[i][j]} ::
                 InBounds(i, j) && (i, j) != (k.x, k.y) && (i, j) != (mx, k.y) && (i, j) != (rx, k.y) && (i, j) != (nrx, k.y) ==>
                 h[i][j] == g[i][j]
  {
    var moved := k.(x := mx, y := k.y, firstMove := false);
    var g1 := MovePiece(g, k.x, k.y, mx, k.y);
    var g2 := Set(g1, mx, k.y, Some(moved));
    assert g2[rx][k.y] == g[rx][k.y];
  }

  /**
   * A successful castle by a king on its home file: the king stands, marked as
   * moved, on its destination; the rook has gone from its corner to the file
   * beside the king and is the last move; both origins are empty and every other
   * square is as before.
   */
  lemma TryMoveCastle(s: State, p: Piece, mx: int, my: int, hasInteractor: bool)
    requires ValidState(s) && InBounds(p.x, p.y) && InBounds(mx, my) && s.grid[p.x][p.y] == Some(p)
    requires CanMoveSpec(s.grid, s.lastMove, p, mx, my, false, hasInteractor)
    requires CastleOf(s, p, mx, my).Some? && p.x == 4
    ensures var (rx, nrx) := CastleOf(s, p, mx, my).value;
            var rook := s.grid[rx][p.y].value;
            var r := TryMoveSpec(s, p, mx, my, hasInteractor).0;
            && r.grid[mx][my] == Some(p.(x := mx, y := my, firstMove := false))
            && r.grid[nrx][p.y] == Some(rook.(x := nrx, y := p.y))
            && r.grid[p.x][p.y].None? && r.grid[rx][p.y].None?
            && r.lastMove == Move(Some(rook.(x := nrx, y := p.y)), rx, p.y, nrx, p.y)
            && forall i, j {:trigger r.grid[i][j]} ::
                 InBounds(i, j) && (i, j) != (p.x, p.y) && (i, j) != (mx, my) && (i, j) != (rx, p.y) && (i, j) != (nrx, p.y) ==>
                 r.grid[i][j] == s.grid[i][j]
  {
    var s0 := s.WithCheck(p.team, false);
    var castle := CastleOf(s0, p, mx, my);
    var (rx, nrx) := castle.value;
    HandleEffects(s0, p.x, p.y, mx, my);
    var s1 := Handle(s0, p.x, p.y, mx, my).0;
    var g2 := MarkMoved(s1.grid, mx, my);
    assert g2 == Set(s1.grid, mx, p.y, Some(p.(x := mx, y := p.y, firstMove := false)));
    CastleBoard(s.grid, p, mx, rx, nrx);
    var s2 := s1.(grid := g2, lastMove := MarkLastMove(s1.lastMove));
    HandleEffects(s2.(currentPlayer := s.currentPlayer), rx, p.y, nrx, p.y);
    CompletionGrid(s1, s.currentPlayer, mx, my, p.y, castle, EnPassantOf(s0, p, mx, my));
  }
}
