/**
 * The game (class ChessGame): the board array, whose turn it is, the last move,
 * the two check flags and whether the game is running.  Every procedure of the
 * original is a method here that reads and writes the board array in place;
 * each is proved against the value-level rules of Rules, Check and Commit.
 */
module Game {
  import opened Coordinates
  import opened Pieces
  import opened ChessMoves
  import opened Rules
  import opened Check
  import opened Commit
  import Board

  /** What selectPiece reports: the square is off the board, empty, an enemy's, or selected. */
  datatype Selection = OffBoard | EmptySquare | EnemyPiece | Selected

  /** The switch of promotePawn: the variant each accepted answer names. */
  function PromotionKind(choice: string): (k: Option<Kind>)
    ensures k.Some? <==> choice == "queen" || choice == "rook" || choice == "knight" || choice == "bishop"
    ensures k.Some? ==> k.value != Pawn && k.value != King
    ensures k == Some(Queen) <==> choice == "queen"
  {
    if choice == "queen" then Some(Queen)
    else if choice == "rook" then Some(Rook)
    else if choice == "knight" then Some(Knight)
    else if choice == "bishop" then Some(Bishop)
    else None
  }

  class ChessGame {
    var gameRunning: bool
    var currentPlayer: Team
    var lastMove: Move
    var whiteInCheck: bool
    var blackInCheck: bool
    var board: array2<Option<Piece>>
    /** Whether an interactor has been set (the interactor itself is input and output, not modelled). */
    var hasInteractor: bool

    /** The board as a value. */
    function Grid(): Grid
      requires board.Length0 == 8 && board.Length1 == 8
      reads this`board, board
    {
      Snapshot(board)
    }

    /** The check flag of the team. */
    function CheckFlag(t: Team): bool
      reads this
    {
      if t == White then whiteInCheck else blackInCheck
    }

    /** All the fields as one value. */
    function GameState(): State
      requires board.Length0 == 8 && board.Length1 == 8
      reads this, board
    {
      State(Grid(), currentPlayer, lastMove, whiteInCheck, blackInCheck, gameRunning)
    }

    /** The class invariant: an 8x8 board whose pieces, and the last move's piece, agree with their squares. */
    ghost predicate Valid()
      reads this`board, this`lastMove, board
      ensures Valid() ==> board.Length0 == 8 && board.Length1 == 8 && ValidState(GameState())
    {
      board.Length0 == 8 && board.Length1 == 8 && PositionsAgree(Grid()) && LastMoveAgrees(lastMove)
    }

    /** The constructor: a new initialized board, white to move, no last move, no check, not running. */
    constructor ()
      ensures Valid() && fresh(board)
      ensures Grid() == Board.InitialGrid()
      ensures currentPlayer == White && lastMove == NoMove
      ensures !whiteInCheck && !blackInCheck && !gameRunning && !hasInteractor
    {
      gameRunning := false;
      currentPlayer := White;
      lastMove := NoMove;
      whiteInCheck := false;
      blackInCheck := false;
      hasInteractor := false;
      var initial := new Board.ChessBoard();
      board := initial.board;
      Board.InitialPositionsAgree();
    }

    method SetInteractor()
      modifies this`hasInteractor
      ensures hasInteractor
    {
      hasInteractor := true;
    }

    method Start()
      modifies this`gameRunning
      ensures gameRunning
    {
      gameRunning := true;
    }

    /**
     * selectPiece: the square named in chess notation must be on the board and
     * hold a piece of the player; the status is 0 exactly when it does.
     */
    method SelectPiece(letter: char, number: int, player: Team) returns (piece: Option<Piece>, status: int, outcome: Selection)
      requires board.Length0 == 8 && board.Length1 == 8
      ensures var (x, y) := ConvertFromChessNotation(letter, number);
              && (outcome == OffBoard <==> !InBounds(x, y))
              && (outcome == EmptySquare <==> InBounds(x, y) && Grid()[x][y].None?)
              && (outcome == EnemyPiece <==> InBounds(x, y) && Grid()[x][y].Some? && Grid()[x][y].value.team != player)
              && (outcome == Selected <==> InBounds(x, y) && Grid()[x][y].Some? && Grid()[x][y].value.team == player)
              && (outcome == Selected ==> piece == Grid()[x][y])
      ensures piece.Some? <==> outcome == Selected
      ensures status == 0 <==> outcome == Selected
      ensures status == 0 || status == 1
    {
      var (x, y) := ConvertFromChessNotation(letter, number);
      var outsideBoard := x < 0 || x > 7 || y < 0 || y > 7;
      if outsideBoard {
        return None, 1, OffBoard;
      }
      var selectedSquare := board[x, y];
      if selectedSquare.None? {
        return None, 1, EmptySquare;
      }
      if selectedSquare.value.team != player {
        return None, 1, EnemyPiece;
      }
      return selectedSquare, 0, Selected;
    }

    /**
     * moveSelectedPiece: nothing from an empty square; otherwise the piece leaves
     * (sx, sy), replaces whatever stood on (x, y) and records its new position.
     */
    method MoveSelectedPiece(sx: int, sy: int, x: int, y: int) returns (moved: bool)
      requires board.Length0 == 8 && board.Length1 == 8 && InBounds(sx, sy) && InBounds(x, y)
      modifies board
      ensures moved == old(Grid()[sx][sy]).Some?
      ensures Grid() == MovePiece(old(Grid()), sx, sy, x, y)
    {
      var piece := board[sx, sy];
      if piece.None? {
        return false;
      }
      ghost var g := Grid();
      SetCell(board, sx, sy, None);
      SetCell(board, x, y, Some(piece.value.(x := x, y := y)));
      GridsEqual(Grid(), MovePiece(g, sx, sy, x, y));
      return true;
    }

    /**
     * unMovePiece: the moved piece goes back to (cx, cy) with its position reset
     * and the captured occupant (or emptiness) returns to (mx, my); with no piece
     * to restore, (cx, cy) is just emptied.
     */
    method UnMovePiece(current: Option<Piece>, moveSquare: Option<Piece>, cx: int, cy: int, mx: int, my: int) returns (restored: bool)
      requires board.Length0 == 8 && board.Length1 == 8 && InBounds(cx, cy) && InBounds(mx, my)
      modifies board
      ensures restored == current.Some?
      ensures Grid() == UnMove(old(Grid()), current, moveSquare, cx, cy, mx, my)
    {
      if current.None? {
        SetCell(board, cx, cy, None);
        return false;
      }
      ghost var g := Grid();
      SetCell(board, cx, cy, Some(current.value.(x := cx, y := cy)));
      SetCell(board, mx, my, moveSquare);
      GridsEqual(Grid(), UnMove(g, current, moveSquare, cx, cy, mx, my));
      return true;
    }

    /** findKing: the first king of the team in file-then-rank order, or (-1, -1). */
    method FindKing(team: Team) returns (x: int, y: int)
      requires board.Length0 == 8 && board.Length1 == 8
      ensures (x, y) == Check.FindKing(Grid(), team)
    {
      ghost var g := Grid();
      for i := 0 to 8
        invariant forall a, b {:trigger IsKingOf(g[a][b], team)} :: InBounds(a, b) && a < i ==> !IsKingOf(g[a][b], team)
      {
        for j := 0 to 8
          invariant forall a, b {:trigger IsKingOf(g[a][b], team)} :: InBounds(a, b) && Before(a, b, i, j) ==> !IsKingOf(g[a][b], team)
        {
          var piece := board[i, j];
          if piece.Some? && piece.value.kind == King && piece.value.team == team {
            FirstKing(g, team, i, j);
            return i, j;
          }
        }
      }
      return -1, -1;
    }

    /**
     * resultsInCheck: the move (cx, cy) -> (mx, my) is made on the board, every
     * enemy piece is asked whether it attacks the square findKing reports, and the
     * board is restored before the answer is returned.
     */
    method ResultsInCheck(cx: int, cy: int, mx: int, my: int, team: Team) returns (r: bool)
      requires Valid() && InBounds(cx, cy) && InBounds(mx, my)
      modifies board
      ensures Valid() && Grid() == old(Grid())
      ensures r == InCheckAfter(old(Grid()), lastMove, cx, cy, mx, my, team)
    {
      ghost var g0 := Grid();
      var currentPiece := board[cx, cy];
      var moveSquarePiece := board[mx, my];
      var moveMade := cx == mx && cy == my;
      if moveMade {
        r := KingAttackedOnBoard(team);
        return;
      }
      var moved := MoveSelectedPiece(cx, cy, mx, my);
      MovePiecePositions(g0, cx, cy, mx, my);
      r := KingAttackedOnBoard(team);
      var restored := UnMovePiece(currentPiece, moveSquarePiece, cx, cy, mx, my);
      SimulateThenRestore(g0, cx, cy, mx, my);
    }

    /**
     * The scan of resultsInCheck on the board as it stands: some enemy piece
     * passes its movement test towards the square findKing reports.
     */
    method KingAttackedOnBoard(team: Team) returns (r: bool)
      requires board.Length0 == 8 && board.Length1 == 8 && PositionsAgree(Grid())
      ensures r == KingAttacked(Grid(), lastMove, team)
    {
      ghost var g := Grid();
      var kingX, kingY := FindKing(team);
      for i := 0 to 8
        invariant NoAttackerBefore(g, lastMove, team, kingX, kingY, i, 0)
      {
        for j := 0 to 8
          invariant NoAttackerBefore(g, lastMove, team, kingX, kingY, i, j)
        {
          var piece := board[i, j];
          if piece.Some? && piece.value.team != team {
            var attacks := PseudoLegalMove(board, lastMove, piece.value, kingX, kingY);
            if attacks {
              return true;
            }
          }
          ScanStep(g, lastMove, team, kingX, kingY, i, j);
        }
        ScanNextFile(g, lastMove, team, kingX, kingY, i);
      }
      ScanComplete(g, lastMove, team);
      return false;
    }

    /** removeCheck: the team's check flag is cleared; the other flag stays. */
    method RemoveCheck(team: Team)
      modifies this`whiteInCheck, this`blackInCheck
      ensures !CheckFlag(team)
      ensures CheckFlag(Opponent(team)) == old(CheckFlag(Opponent(team)))
    {
      var playerInCheck := if team == White then whiteInCheck else blackInCheck;
      if playerInCheck {
        if team == White {
          whiteInCheck := false;
        } else {
          blackInCheck := false;
        }
      }
    }

    /** moveResultsInCheckOnSelf: the piece's move would leave its own team's king attacked. */
    method MoveResultsInCheckOnSelf(p: Piece, x: int, y: int) returns (r: bool)
      requires Valid() && InBounds(p.x, p.y) && InBounds(x, y)
      modifies board
      ensures Grid() == old(Grid())
      ensures r == InCheckAfter(old(Grid()), lastMove, p.x, p.y, x, y, p.team)
    {
      r := ResultsInCheck(p.x, p.y, x, y, p.team);
    }

    /**
     * validCastle: the board conditions of castling, then the square the king
     * crosses first must not leave it attacked; the rook's files on success,
     * (-1, -1) otherwise.
     */
    method ValidCastle(k: Piece, x: int, y: int) returns (valid: bool, rookX: int, newRookX: int)
      requires Valid() && InBounds(k.x, k.y) && InBounds(x, y)
      modifies board
      ensures Grid() == old(Grid())
      ensures valid == CastleValid(old(Grid()), lastMove, k, x, y)
      ensures valid ==> (rookX, newRookX) == CastleRook(old(Grid()), k, x, y).value
      ensures !valid ==> rookX == -1 && newRookX == -1
    {
      ghost var g := Grid();
      var conditions, rx, nrx := CastleConditions(board, k, x, y);
      if !conditions {
        return false, -1, -1;
      }
      var direction := Sign(x - k.x);
      var passesCheck := MoveResultsInCheckOnSelf(k, k.x + direction, y);
      assert passesCheck == !CastleValid(g, lastMove, k, x, y);
      if passesCheck {
        return false, -1, -1;
      }
      return true, rx, nrx;
    }

    /**
     * canMove of a king: the base test, then castling or a king step, then no
     * self-check; on success the team's check flag is cleared.
     */
    method CanMoveKing(p: Piece, x: int, y: int, simulated: bool) returns (ok: bool)
      requires Valid() && p.kind == King && InBounds(p.x, p.y) && InBounds(x, y)
      modifies board, this`whiteInCheck, this`blackInCheck
      ensures Valid() && Grid() == old(Grid())
      ensures ok == CanMoveSpec(old(Grid()), lastMove, p, x, y, simulated, hasInteractor)
      ensures CheckFlag(p.team) == (old(CheckFlag(p.team)) && !ok)
      ensures CheckFlag(Opponent(p.team)) == old(CheckFlag(Opponent(p.team)))
    {
      var base := ValidUniversalBaseMove(board, p, x, y);
      if !base {
        return false;
      }
      var castle, _, _ := ValidCastle(p, x, y);
      if !castle && !KingMove(p, x, y) {
        return false;
      }
      var selfCheck := MoveResultsInCheckOnSelf(p, x, y);
      if selfCheck {
        return false;
      }
      RemoveCheck(p.team);
      return true;
    }

    /**
     * canMove of a pawn: the base test, the pawn rule, no self-check, and a real
     * move onto the last rank needs an interactor to ask for the promotion; on
     * success the team's check flag is cleared.
     */
    method CanMovePawn(p: Piece, x: int, y: int, simulated: bool) returns (ok: bool)
      requires Valid() && p.kind == Pawn && InBounds(p.x, p.y) && InBounds(x, y)
      modifies board, this`whiteInCheck, this`blackInCheck
      ensures Valid() && Grid() == old(Grid())
      ensures ok == CanMoveSpec(old(Grid()), lastMove, p, x, y, simulated, hasInteractor)
      ensures CheckFlag(p.team) == (old(CheckFlag(p.team)) && !ok)
      ensures CheckFlag(Opponent(p.team)) == old(CheckFlag(Opponent(p.team)))
    {
      var base := ValidUniversalBaseMove(board, p, x, y);
      if !base {
        return false;
      }
      var pawn := ValidPawnMove(board, lastMove, p, x, y);
      if !pawn {
        return false;
      }
      var selfCheck := MoveResultsInCheckOnSelf(p, x, y);
      if selfCheck {
        return false;
      }
      var endY := if p.team == White then 7 else 0;
      var promotionMove := y == endY;
      if promotionMove && !simulated && !hasInteractor {
        return false;
      }
      RemoveCheck(p.team);
      return true;
    }

    /** canMove of a knight: the base test, the knight's movement rule, no self-check; on success the team's check flag is cleared. */
    method CanMoveKnight(p: Piece, x: int, y: int, simulated: bool) returns (ok: bool)
      requires Valid() && p.kind == Knight && InBounds(p.x, p.y) && InBounds(x, y)
      modifies board, this`whiteInCheck, this`blackInCheck
      ensures Valid() && Grid() == old(Grid())
      ensures ok == CanMoveSpec(old(Grid()), lastMove, p, x, y, simulated, hasInteractor)
      ensures CheckFlag(p.team) == (old(CheckFlag(p.team)) && !ok)
      ensures CheckFlag(Opponent(p.team)) == old(CheckFlag(Opponent(p.team)))
    {
      var base := ValidUniversalBaseMove(board, p, x, y);
      if !base {
        return false;
      }
      var shape := KnightMove(p, x, y);
      if !shape {
        return false;
      }
      var selfCheck := MoveResultsInCheckOnSelf(p, x, y);
      if selfCheck {
        return false;
      }
      RemoveCheck(p.team);
      return true;
    }

    /** canMove of a bishop: the base test, the bishop's movement rule, no self-check; on success the team's check flag is cleared. */
    method CanMoveBishop(p: Piece, x: int, y: int, simulated: bool) returns (ok: bool)
      requires Valid() && p.kind == Bishop && InBounds(p.x, p.y) && InBounds(x, y)
      modifies board, this`whiteInCheck, this`blackInCheck
      ensures Valid() && Grid() == old(Grid())
      ensures ok == CanMoveSpec(old(Grid()), lastMove, p, x, y, simulated, hasInteractor)
      ensures CheckFlag(p.team) == (old(CheckFlag(p.team)) && !ok)
      ensures CheckFlag(Opponent(p.team)) == old(CheckFlag(Opponent(p.team)))
    {
      var base := ValidUniversalBaseMove(board, p, x, y);
      if !base {
        return false;
      }
      var shape := ValidBishopMove(board, p, x, y);
      if !shape {
        return false;
      }
      var selfCheck := MoveResultsInCheckOnSelf(p, x, y);
      if selfCheck {
        return false;
      }
      RemoveCheck(p.team);
      return true;
    }

    /** canMove of a rook: the base test, the rook's movement rule, no self-check; on success the team's check flag is cleared. */
    method CanMoveRook(p: Piece, x: int, y: int, simulated: bool) returns (ok: bool)
      requires Valid() && p.kind == Rook && InBounds(p.x, p.y) && InBounds(x, y)
      modifies board, this`whiteInCheck, this`blackInCheck
      ensures Valid() && Grid() == old(Grid())
      ensures ok == CanMoveSpec(old(Grid()), lastMove, p, x, y, simulated, hasInteractor)
      ensures CheckFlag(p.team) == (old(CheckFlag(p.team)) && !ok)
      ensures CheckFlag(Opponent(p.team)) == old(CheckFlag(Opponent(p.team)))
    {
      var base := ValidUniversalBaseMove(board, p, x, y);
      if !base {
        return false;
      }
      var shape := ValidRookMove(board, p, x, y);
      if !shape {
        return false;
      }
      var selfCheck := MoveResultsInCheckOnSelf(p, x, y);
      if selfCheck {
        return false;
      }
      RemoveCheck(p.team);
      return true;
    }

    /** canMove of a queen: the base test, the queen's movement rule, no self-check; on success the team's check flag is cleared. */
    method CanMoveQueen(p: Piece, x: int, y: int, simulated: bool) returns (ok: bool)
      requires Valid() && p.kind == Queen && InBounds(p.x, p.y) && InBounds(x, y)
      modifies board, this`whiteInCheck, this`blackInCheck
      ensures Valid() && Grid() == old(Grid())
      ensures ok == CanMoveSpec(old(Grid()), lastMove, p, x, y, simulated, hasInteractor)
      ensures CheckFlag(p.team) == (old(CheckFlag(p.team)) && !ok)
      ensures CheckFlag(Opponent(p.team)) == old(CheckFlag(Opponent(p.team)))
    {
      var base := ValidUniversalBaseMove(board, p, x, y);
      if !base {
        return false;
      }
      var shape := ValidQueenMove(board, p, x, y);
      if !shape {
        return false;
      }
      var selfCheck := MoveResultsInCheckOnSelf(p, x, y);
      if selfCheck {
        return false;
      }
      RemoveCheck(p.team);
      return true;
    }

    /** The virtual canMove call: the variant of the piece decides which rule runs. */
    method CanMove(p: Piece, x: int, y: int, simulated: bool) returns (ok: bool)
      requires Valid() && InBounds(p.x, p.y) && InBounds(x, y)
      modifies board, this`whiteInCheck, this`blackInCheck
      ensures Valid() && Grid() == old(Grid())
      ensures ok == CanMoveSpec(old(Grid()), lastMove, p, x, y, simulated, hasInteractor)
      ensures CheckFlag(p.team) == (old(CheckFlag(p.team)) && !ok)
      ensures CheckFlag(Opponent(p.team)) == old(CheckFlag(Opponent(p.team)))
    {
      match p.kind
      case Pawn => ok := CanMovePawn(p, x, y, simulated);
      case Knight => ok := CanMoveKnight(p, x, y, simulated);
      case Bishop => ok := CanMoveBishop(p, x, y, simulated);
      case Rook => ok := CanMoveRook(p, x, y, simulated);
      case Queen => ok := CanMoveQueen(p, x, y, simulated);
      case King => ok := CanMoveKing(p, x, y, simulated);
    }

    /**
     * hasCheckmateStoppingMove: some square the piece's simulated canMove accepts
     * and whose move leaves the player's king unattacked.  Every canMove call on
     * the way clears the piece team's check flag when it succeeds.
     */
    method HasCheckmateStoppingMove(piece: Piece, player: Team) returns (r: bool)
      requires Valid() && InBounds(piece.x, piece.y)
      modifies board, this`whiteInCheck, this`blackInCheck
      ensures Valid() && Grid() == old(Grid())
      ensures r == HasStoppingMove(old(Grid()), lastMove, piece, player)
      ensures CheckFlag(piece.team) == (old(CheckFlag(piece.team)) && !Movable(old(Grid()), lastMove, piece))
      ensures CheckFlag(Opponent(piece.team)) == old(CheckFlag(Opponent(piece.team)))
    {
      ghost var g := Grid();
      ghost var own, other := CheckFlag(piece.team), CheckFlag(Opponent(piece.team));
      StopScanBounds(g, lastMove, piece, player);
      for i := 0 to 8
        invariant Valid() && Grid() == g
        invariant NoStopBefore(g, lastMove, piece, player, i, 0)
        invariant CheckFlag(piece.team) == (own && !MovableBefore(g, lastMove, piece, i, 0))
        invariant CheckFlag(Opponent(piece.team)) == other
      {
        var found := FileHasStop(piece, player, i, g, own);
        if found {
          return true;
        }
        StopScanNextFile(g, lastMove, piece, player, i);
      }
      return false;
    }

    /** The inner loop of hasCheckmateStoppingMove: the squares of file i, rank by rank. */
    method FileHasStop(piece: Piece, player: Team, i: int, ghost g: Grid, ghost own: bool) returns (found: bool)
      requires Valid() && Grid() == g && InBounds(piece.x, piece.y) && 0 <= i < 8
      requires NoStopBefore(g, lastMove, piece, player, i, 0)
      requires CheckFlag(piece.team) == (own && !MovableBefore(g, lastMove, piece, i, 0))
      modifies board, this`whiteInCheck, this`blackInCheck
      ensures Valid() && Grid() == g
      ensures found ==> HasStoppingMove(g, lastMove, piece, player) && CheckFlag(piece.team) == (own && !Movable(g, lastMove, piece))
      ensures !found ==> NoStopBefore(g, lastMove, piece, player, i, 8)
      ensures !found ==> CheckFlag(piece.team) == (own && !MovableBefore(g, lastMove, piece, i, 8))
      ensures CheckFlag(Opponent(piece.team)) == old(CheckFlag(Opponent(piece.team)))
    {
      for j := 0 to 8
        invariant Valid() && Grid() == g
        invariant NoStopBefore(g, lastMove, piece, player, i, j)
        invariant CheckFlag(piece.team) == (own && !MovableBefore(g, lastMove, piece, i, j))
        invariant CheckFlag(Opponent(piece.team)) == old(CheckFlag(Opponent(piece.team)))
      {
        StopScanStep(g, lastMove, piece, player, i, j);
        var stops := StopsOn(piece, player, i, j);
        if stops {
          StopFound(g, lastMove, piece, player, i, j);
          return true;
        }
      }
      return false;
    }

    /** One square of hasCheckmateStoppingMove: a simulated canMove, then the player's check test. */
    method StopsOn(piece: Piece, player: Team, x: int, y: int) returns (stops: bool)
      requires Valid() && InBounds(piece.x, piece.y) && InBounds(x, y)
      modifies board, this`whiteInCheck, this`blackInCheck
      ensures Valid() && Grid() == old(Grid())
      ensures stops == StoppingMove(old(Grid()), lastMove, piece, player, x, y)
      ensures CheckFlag(piece.team) ==
              (old(CheckFlag(piece.team)) && !CanMoveSpec(old(Grid()), lastMove, piece, x, y, true, false))
      ensures CheckFlag(Opponent(piece.team)) == old(CheckFlag(Opponent(piece.team)))
    {
      SimulatedIgnoresInteractor(Grid(), lastMove, piece, x, y);
      var can := CanMove(piece, x, y, true);
      if !can {
        return false;
      }
      var inCheck := ResultsInCheck(piece.x, piece.y, x, y, player);
      return !inCheck;
    }

    /**
     * inCheckMate: no piece of the player has a stopping move.  The pieces are
     * tried in scan order and the search ends at the first that has one.
     */
    method InCheckMate(player: Team) returns (mate: bool)
      requires Valid()
      modifies board, this`whiteInCheck, this`blackInCheck
      ensures Valid() && Grid() == old(Grid())
      ensures mate == CheckMate(old(Grid()), lastMove, player)
      ensures CheckFlag(player) == (old(CheckFlag(player)) && !AnyMovable(old(Grid()), lastMove, player))
      ensures CheckFlag(Opponent(player)) == old(CheckFlag(Opponent(player)))
    {
      ghost var g := Grid();
      ghost var own, other := CheckFlag(player), CheckFlag(Opponent(player));
      MateScanBounds(g, lastMove, player);
      for i := 0 to 8
        invariant Valid() && Grid() == g
        invariant NoStopperBefore(g, lastMove, player, i, 0)
        invariant CheckFlag(player) == (own && !MovableOwnBefore(g, lastMove, player, i, 0))
        invariant CheckFlag(Opponent(player)) == other
      {
        var found := FileHasStopper(player, i, g, own);
        if found {
          return false;
        }
        MateScanNextFile(g, lastMove, player, i);
      }
      return true;
    }

    /** potentialValidCastle: for a king, its validCastle answer; for any other piece, (false, -1, -1). */
    method PotentialValidCastle(p: Piece, mx: int, my: int) returns (valid: bool, rookX: int, newRookX: int)
      requires Valid() && InBounds(p.x, p.y) && InBounds(mx, my)
      modifies board
      ensures Grid() == old(Grid())
      ensures var c := CastleOf(old(GameState()), p, mx, my);
              && (valid <==> c.Some?)
              && (valid ==> (rookX, newRookX) == c.value)
              && (!valid ==> rookX == -1 && newRookX == -1)
    {
      var notKing := p.kind != King;
      if notKing {
        return false, -1, -1;
      }
      valid, rookX, newRookX := ValidCastle(p, mx, my);
    }

    /** potentialValidEnPessant: for a pawn, its en passant answer against the last move; otherwise (false, None). */
    method PotentialValidEnPassant(p: Piece, x: int, y: int) returns (valid: bool, captured: Option<Piece>)
      requires board.Length0 == 8 && board.Length1 == 8
      ensures valid ==> p.kind == Pawn && x != p.x && lastMove.WasPawnJump() && captured == lastMove.piece
      ensures (valid, captured) == EnPassantOf(GameState(), p, x, y)
    {
      var notPawn := p.kind != Pawn;
      if notPawn {
        return false, None;
      }
      valid, captured := ValidEnPassant(p, lastMove, x, y).0, ValidEnPassant(p, lastMove, x, y).1;
    }

    /**
     * handleMovePiece: nothing from an empty square; otherwise the piece moves,
     * becomes the last move and the turn passes; if the opponent's king is now
     * attacked, the opponent's flag is set and a mate stops the game.  The mover's
     * team is returned.
     */
    method HandleMovePiece(sx: int, sy: int, mx: int, my: int) returns (player: Option<Team>)
      requires Valid() && InBounds(sx, sy) && InBounds(mx, my)
      modifies board, this`lastMove, this`currentPlayer, this`gameRunning, this`whiteInCheck, this`blackInCheck
      ensures Valid()
      ensures (GameState(), player) == Handle(old(GameState()), sx, sy, mx, my)
    {
      ghost var s := GameState();
      var playerMakingMove := currentPlayer;
      var oppositePlayer := if currentPlayer == White then Black else White;
      var selectedPiece := board[sx, sy];
      if selectedPiece.None? {
        return None;
      }
      var moved := MoveSelectedPiece(sx, sy, mx, my);
      MovePiecePositions(s.grid, sx, sy, mx, my);
      lastMove := Move(Some(selectedPiece.value.(x := mx, y := my)), sx, sy, mx, my);
      PostMoveScan(Grid(), lastMove, sx, sy, mx, my, oppositePlayer);
      var causesCheckOnEnemy := ResultsInCheck(sx, sy, mx, my, oppositePlayer);
      FinishTurn(oppositePlayer, causesCheckOnEnemy);
      return Some(playerMakingMove);
    }

    /**
     * The second half of handleMovePiece: the turn passes to the opponent and, when
     * the move gave check, a mate stops the game and the opponent's flag is set.
     */
    method FinishTurn(opponent: Team, causesCheck: bool)
      requires Valid() && opponent == Opponent(currentPlayer)
      modifies board, this`currentPlayer, this`gameRunning, this`whiteInCheck, this`blackInCheck
      ensures Valid()
      ensures GameState() == PassTurn(old(GameState()), old(Grid()), lastMove, causesCheck, CheckMate(old(Grid()), lastMove, opponent))
    {
      ghost var s := GameState();
      currentPlayer := opponent;
      if !causesCheck {
        return;
      }
      var mate := InCheckMate(opponent);
      if mate {
        gameRunning := false;
      }
      if opponent == White {
        whiteInCheck := true;
      } else {
        blackInCheck := true;
      }
    }

    /**
     * tryMove: a move canMove refuses changes nothing and reports failure.
     * Otherwise the castling and en passant answers are taken before the move,
     * the move is handled, the piece is marked as moved, a castling rook is moved
     * as a second move by the same player and an en passant victim is removed.
     */
    method TryMove(p: Piece, mx: int, my: int) returns (success: bool, player: Option<Team>)
      requires Valid() && InBounds(p.x, p.y) && InBounds(mx, my) && Grid()[p.x][p.y] == Some(p)
      modifies board, this`lastMove, this`currentPlayer, this`gameRunning, this`whiteInCheck, this`blackInCheck
      ensures Valid()
      ensures (GameState(), success, player) == TryMoveSpec(old(GameState()), p, mx, my, hasInteractor)
    {
      ghost var s := GameState();
      var canMove := CanMove(p, mx, my, false);
      if !canMove {
        return false, None;
      }
      assert GameState() == s.WithCheck(p.team, false);
      player := CommitMove(p, mx, my);
      return true, player;
    }

    /** The accepted move of tryMove, from the castling and en passant answers to the completed move. */
    method CommitMove(p: Piece, mx: int, my: int) returns (player: Option<Team>)
      requires Valid() && InBounds(p.x, p.y) && InBounds(mx, my) && Grid()[p.x][p.y] == Some(p)
      modifies board, this`lastMove, this`currentPlayer, this`gameRunning, this`whiteInCheck, this`blackInCheck
      ensures Valid()
      ensures (GameState(), player) == Committed(old(GameState()), p, mx, my)
    {
      var selectedYBeforeMoving := p.y;
      var validCastle, rookX, newRookX := PotentialValidCastle(p, mx, my);
      var validEnPassant, pawnToDelete := PotentialValidEnPassant(p, mx, my);
      player := HandleMovePiece(p.x, p.y, mx, my);
      CompleteMove(mx, my, selectedYBeforeMoving, validCastle, rookX, newRookX, validEnPassant, pawnToDelete, player.value);
    }

    /**
     * selectedPiece.firstMove = false after the move: the piece object now on
     * (x, y) is also the last move's piece, so both copies of it are marked.
     */
    method MarkSelectedMoved(x: int, y: int)
      requires Valid() && InBounds(x, y)
      modifies board, this`lastMove
      ensures Valid()
      ensures Grid() == MarkMoved(old(Grid()), x, y) && lastMove == MarkLastMove(old(lastMove))
    {
      var moved := board[x, y];
      if moved.Some? {
        SetCell(board, x, y, Some(moved.value.(firstMove := false)));
      }
      lastMove := MarkLastMove(lastMove);
    }

    /**
     * The rest of tryMove once the move is handled: the piece is marked as moved,
     * a castling rook is moved by the same player, an en passant victim removed.
     */
    method CompleteMove(x: int, y: int, rookY: int, castle: bool, rookX: int, newRookX: int,
                        enPassant: bool, captured: Option<Piece>, mover: Team)
      requires Valid() && InBounds(x, y)
      requires castle ==> InBounds(rookX, rookY) && InBounds(newRookX, rookY)
      requires enPassant && captured.Some? ==> InBounds(captured.value.x, captured.value.y)
      modifies board, this`lastMove, this`currentPlayer, this`gameRunning, this`whiteInCheck, this`blackInCheck
      ensures Valid()
      ensures GameState() == Completion(old(GameState()), mover, x, y, rookY,
                                        if castle then Some((rookX, newRookX)) else None, (enPassant, captured))
    {
      MarkSelectedMoved(x, y);
      MoveCastleRook(castle, rookX, rookY, newRookX, mover);
      if enPassant && captured.Some? {
        ClearSquare(captured.value.x, captured.value.y);
      }
    }

    /** board[x][y] = null: the square is emptied, and every piece left still agrees with its square. */
    method ClearSquare(x: int, y: int)
      requires Valid() && InBounds(x, y)
      modifies board
      ensures Valid() && Grid() == Set(old(Grid()), x, y, None)
    {
      SetCell(board, x, y, None);
      ClearKeepsPositions(old(Grid()), x, y);
    }

    /** The castling branch of tryMove: the mover moves the rook too, through handleMovePiece. */
    method MoveCastleRook(castle: bool, rookX: int, rookY: int, newRookX: int, mover: Team)
      requires Valid()
      requires castle ==> InBounds(rookX, rookY) && InBounds(newRookX, rookY)
      modifies board, this`lastMove, this`currentPlayer, this`gameRunning, this`whiteInCheck, this`blackInCheck
      ensures Valid()
      ensures GameState() == CastleStep(old(GameState()), mover, rookY, if castle then Some((rookX, newRookX)) else None)
    {
      if castle {
        currentPlayer := mover;
        var rookPlayer := HandleMovePiece(rookX, rookY, newRookX, rookY);
      }
    }

    /**
     * promotePawn: an answer naming queen, rook, knight or bishop builds a new
     * piece of that variant for (x, y) and empties the pawn's square (cx, cy); the
     * new piece is returned, not placed.  Any other answer changes nothing.
     */
    method PromotePawn(choice: string, cx: int, cy: int, x: int, y: int, team: Team) returns (piece: Option<Piece>, ok: bool)
      requires Valid()
      requires PromotionKind(choice).Some? ==> InBounds(cx, cy)
      modifies board
      ensures Valid()
      ensures ok <==> PromotionKind(choice).Some?
      ensures !ok ==> piece.None? && Grid() == old(Grid())
      ensures ok ==> piece == Some(NewPiece(PromotionKind(choice).value, team, x, y))
      ensures ok ==> Grid() == Set(old(Grid()), cx, cy, None)
    {
      var kind: Kind;
      if choice == "queen" {
        kind := Queen;
      } else if choice == "rook" {
        kind := Rook;
      } else if choice == "knight" {
        kind := Knight;
      } else if choice == "bishop" {
        kind := Bishop;
      } else {
        return None, false;
      }
      var newPiece := NewPiece(kind, team, x, y);
      ClearSquare(cx, cy);
      return Some(newPiece), true;
    }

    /** The inner loop of inCheckMate: the pieces of the player on file i, rank by rank. */
    method FileHasStopper(player: Team, i: int, ghost g: Grid, ghost own: bool) returns (found: bool)
      requires Valid() && Grid() == g && 0 <= i < 8
      requires NoStopperBefore(g, lastMove, player, i, 0)
      requires CheckFlag(player) == (own && !MovableOwnBefore(g, lastMove, player, i, 0))
      modifies board, this`whiteInCheck, this`blackInCheck
      ensures Valid() && Grid() == g
      ensures found ==> !CheckMate(g, lastMove, player) && !CheckFlag(player) && AnyMovable(g, lastMove, player)
      ensures !found ==> NoStopperBefore(g, lastMove, player, i, 8)
      ensures !found ==> CheckFlag(player) == (own && !MovableOwnBefore(g, lastMove, player, i, 8))
      ensures CheckFlag(Opponent(player)) == old(CheckFlag(Opponent(player)))
    {
      for j := 0 to 8
        invariant Valid() && Grid() == g
        invariant NoStopperBefore(g, lastMove, player, i, j)
        invariant CheckFlag(player) == (own && !MovableOwnBefore(g, lastMove, player, i, j))
        invariant CheckFlag(Opponent(player)) == old(CheckFlag(Opponent(player)))
      {
        MateScanStep(g, lastMove, player, i, j);
        var stops := PieceStops(player, i, j);
        if stops {
          StopperFound(g, lastMove, player, i, j);
          return true;
        }
      }
      return false;
    }

    /** One square of inCheckMate: a piece of the player there is asked for a stopping move. */
    method PieceStops(player: Team, i: int, j: int) returns (stops: bool)
      requires Valid() && InBounds(i, j)
      modifies board, this`whiteInCheck, this`blackInCheck
      ensures Valid() && Grid() == old(Grid())
      ensures var c := old(Grid())[i][j];
              stops == (c.Some? && c.value.team == player && HasStoppingMove(old(Grid()), lastMove, c.value, player))
      ensures var c := old(Grid())[i][j];
              CheckFlag(player) ==
              (old(CheckFlag(player)) && !(c.Some? && c.value.team == player && Movable(old(Grid()), lastMove, c.value)))
      ensures CheckFlag(Opponent(player)) == old(CheckFlag(Opponent(player)))
    {
      var piece := board[i, j];
      if piece.None? || piece.value.team != player {
        return false;
      }
      assert piece.value.x == i && piece.value.y == j;
      stops := HasCheckmateStoppingMove(piece.value, player);
    }
  }
}
