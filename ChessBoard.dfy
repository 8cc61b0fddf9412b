/**
 * The starting position (class ChessBoard): white's back rank on rank 0 and its
 * pawns on rank 1, black's pawns on rank 6 and back rank on rank 7.
 */
module Board {
  import opened Coordinates
  import opened Pieces
  import Check

  /** The variant on file i of a back rank: R N B Q K B N R. */
  function BackRank(i: int): Kind
  {
    if i == 0 || i == 7 then Rook
    else if i == 1 || i == 6 then Knight
    else if i == 2 || i == 5 then Bishop
    else if i == 3 then Queen
    else King
  }

  /** What Initialize puts on square (i, j), if anything. */
  function StartingOccupant(i: int, j: int): Option<Piece>
  {
    if j == 0 then Some(NewPiece(BackRank(i), White, i, j))
    else if j == 1 then Some(NewPiece(Pawn, White, i, j))
    else if j == 6 then Some(NewPiece(Pawn, Black, i, j))
    else if j == 7 then Some(NewPiece(BackRank(i), Black, i, j))
    else None
  }

  /** The board a new ChessBoard holds. */
  function InitialGrid(): (g: Grid)
    ensures forall i, j :: InBounds(i, j) ==> g[i][j] == StartingOccupant(i, j)
  {
    seq(8, i => seq(8, j => StartingOccupant(i, j)))
  }

  class ChessBoard {
    var board: array2<Option<Piece>>

    /** The constructor: a fresh empty 8x8 board, then Initialize. */
    constructor ()
      ensures fresh(board) && board.Length0 == 8 && board.Length1 == 8
      ensures Snapshot(board) == InitialGrid()
    {
      board := new Option<Piece>[8, 8]((_, _) => None);
      new;
      Initialize();
      GridsEqual(Snapshot(board), InitialGrid());
    }

    /**
     * Initialize: places both back ranks and both pawn ranks; the four middle
     * ranks are left as they were.
     */
    method Initialize()
      requires board.Length0 == 8 && board.Length1 == 8
      modifies board
      ensures forall i, j :: InBounds(i, j) && (j < 2 || j > 5) ==> board[i, j] == StartingOccupant(i, j)
      ensures forall i, j :: InBounds(i, j) && 2 <= j <= 5 ==> board[i, j] == old(board[i, j])
    {
      InitializeTeam(White, 0, 1);
      InitializeTeam(Black, 7, 6);
    }

    /** One team's half of Initialize: its back rank, then its pawns. */
    method InitializeTeam(team: Team, backRank: int, pawnRank: int)
      requires board.Length0 == 8 && board.Length1 == 8
      requires (team, backRank, pawnRank) == (White, 0, 1) || (team, backRank, pawnRank) == (Black, 7, 6)
      modifies board
      ensures forall i, j :: InBounds(i, j) && (j == backRank || j == pawnRank) ==> board[i, j] == StartingOccupant(i, j)
      ensures forall i, j :: InBounds(i, j) && j != backRank && j != pawnRank ==> board[i, j] == old(board[i, j])
    {
      PlaceBackRank(team, backRank);
      PlacePawns(team, pawnRank);
    }

    /** The back rank of the team, in R N B Q K B N R order. */
    method PlaceBackRank(team: Team, backRank: int)
      requires board.Length0 == 8 && board.Length1 == 8 && (backRank == 0 || backRank == 7)
      modifies board
      ensures forall i, j :: InBounds(i, j) ==>
                board[i, j] == if j == backRank then Some(NewPiece(BackRank(i), team, i, backRank)) else old(board[i, j])
    {
      board[0, backRank] := Some(NewPiece(Rook, team, 0, backRank));
      board[1, backRank] := Some(NewPiece(Knight, team, 1, backRank));
      board[2, backRank] := Some(NewPiece(Bishop, team, 2, backRank));
      board[3, backRank] := Some(NewPiece(Queen, team, 3, backRank));
      board[4, backRank] := Some(NewPiece(King, team, 4, backRank));
      board[5, backRank] := Some(NewPiece(Bishop, team, 5, backRank));
      board[6, backRank] := Some(NewPiece(Knight, team, 6, backRank));
      board[7, backRank] := Some(NewPiece(Rook, team, 7, backRank));
    }

    /** The loop over the team's pawns, one per file. */
    method PlacePawns(team: Team, pawnRank: int)
      requires board.Length0 == 8 && board.Length1 == 8 && (pawnRank == 1 || pawnRank == 6)
      modifies board
      ensures forall i :: 0 <= i < 8 ==> board[i, pawnRank] == Some(NewPiece(Pawn, team, i, pawnRank))
      ensures forall i, j :: InBounds(i, j) && j != pawnRank ==> board[i, j] == old(board[i, j])
    {
      for i := 0 to 8
        invariant forall a :: 0 <= a < i ==> board[a, pawnRank] == Some(NewPiece(Pawn, team, a, pawnRank))
        invariant forall a, b :: InBounds(a, b) && b != pawnRank ==> board[a, b] == old(board[a, b])
      {
        board[i, pawnRank] := Some(NewPiece(Pawn, team, i, pawnRank));
      }
    }
  }

  /** In the starting position every piece stores the square it stands on. */
  lemma InitialPositionsAgree()
    ensures PositionsAgree(InitialGrid())
  {
  }

  /** Rank 0 holds white R N B Q K B N R, rank 7 the same in black; ranks 1 and 6 hold the pawns; all unmoved. */
  lemma InitialRanks(i: int)
    requires 0 <= i < 8
    ensures InitialGrid()[i][0] == Some(Piece(BackRank(i), White, i, 0, true))
    ensures InitialGrid()[i][7] == Some(Piece(BackRank(i), Black, i, 7, true))
    ensures InitialGrid()[i][1] == Some(Piece(Pawn, White, i, 1, true))
    ensures InitialGrid()[i][6] == Some(Piece(Pawn, Black, i, 6, true))
  {
  }

  /** Ranks 2 to 5 start empty. */
  lemma InitialMiddleEmpty()
    ensures forall i, j :: InBounds(i, j) && 2 <= j <= 5 ==> InitialGrid()[i][j].None?
  {
  }

  /** Exactly one king per team: white's on (4, 0), black's on (4, 7); findKing finds them there. */
  lemma InitialKings()
    ensures forall a, b :: InBounds(a, b) ==> (Check.IsKingOf(InitialGrid()[a][b], White) <==> a == 4 && b == 0)
    ensures forall a, b :: InBounds(a, b) ==> (Check.IsKingOf(InitialGrid()[a][b], Black) <==> a == 4 && b == 7)
    ensures Check.FindKing(InitialGrid(), White) == (4, 0)
    ensures Check.FindKing(InitialGrid(), Black) == (4, 7)
  {
    var g := InitialGrid();
    assert Check.IsKingOf(g[4][0], White) && Check.IsKingOf(g[4][7], Black);
  }
}
