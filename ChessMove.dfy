/**
 * The record of the last committed move (class ChessMove): the piece that moved,
 * where it came from and where it went.  The game only ever replaces its last
 * move as a whole, so the record is a value.
 */
module ChessMoves {
  import opened Coordinates
  import opened Pieces

  datatype Move = Move(piece: Option<Piece>, initialX: int, initialY: int, moveToX: int, moveToY: int)
  {
    /** update: the four coordinates replaced, the piece kept. */
    function Update(initialX': int, initialY': int, moveToX': int, moveToY': int): (m: Move)
      ensures m.piece == piece
      ensures m.initialX == initialX' && m.initialY == initialY'
      ensures m.moveToX == moveToX' && m.moveToY == moveToY'
    {
      Move(piece, initialX', initialY', moveToX', moveToY')
    }

    /** wasPawnJump: a pawn moved exactly two ranks, whatever its files. */
    predicate WasPawnJump()
    {
      piece.Some? && piece.value.kind == Pawn && Abs(moveToY - initialY) == 2
    }
  }

  /** The last move a new game starts with: no piece, all coordinates zero. */
  const NoMove: Move := Move(None, 0, 0, 0, 0)

  /** The constructor stores its five arguments as they are. */
  lemma ConstructorStores(p: Option<Piece>, ix: int, iy: int, tx: int, ty: int)
    ensures var m := Move(p, ix, iy, tx, ty);
            m.piece == p && m.initialX == ix && m.initialY == iy && m.moveToX == tx && m.moveToY == ty
  {
  }

  /** A move without a piece, or with a piece other than a pawn, is never a pawn jump. */
  lemma NoPawnNoJump(m: Move)
    requires m.piece.None? || m.piece.value.kind != Pawn
    ensures !m.WasPawnJump()
  {
  }

  /** A pawn move is a jump exactly when it covers two ranks; the files play no part. */
  lemma PawnJumpIgnoresFiles(m: Move, ix: int, tx: int)
    requires m.piece.Some? && m.piece.value.kind == Pawn
    ensures m.WasPawnJump() <==> (m.moveToY - m.initialY == 2 || m.initialY - m.moveToY == 2)
    ensures m.Update(ix, m.initialY, tx, m.moveToY).WasPawnJump() == m.WasPawnJump()
  {
  }
}
