/**
 * The pieces and the 8x8 grid of optional occupants.
 *
 * A piece is a value: its variant, its team, its stored position and whether it
 * has moved yet (the ChessPiece fields).  Positions are stored in the piece as
 * in the original, so that the board invariant "the piece in cell (i, j) says
 * it stands on (i, j)" is stated and kept explicitly.
 */
module Pieces {
  import opened Coordinates

  /** A nullable reference (ChessPiece?). */
  datatype Option<T> = None | Some(value: T)

  /** The "white" and "black" team strings. */
  datatype Team = White | Black

  /** The closed set of ChessPiece subclasses. */
  datatype Kind = Pawn | Knight | Bishop | Rook | Queen | King

  datatype Piece = Piece(kind: Kind, team: Team, x: int, y: int, firstMove: bool)

  /** The other team (the oppositePlayer ternary of handleMovePiece). */
  function Opponent(t: Team): (o: Team)
    ensures o != t
  {
    if t == White then Black else White
  }

  /** A freshly constructed piece: stored position given, firstMove still set. */
  function NewPiece(kind: Kind, team: Team, x: int, y: int): (p: Piece)
    ensures p.kind == kind && p.team == team && p.x == x && p.y == y && p.firstMove
  {
    Piece(kind, team, x, y, true)
  }

  predicate IsGrid(g: seq<seq<Option<Piece>>>)
  {
    |g| == 8 && forall i :: 0 <= i < 8 ==> |g[i]| == 8
  }

  /** board[file][rank]: the occupant of every square, or None. */
  type Grid = g: seq<seq<Option<Piece>>> | IsGrid(g)
    witness seq(8, _ => seq(8, _ => None))

  /** The square holds some piece. */
  predicate Occupied(g: Grid, x: int, y: int)
  {
    InBounds(x, y) && g[x][y].Some?
  }

  /** Every piece on the board stores the coordinates of the cell it stands in. */
  ghost predicate PositionsAgree(g: Grid)
  {
    forall i, j {:trigger g[i][j]} :: InBounds(i, j) && g[i][j].Some? ==> g[i][j].value.x == i && g[i][j].value.y == j
  }

  /** The grid with cell (x, y) replaced by v and every other cell as before. */
  function Set(g: Grid, x: int, y: int, v: Option<Piece>): (r: Grid)
    requires InBounds(x, y)
    ensures r[x][y] == v
    ensures forall i, j {:trigger r[i][j]} :: InBounds(i, j) && (i != x || j != y) ==> r[i][j] == g[i][j]
  {
    g[x := g[x][y := v]]
  }

  /** Emptying a square keeps every remaining piece's stored position equal to its square. */
  lemma ClearKeepsPositions(g: Grid, x: int, y: int)
    requires InBounds(x, y) && PositionsAgree(g)
    ensures PositionsAgree(Set(g, x, y, None))
  {
  }

  /** Two grids agreeing on every square are the same grid. */
  lemma GridsEqual(a: Grid, b: Grid)
    requires forall i, j {:trigger a[i][j]} {:trigger b[i][j]} :: InBounds(i, j) ==> a[i][j] == b[i][j]
    ensures a == b
  {
    forall i | 0 <= i < 8
      ensures a[i] == b[i]
    {
      assert forall j | 0 <= j < 8 :: InBounds(i, j);
    }
  }

  /** The value of an 8x8 board array, cell by cell. */
  function Snapshot(a: array2<Option<Piece>>): (g: Grid)
    requires a.Length0 == 8 && a.Length1 == 8
    reads a
    ensures forall i, j {:trigger g[i][j]} {:trigger a[i, j]} :: InBounds(i, j) ==> g[i][j] == a[i, j]
  {
    seq(8, i requires 0 <= i < 8 reads a => seq(8, j requires 0 <= j < 8 reads a => a[i, j]))
  }

  /** One cell of the board array is written; the board value changes in that cell only. */
  method SetCell(a: array2<Option<Piece>>, x: int, y: int, v: Option<Piece>)
    requires a.Length0 == 8 && a.Length1 == 8 && InBounds(x, y)
    modifies a
    ensures Snapshot(a) == Set(old(Snapshot(a)), x, y, v)
  {
    ghost var before := Snapshot(a);
    a[x, y] := v;
    GridsEqual(Snapshot(a), Set(before, x, y, v));
  }
}
