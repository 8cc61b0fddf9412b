# TerminalChess core in Dafny

This project models the rules engine of TerminalChess, a two-player chess game played in a terminal. The modelled parts are:

- the coordinate helpers (`Utils`);
- the last-move record (`ChessMove`);
- the starting position (`ChessBoard`);
- the movement rules of the six piece variants (`ChessPiece` and its subclasses);
- the game itself (`ChessGame`): piece selection, move legality, the self-check test through a simulated move and its undoing, check and checkmate detection, castling, en passant and pawn promotion.

The model is written in two layers.

- **Value layer.** The board is a `Grid`, an 8x8 sequence of optional pieces. Each rule is a predicate or function on that value:
  - `Rules` holds the movement rules;
  - `Check` holds the simulated move, the king search, the attack scan, the full `canMove`, and checkmate;
  - `Commit` holds the committing operations `handleMovePiece` and `tryMove`, as functions of the whole game state.
- **Imperative layer.** `Game.ChessGame` is a class with the fields of the original: the board as an `array2`, the player to move, the last move, the two check flags, and whether the game is running. Each of its methods reads and writes the board array in place, with the original's loops and branches. Each method is proved to compute the value-layer definition, or to leave the state that definition describes.

The properties are then proved about the value layer:

- the notation round trips;
- what the square generator yields;
- the closed forms of the movement rules;
- simulating a move and undoing it restores the board;
- the search for a move that stops checkmate is exactly "some legal move exists";
- the effects of a successful move: ordinary, en passant and castling;
- the turn passes exactly once per successful move.

Modules and files:

- `Coordinates.dfy`: board indices and chess notation; the `squaresBetween` generator as a sequence.
- `Pieces.dfy`: teams, kinds, pieces, the grid value, and the board-array snapshot.
- `ChessMove.dfy`: the last-move record.
- `PieceRules.dfy`: the movement rules of the variants (`Rules`).
- `Check.dfy`: the simulated move, the king search, check, the full `canMove`, and checkmate.
- `ChessBoard.dfy`: the starting position (`Board`).
- `Commit.dfy`: the game state, `handleMovePiece` and `tryMove` as functions (`Commit`), and the lemmas about their effects (`CommitFacts`).
- `ChessGame.dfy`: the game class (`Game`).

Teams are the datatype `Team` rather than the strings "white" and "black". A nullable piece reference is `Option<Piece>`. `selectPiece`'s message strings become the `Selection` outcome. The interactor object becomes the flag `hasInteractor`.

## Model

| member | source | states |
|---|---|---|
| Coordinates.ConvertFromChessNotation | src/Utils.cs:5-10 | the indices are on the board exactly when the letter is 'a'..'h' and the number 1..8 |
| Coordinates.ConvertToChessNotation | src/Utils.cs:12-17 | the letter is 'a'..'h' and the number 1..8 exactly when the indices are on the board |
| Coordinates.IndicesRoundTrip | src/Utils.cs:5-17 | indices converted to notation and back are the same indices |
| Coordinates.NotationRoundTrip | src/Utils.cs:5-17 | notation converted to indices and back is the same notation |
| Coordinates.Steps | src/Utils.cs:20-33 | the generator, from its current square, yields as many squares as the Chebyshev distance to the end |
| Coordinates.StepsAt | src/Utils.cs:28-32 | the k-th square yielded is k steps of (xStep, yStep) from the current square |
| Coordinates.StepsBetween | src/Utils.cs:28-32 | every square yielded lies between the current square and the end and is never the end |
| Coordinates.SquaresBetweenLength | src/Utils.cs:20-33 | between two aligned squares the generator yields max(\|dx\|, \|dy\|) - 1 squares, none when they coincide |
| Coordinates.SquaresBetweenAt | src/ChessPieces/ChessPiece.cs:73-86 | the k-th square yielded is k + 1 steps from the start towards the end, is neither endpoint, and lies between them |
| Coordinates.SquaresBetweenInBounds | src/ChessPieces/ChessPiece.cs:73-86 | the squares between two on-board squares are all on the board, so the obstruction test never indexes off the board |
| Pieces.Opponent | src/ChessBoard/ChessGame.cs:102 | the opposite player is never the player |
| Pieces.NewPiece | src/ChessPieces/ChessPiece.cs:18-23 | a new piece stores its variant, team and position, and has not moved yet |
| Pieces.Set | src/ChessBoard/ChessGame.cs:143-144 | writing a board cell changes that cell and no other |
| Pieces.SetCell | src/ChessBoard/ChessGame.cs:92 | the array write changes the board value in exactly that cell |
| Pieces.ClearKeepsPositions | src/ChessBoard/ChessGame.cs:336 | emptying a square keeps every remaining piece's stored position equal to its square |
| ChessMoves.Move.Update | src/ChessBoard/ChessMove.cs:22-28 | update replaces the four coordinates and keeps the piece |
| ChessMoves.ConstructorStores | src/ChessBoard/ChessMove.cs:13-20 | the constructor stores its five arguments |
| ChessMoves.NoPawnNoJump | src/ChessBoard/ChessMove.cs:32-45 | a move with no piece, or with a piece that is not a pawn, is never a pawn jump |
| ChessMoves.PawnJumpIgnoresFiles | src/ChessBoard/ChessMove.cs:32-45 | a pawn move is a jump exactly when it covers two ranks in either direction; changing the files does not change that |
| Rules.ValidBaseMove | src/ChessPieces/ChessPiece.cs:29-55 | an off-board destination or the piece's own square is refused; otherwise the move is accepted exactly when the destination is empty or holds an enemy |
| Rules.ValidUniversalBaseMove | src/ChessPieces/ChessPiece.cs:29-55 | the procedure over the board array computes ValidBaseMove |
| Rules.PieceBetweenAt | src/ChessPieces/ChessPiece.cs:58-70 | the obstruction test holds exactly when some square k steps along the line, 0 < k < distance, is occupied |
| Rules.PieceBetweenPieceAndMove | src/ChessPieces/ChessPiece.cs:58-70 | the loop over the generated squares answers true exactly when one of them is occupied |
| Rules.KnightIgnoresBoard | src/ChessPieces/Knight.cs:46-58 | a knight's rule does not depend on the board or the last move, and holds exactly for (1, 2) and (2, 1) offsets |
| Rules.SlidingMove | src/ChessPieces/Bishop.cs:47-65 | a bishop, rook or queen move holds exactly when the line shape of the variant holds and no square strictly between is occupied |
| Rules.QueenIsRookOrBishop | src/ChessPieces/Queen.cs:47-68 | the queen moves exactly where a rook or a bishop on its square could |
| Rules.ValidBishopMove | src/ChessPieces/Bishop.cs:47-65 | the procedure computes the bishop rule: a diagonal with nothing between |
| Rules.ValidRookMove | src/ChessPieces/Rook.cs:46-63 | the procedure computes the rook rule: a rank or file with nothing between |
| Rules.ValidQueenMove | src/ChessPieces/Queen.cs:47-68 | the procedure computes the queen rule: a diagonal or straight line with nothing between |
| Rules.Direction | src/ChessPieces/Pawn.cs:62 | white pawns travel up the ranks (+1), black pawns down (-1) |
| Rules.LastRank | src/ChessPieces/Pawn.cs:40 | the promotion rank is on the board and is the far rank in the team's direction of travel |
| Rules.ValidEnPassant | src/ChessPieces/Pawn.cs:116-127 | en passant holds exactly for a sideways move onto the file of a pawn that jumped on the last move, one rank past it; the answer carries that pawn, otherwise nothing |
| Rules.PawnMoveShape | src/ChessPieces/Pawn.cs:60-114 | a pawn move is accepted exactly when it goes one or two ranks forward and at most one file sideways, two ranks only straight, on the first move and over an empty middle square; a straight move needs an empty destination; a sideways move needs an enemy there or en passant |
| Rules.ValidPawnMove | src/ChessPieces/Pawn.cs:60-114 | the procedure, with its do-while scan up the file, computes the pawn rule |
| Rules.CastleRook | src/ChessPieces/King.cs:63-96 | the board conditions of castling hold exactly when the king is unmoved and moves two files along its own rank, the nearer corner holds an unmoved rook, and nothing stands between king and rook; the rook files are then (0, 3) or (7, 5) |
| Rules.CastleConditions | src/ChessPieces/King.cs:63-115 | the procedure answers CastleRook's rook files on success and (false, -1, -1) otherwise |
| Rules.PseudoLegalMove | src/ChessPieces/King.cs:20-33 | the attack test the check scan asks of each enemy piece is the base test plus the variant's movement rule |
| Check.MovePiece | src/ChessBoard/ChessGame.cs:136-149 | an empty source leaves the board unchanged; otherwise the piece, with its new position, stands on the destination, the source is empty, and nothing else changes |
| Check.UnMove | src/ChessBoard/ChessGame.cs:255-268 | the saved piece goes back to its origin with its position reset, and the saved destination occupant returns; with no piece, the origin is only emptied |
| Check.MovePiecePositions | src/ChessBoard/ChessGame.cs:136-149 | moving a piece keeps every stored position equal to its square |
| Check.SimulateThenRestore | src/ChessBoard/ChessGame.cs:190-232 | the simulated move followed by its undoing gives back exactly the original board |
| Check.FindKingFrom | src/ChessBoard/ChessGame.cs:235-252 | the search from a square finds the first king of the team at or after it in scan order, or the sentinel when there is none |
| Check.FindKing | src/ChessBoard/ChessGame.cs:235-252 | the sentinel (-1, -1) is returned exactly when the team has no king; otherwise the result is the team's first king in file-major order |
| Check.FirstKing | src/ChessBoard/ChessGame.cs:235-252 | a king with no king of its team before it in scan order is the one findKing reports |
| Check.NoKingNoCheck | src/ChessBoard/ChessGame.cs:202-228 | a team with no king is never reported attacked |
| Check.PostMoveScan | src/ChessBoard/ChessGame.cs:110 | the check test after a real move needs no simulation: it is the attack scan of the board as it stands |
| Check.StoppingMoveIsLegalMove | src/ChessBoard/ChessGame.cs:174-187 | for the player's own piece, the stopping-move test is exactly a legal simulated move |
| Check.SimulatedIgnoresInteractor | src/ChessPieces/Pawn.cs:43-51 | a simulated canMove does not depend on whether a promotion prompt exists |
| Check.CheckMateIffNoLegalMove | src/ChessBoard/ChessGame.cs:152-187 | the player is checkmated exactly when no piece of theirs has a move that leaves their king unattacked |
| Board.InitialGrid | src/ChessBoard/ChessBoard.cs:21-51 | every square holds its starting occupant |
| Board.ChessBoard.constructor | src/ChessBoard/ChessBoard.cs:12-19 | a fresh 8x8 board whose value is the starting position |
| Board.ChessBoard.Initialize | src/ChessBoard/ChessBoard.cs:21-51 | ranks 0, 1, 6 and 7 hold their starting occupants, and ranks 2 to 5 are untouched |
| Board.ChessBoard.InitializeTeam | src/ChessBoard/ChessBoard.cs:23-35 | one team's back rank and pawn rank are placed, and every other rank is untouched |
| Board.ChessBoard.PlaceBackRank | src/ChessBoard/ChessBoard.cs:23-30 | the back rank holds R N B Q K B N R of the team, each storing its square, and every other rank is untouched |
| Board.ChessBoard.PlacePawns | src/ChessBoard/ChessBoard.cs:33-35 | the pawn rank holds a pawn of the team on every file, and every other rank is untouched |
| Board.InitialPositionsAgree | src/ChessBoard/ChessBoard.cs:21-51 | in the starting position every piece stores the square it stands on |
| Board.InitialRanks | src/ChessBoard/ChessBoard.cs:21-51 | ranks 0 and 7 hold the back ranks of white and black, ranks 1 and 6 their pawns, and all pieces are unmoved |
| Board.InitialMiddleEmpty | src/ChessBoard/ChessBoard.cs:21-51 | ranks 2 to 5 start empty |
| Board.InitialKings | src/ChessBoard/ChessBoard.cs:27 | each team has exactly one king at the start, white's on e1 and black's on e8, and findKing reports those squares |
| Commit.State.WithCheck | src/ChessPieces/ChessPiece.cs:102-115 | the team's flag takes the new value, and the other flag and all the other fields are kept |
| Commit.PassTurn | src/ChessBoard/ChessGame.cs:108-132 | the turn passes; only the opponent's flag can rise, exactly when there is check; the game stops only on check with mate |
| Commit.CastleOf | src/ChessBoard/ChessGame.cs:271-289 | a castle answer is CastleRook's rook files, both on the board |
| Commit.EnPassantOf | src/ChessBoard/ChessGame.cs:292-310 | only a pawn can capture en passant, and its answer is the pawn's en passant answer against the last move |
| CommitFacts.HandleEffects | src/ChessBoard/ChessGame.cs:99-133 | from an empty square nothing changes and no player is returned; otherwise the board is the moved board, the last move is (piece, from, to), the turn passes, the opponent's flag becomes set exactly when their king is attacked, the mover's flag is kept, the game stops only on check with mate, and the mover is returned |
| CommitFacts.HandlePreservesValid | src/ChessBoard/ChessGame.cs:99-133 | handleMovePiece keeps stored positions equal to squares, and the last move's piece stands where it went |
| CommitFacts.TryMoveRefused | src/ChessBoard/ChessGame.cs:65-73 | a move canMove refuses changes nothing and reports failure with no player |
| CommitFacts.CastleRookStillThere | src/ChessBoard/ChessGame.cs:85-89 | after the king's own move the rook still stands in its corner, so the rook's move happens |
| CommitFacts.CompletionTurn | src/ChessBoard/ChessGame.cs:80-95 | completing the move hands the turn back for the rook's move and passes it again exactly when castling, and keeps the mover's flag |
| CommitFacts.TryMoveTurnPassesOnce | src/ChessBoard/ChessGame.cs:65-97 | a successful move returns the mover's team and leaves the turn with the opponent, castle or not; a mover who was to move ends with its check flag cleared |
| CommitFacts.CompletionGrid | src/ChessBoard/ChessGame.cs:80-94 | the final board is the mover marked as moved, then the castling rook moved, then the en passant victim removed |
| CommitFacts.TryMoveOrdinary | src/ChessBoard/ChessGame.cs:65-97 | a successful move that is neither castle nor en passant leaves the piece, marked as moved, on its destination, its origin empty, and the move recorded as the last move |
| CommitFacts.TryMoveEnPassant | src/ChessBoard/ChessGame.cs:91-94 | an en passant capture removes the pawn that jumped on the last move, which stood beside the origin on the destination file, and leaves the capturing pawn on its destination |
| CommitFacts.CastleBoard | src/ChessBoard/ChessGame.cs:79-89 | king then rook moved along one rank: both stand on their new files, both origins are empty, and every other square is kept |
| CommitFacts.TryMoveCastle | src/ChessBoard/ChessGame.cs:65-97 | a successful castle leaves the king, marked as moved, on its destination and the rook beside it; the rook's move is the last move; both origins are empty and every other square is unchanged |
| Game.PromotionKind | src/ChessBoard/ChessGame.cs:317-333 | exactly the answers queen, rook, knight and bishop name a variant, and never a pawn or a king |
| Game.ChessGame.constructor | src/ChessBoard/ChessGame.cs:10-26 | the board is the starting position; white is to move; there is no last move, no check and no interactor; the game is not running |
| Game.ChessGame.SetInteractor | src/ChessBoard/ChessGame.cs:28-31 | an interactor is present afterwards |
| Game.ChessGame.Start | src/ChessBoard/ChessGame.cs:33-36 | the game is running afterwards |
| Game.ChessGame.SelectPiece | src/ChessBoard/ChessGame.cs:39-62 | the outcome is off-board, empty, enemy or selected exactly as the converted square is off the board, empty, an enemy's or the player's; status 0 and a piece exactly when selected |
| Game.ChessGame.MoveSelectedPiece | src/ChessBoard/ChessGame.cs:136-149 | the board afterwards is MovePiece of the board before, and the answer says whether there was a piece |
| Game.ChessGame.UnMovePiece | src/ChessBoard/ChessGame.cs:255-268 | the board afterwards is UnMove of the board before, and the answer says whether there was a piece to restore |
| Game.ChessGame.FindKing | src/ChessBoard/ChessGame.cs:235-252 | the nested loops return the king search's answer |
| Game.ChessGame.ResultsInCheck | src/ChessBoard/ChessGame.cs:190-232 | the answer is whether the team's king is attacked after the move, and the board is exactly restored |
| Game.ChessGame.KingAttackedOnBoard | src/ChessBoard/ChessGame.cs:202-228 | the scan answers whether some enemy piece attacks the square findKing reports |
| Game.ChessGame.RemoveCheck | src/ChessPieces/ChessPiece.cs:102-115 | the team's flag is cleared and the other team's flag is kept |
| Game.ChessGame.MoveResultsInCheckOnSelf | src/ChessPieces/ChessPiece.cs:89-99 | the answer is whether the move leaves the piece's own king attacked; the board is unchanged |
| Game.ChessGame.ValidCastle | src/ChessPieces/King.cs:63-115 | castling is valid exactly when the board conditions hold and the first square the king crosses is not attacked; the rook files are returned on success, (-1, -1) otherwise |
| Game.ChessGame.CanMoveKing | src/ChessPieces/King.cs:20-47 | the answer is the full legality test for a king (castle or king step, no self-check); the board is unchanged; the team's flag is cleared exactly on success |
| Game.ChessGame.CanMovePawn | src/ChessPieces/Pawn.cs:23-57 | the answer is the full legality test for a pawn, including the promotion-prompt condition; the board is unchanged; the team's flag is cleared exactly on success |
| Game.ChessGame.CanMoveKnight | src/ChessPieces/Knight.cs:20-43 | the answer is the full legality test for a knight; the board is unchanged; the team's flag is cleared exactly on success |
| Game.ChessGame.CanMoveBishop | src/ChessPieces/Bishop.cs:21-44 | the answer is the full legality test for a bishop; the board is unchanged; the team's flag is cleared exactly on success |
| Game.ChessGame.CanMoveRook | src/ChessPieces/Rook.cs:20-43 | the answer is the full legality test for a rook; the board is unchanged; the team's flag is cleared exactly on success |
| Game.ChessGame.CanMoveQueen | src/ChessPieces/Queen.cs:20-44 | the answer is the full legality test for a queen; the board is unchanged; the team's flag is cleared exactly on success |
| Game.ChessGame.CanMove | src/ChessPieces/ChessPiece.cs:26 | dispatch on the variant gives the full legality test of that variant |
| Game.ChessGame.HasCheckmateStoppingMove | src/ChessBoard/ChessGame.cs:174-187 | the answer is whether some square is a stopping move; the board is unchanged; the piece's team flag ends cleared exactly when some square was a legal move |
| Game.ChessGame.FileHasStop | src/ChessBoard/ChessGame.cs:178-185 | the inner loop over one file finds a stopping move, or the scan invariant advances to the next file |
| Game.ChessGame.StopsOn | src/ChessBoard/ChessGame.cs:180 | one square's test is a stopping move, and the flag is cleared exactly when the simulated canMove accepts |
| Game.ChessGame.InCheckMate | src/ChessBoard/ChessGame.cs:152-171 | the answer is checkmate (no piece of the player has a stopping move); the board is unchanged; the player's flag ends cleared exactly when some piece had a legal move |
| Game.ChessGame.FileHasStopper | src/ChessBoard/ChessGame.cs:156-168 | the inner loop over one file finds a piece with a stopping move (so no mate), or the scan invariant advances to the next file |
| Game.ChessGame.PieceStops | src/ChessBoard/ChessGame.cs:158-167 | one square answers true exactly when it holds a piece of the player that has a stopping move |
| Game.ChessGame.PotentialValidCastle | src/ChessBoard/ChessGame.cs:271-289 | a king gets its castle answer (rook files or -1, -1); any other piece gets (false, -1, -1); the board is unchanged |
| Game.ChessGame.PotentialValidEnPassant | src/ChessBoard/ChessGame.cs:292-310 | only a pawn's sideways move after a pawn jump can be en passant, and the answer carries the last move's piece |
| Game.ChessGame.HandleMovePiece | src/ChessBoard/ChessGame.cs:99-133 | the new state and returned player are handleMovePiece's value-level effect |
| Game.ChessGame.FinishTurn | src/ChessBoard/ChessGame.cs:110-132 | the turn passes; on check the opponent's flag is set, and a mate stops the game |
| Game.ChessGame.TryMove | src/ChessBoard/ChessGame.cs:65-97 | the new state, success and player are tryMove's value-level effect, and the state invariant is kept |
| Game.ChessGame.CommitMove | src/ChessBoard/ChessGame.cs:74-96 | an accepted move ends in the committed state: castle and en passant answers taken first, then the move, then its completion |
| Game.ChessGame.MarkSelectedMoved | src/ChessBoard/ChessGame.cs:80 | the moved piece and the last move's copy of it are both marked as moved |
| Game.ChessGame.CompleteMove | src/ChessBoard/ChessGame.cs:80-93 | the state afterwards is the completion of the move: marked, the castling rook moved, the en passant victim removed |
| Game.ChessGame.MoveCastleRook | src/ChessBoard/ChessGame.cs:84-88 | with a castle, the mover moves the rook as a second handled move; otherwise nothing changes |
| Game.ChessGame.ClearSquare | src/ChessBoard/ChessGame.cs:91-94 | the square is emptied, nothing else changes, and the state invariant is kept |
| Game.ChessGame.PromotePawn | src/ChessBoard/ChessGame.cs:313-338 | an accepted answer returns a new piece of that variant at the target and empties the pawn's square; any other answer changes nothing and returns nothing |

## Left out

- The terminal interactor, the input and output, and the board printer are not modelled. Only whether an interactor is set (`hasInteractor`) is kept.
- `Pawn.canMove` calls the interactor's `promptPawnPromotion` on a real promotion move (src/ChessPieces/Pawn.cs:50). The model assumes that prompt leaves the game state unchanged, but the shipped interactor does not:
  - It calls `promotePawn(promoInput, currentX, currentX, x, y, team)`, passing the file twice (src/ChessBoard/TerminalChessInteractor.cs:139).
  - That clears the square `board[currentX][currentX]` (src/ChessBoard/ChessGame.cs:336) before `tryMove` commits the move.
  - Example: a white pawn on b7 moving to b8 empties b2. A white pawn on g7, which is square (6, 6), deletes itself. `handleMovePiece` then finds the square empty and returns "" (src/ChessBoard/ChessGame.cs:103-106), the turn does not pass, and `tryMove` still reports success.
  - The promoted piece is never placed on the board.
  - None of this is captured by the model.
- The attack scan differs from the original:
  - The original's `resultsInCheck` asks each enemy piece `canMove(..., true, ...)`, which runs `resultsInCheck` again for that piece's own team.
  - That recursion ends at the third level, normally in a throw. The second level simulates the enemy piece capturing the first team's king. At the third level `findKing` returns the sentinel (-1, -1) for that team (src/ChessBoard/ChessGame.cs:251). The first piece asked then reads `board[-1][-1]` (src/ChessPieces/ChessPiece.cs:31) and throws, leaving the simulated moves unrestored.
  - Where the original returns, its answer is that of the model's pseudo-legal `Attacks` scan: the base test plus the variant's movement rule, with no self-check test of the attacker and no clearing of check flags during the scan.
  - There is one exception: an attacking king whose side has no other piece. At the third level that side's scan finds no piece to ask, so nothing throws and `resultsInCheck` returns false (src/ChessBoard/ChessGame.cs:204-231). The original therefore does not count a lone king's attack on a square another piece defends. As a side effect, the defending piece's successful simulated `canMove` clears its team's check flag.
  - Example: white Kd6 and Rh7 against a lone black Ke8. White plays Kd6-e7. The original asks black's king whether it can take on e7. The simulated capture lets the rook take the black king, so the king's `canMove` is false (src/ChessPieces/King.cs:38). The original then accepts Ke7, leaving the kings adjacent. The model's `Attacks` counts the black king's step onto e7, so `CanMoveSpec` refuses the move.
  - Where the original throws, the model gives the scan's answer instead. This can happen on a legal move. Example: white Ke1 and Re2, black Re8 and Ka5. White plays Re2-e5, which is legal because the rook stays on the pinned file and gives check along the fifth rank. The original throws in the check test at src/ChessBoard/ChessGame.cs:110. The model's `HandleMovePiece` reports check.
- `Rules.ValidUniversalBaseMove` tests the bounds before it reads the destination. The original reads `board[x][y]` first, so an off-board destination throws there, where the model answers false. The same holds for the sentinel (-1, -1) that `findKing` returns for a team without a king: the model treats such a king as not attacked (`Check.NoKingNoCheck`).
- `Game.ChessGame.TryMove` requires its destination to be on the board, and `Game.ChessGame.PromotePawn` requires the pawn's square to be on the board when the answer is accepted. The original throws an index exception for an off-board square (src/ChessBoard/ChessGame.cs:336 for `promotePawn`). The model does not model exceptions.
- Object identity and aliasing are modelled by values. A piece is a value stored in its board cell. The last move holds a copy. Marking the mover as moved updates both copies (`Commit.MarkLastMove`).
- `Coordinates.ConvertToChessNotation` requires `letter + 97` to be a non-surrogate character code. The C# cast to `char` truncates to 16 bits, which is not modelled.
- `Coordinates.SquaresBetween` requires its two squares to be aligned (same rank, file or diagonal). The original generator never terminates on other input. Every caller passes aligned squares once the variant's shape test has passed.
- `CommitFacts.TryMoveCastle` requires the king on its home file (`p.x == 4`). This rules out a king that stands elsewhere but still has `firstMove` set, which the original's castling test does not exclude.
- Stalemate, threefold repetition, the fifty-move rule and other draws are not implemented in the original and are not modelled.
- The message strings of `selectPiece` are replaced by the `Selection` outcome. The original's empty player string is `None`.
- The loops of `inCheckMate` and `hasCheckmateStoppingMove` are split into a per-file helper and a per-square helper (`FileHasStopper`, `PieceStops`, `FileHasStop`, `StopsOn`). The tail of `tryMove` is split into `CommitMove`, `CompleteMove`, `MarkSelectedMoved`, `MoveCastleRook` and `ClearSquare`. `handleMovePiece`'s tail is split into `FinishTurn`. Each helper runs the same statements in the same order as the original.
