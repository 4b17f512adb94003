# sunbird core, modelled in Dafny

sunbird is a chess engine written three times over. Each generation has its own core:

- the first generation (`classes/`): bit utilities, a move generator and an iterative-deepening minimax with quiescence;
- the second generation (`src/`): a piece-move generator over directional shifts, an evaluator and a negamax with principal-variation search, killer moves and a transposition table;
- the third generation (`chess/` and `engine/`): a set-based board, a phased move generator, an evaluation, move ordering and a negamax with quiescence.

This project models the core of all three and proves what each promises. It has one Dafny module per source unit:

| module | models |
|---|---|
| `Bits` | 64-bit bitboards (`bv64`): single-square masks, lowest set bit, pop, population count |
| `SquareSets` | the reading of a bitboard as a set of squares; union, intersection, toggling and lowest square agree with the bit operations |
| `ChessConstants` | the constants of `chess/include/chess/internal/constants.hpp`: colours, piece types, move types and their bit flags, castling rights, row, column and edge masks |
| `ClassesUtilities` | `classes/utilities.cpp`: piece colour and value, population count, LSB, LSB_Pop, square names, piece characters, NotEdge |
| `ClassesMoveGen` | the stateful part of `classes/headers/move_gen.hh`: the move buffer, AppendMove and the chained king-safety test |
| `ChessBoard` | `chess/include/chess/board.hpp`: the Board class with its piece sets, incremental Zobrist hash, castling and en-passant stacks, and king safety |
| `ChessMoveGen` | `chess/src/move_gen.cpp` and `chess/include/chess/move_gen.hpp`: king, pawn and slider generation; the capture and quiet phases; each loop proved against a specification function |
| `SrcPieceGen` | `src/move_gen/piece_gen.cpp`: sliding quiet moves and captures by repeated shifts, proved sound and complete against the set of squares on the ray |
| `SrcEvaluator` | `src/headers/evaluator.hh`: the side modifier, the mirrored tables and the no-moves score |
| `EngineEvaluation` | `engine/src/evaluation.cpp`: material and positional sums, and the score from the mover's side |
| `EngineMoveOrdering` | `engine/src/move_ordering.cpp`: MVV-LVA capture sort and moving the table and principal-variation moves to the front |
| `SearchWindow` | the alpha-beta window arithmetic shared by the searches: fail-hard clamping, negation and the running maximum |
| `EngineSearch`, `SrcSearch`, `SrcMiniMax`, `ClassesMiniMax` | the searches of `engine/src/search_internal.cpp`, `src/search_internal.cpp`, `src/minimax.cpp` and `classes/minimax.cpp`, each proved equal, within its window, to a full-width reference value over an abstract game tree |

The searches run over an abstract game tree, a `Game` value whose fields give each node's moves, children, static score and king safety. A rank that decreases from a node to each of its children makes every tree finite. The transposition table is a log of stores threaded through the search. The time limit is an oracle on the node count.

The board tables the source does not include become function-valued parameters with the laws the code relies on. These are the ray, ring and attack tables, the Zobrist keys and the piece-square tables.

## Model

| member | source | states |
|---|---|---|
| Bits.Lsb | chess/src/move_gen.cpp:21 | lsb gives 64 (Square::None) exactly for an empty bitboard, and otherwise a square that is set with no set square below it |
| Bits.PopLsb | chess/src/move_gen.cpp:25 | lsb_pop leaves the bitboard with its lowest square cleared, one square fewer, and an empty bitboard empty |
| Bits.Ffs | classes/utilities.cpp:99 | ffsll is 0 exactly for an empty set, and otherwise one more than the index of the lowest set bit |
| Bits.ClearLowest | classes/utilities.cpp:94 | the step x &= x - 1 clears exactly the lowest square and lowers the population count by one |
| Bits.PopLsbHas | chess/src/move_gen.cpp:25 | after lsb_pop, a square is set iff it was set before and is not the popped square |
| Bits.EmptyIffNoSquare | classes/utilities.cpp:92 | a bitboard is zero exactly when its population count is zero, so the loop `while (x)` stops when every square is counted |
| SquareSets.Flip | chess/include/chess/board.hpp:187-191 | x ^= ToBB(square) read on sets: the square is in the result iff it was not in the set, and nothing else changes |
| SquareSets.Xor | chess/src/move_gen.cpp:48 | a ^ b on square sets, which is a minus b when b is inside a |
| SquareSets.Single | chess/src/move_gen.cpp:27 | ToBB(square) is the one-square set, and empty for Square::None |
| SquareSets.Lowest | chess/src/move_gen.cpp:21 | lsb on a set: Square::None exactly for the empty set, otherwise a member no larger than any other member |
| SquareSets.PopLowest | chess/src/move_gen.cpp:25 | lsb_pop on a set removes its lowest square and nothing else: one square fewer |
| SquareSets.LowestFromIsMin | chess/src/move_gen.cpp:21 | the least square of a set from n on is below every other such square |
| SquareSets.InSquaresOf | chess/include/chess/board.hpp:131-134 | a square belongs to the set reading of a bitboard iff its bit is set |
| SquareSets.SquaresOfMask | chess/src/move_gen.cpp:27 | the set reading of ToBB(square) is that square alone |
| SquareSets.SquaresOfOr | chess/src/move_gen.cpp:48 | the set reading turns bitwise OR into union |
| SquareSets.SquaresOfAnd | chess/src/move_gen.cpp:24 | the set reading turns bitwise AND into intersection |
| SquareSets.SquaresOfXorMask | chess/src/move_gen.cpp:48 | XOR with one square's mask toggles exactly that square of the set |
| SquareSets.SquaresOfZero | chess/src/move_gen.cpp:23 | the empty bitboard holds no square |
| SquareSets.LsbIsLowest | chess/src/move_gen.cpp:21 | the count of trailing zeros of a bitboard is the lowest square of its set reading |
| SquareSets.SetMin | chess/src/move_gen.cpp:21 | the lowest square of a set is its least member |
| SquareSets.PopCountIsSize | chess/include/chess/board.hpp:123 | popcount of a bitboard is the number of squares in its set reading |
| ChessConstants.ColorIndex | chess/include/chess/internal/constants.hpp:30 | White and Black index the two per-colour arrays (0 and 1); only None falls outside them |
| ChessConstants.Opposite | chess/src/move_gen.cpp:20 | the opponent of White or Black is the other colour, with the other index; None stays None |
| ChessConstants.TypeIndex | chess/include/chess/internal/constants.hpp:32-35 | the six piece types take indices 0 to 5 in PIECES order; only None takes 6 |
| ChessConstants.RowAt | chess/include/chess/internal/constants.hpp:79-89 | each of the rows 1 to 8 is a real row, never Row::None |
| ChessConstants.CastlingOf | chess/include/chess/internal/constants.hpp:195-197 | casting a two-bit value back to Castling recovers that value |
| ChessConstants.CaptureBitMarksCaptures | chess/include/chess/internal/constants.hpp:161-184 | CaptureBit is set in a move type's value exactly when the type captures |
| ChessConstants.PromotionBitMarksPromotions | chess/include/chess/internal/constants.hpp:161-183 | PromotionBit is set exactly in the eight promoting move types |
| ChessConstants.CastlingBitMarksCastles | chess/include/chess/internal/constants.hpp:161-185 | with the promotion and capture bits clear, CastlingBit picks out exactly the two castles |
| ChessConstants.PromotionCaptureAddsCaptureBit | chess/include/chess/internal/constants.hpp:177-184 | PromotionCapturesMoves[i] is PromotionMoves[i] with CaptureBit added, which PromotionMoves[i] lacks |
| ChessConstants.MoveTypeValueInjective | chess/include/chess/internal/constants.hpp:160-176 | distinct move types have distinct values, so the value identifies the type |
| ChessConstants.CastlingAndCases | chess/include/chess/internal/constants.hpp:187-193 | operator& holds exactly when the flags share a bit: All has both sides, None has none, King and Queen are disjoint, and & is symmetric |
| ChessConstants.CastlingDeterminedBySides | chess/include/chess/internal/constants.hpp:187-193 | two flag sets are equal iff they agree on the king-side and queen-side & tests |
| ChessConstants.CastlingXorLaws | chess/include/chess/internal/constants.hpp:195-197 | operator^ is an involution, commutative, has None as identity and cancels itself; King ^ Queen is All |
| ChessConstants.CastlingXorToggles | chess/include/chess/internal/constants.hpp:191-197 | ^ with one side flips exactly that side's & test and leaves the other side's alone |
| ChessConstants.RowLayout | chess/include/chess/internal/constants.hpp:79-89 | row k is 0xff shifted up by 8(k-1), and distinct rows are disjoint |
| ChessConstants.RowsCoverBoard | chess/include/chess/internal/constants.hpp:79-89 | the eight rows together cover every square |
| ChessConstants.ColumnIndexIsFile | chess/include/chess/internal/constants.hpp:117-126 | COLUMN_INDEX[sq] is sq % 8 |
| ChessConstants.ColumnBySquareHoldsSquare | chess/include/chess/internal/constants.hpp:94-115 | COLUMN_BY_SQUARE[sq] is the file sq % 8, and that column's mask holds sq |
| ChessConstants.NotEdgeLayout | chess/include/chess/internal/constants.hpp:145-154 | each cardinal NotEdge mask is the board minus its border row or column, and each diagonal mask is the AND of its two cardinals |
| ChessConstants.EdgeAndCorner | chess/include/chess/internal/constants.hpp:27-28 | EDGE is the union of the border rows and columns, and CORNER is the four corner squares, all of them on the edge |
| ChessConstants.CastlingMasksCover | chess/include/chess/internal/constants.hpp:74-77 | the attack mask holds the king's start and landing squares; the block mask holds the landing square and the rook's landing square but not the king's start; the king lands two files away |
| ClassesUtilities.GetPieceColor | classes/utilities.cpp:58-63 | the colour is never None, and it is White exactly for an upper-case char |
| ClassesUtilities.GetPieceValue | classes/utilities.cpp:69-86 | the switch over the type gives the value table's entry at the type's index, None included |
| ClassesUtilities.PopCount | classes/utilities.cpp:90-97 | Kernighan's loop counts exactly the set bits |
| ClassesUtilities.LSB | classes/utilities.cpp:98-101 | LSB is -1 exactly for an empty set, and otherwise the index of the lowest set bit |
| ClassesUtilities.LSBPopAsWritten | classes/utilities.cpp:103-107 | as written, the returned index is LSB(x) but x comes back unchanged, its lowest bit still set and its count unchanged |
| ClassesUtilities.LSBPop | classes/utilities.cpp:103-107 | as intended, the returned index is LSB(x) and x loses exactly its lowest bit (an empty x stays empty) |
| ClassesUtilities.PieceCharRoundTrip | classes/utilities.cpp:7-63 | GetPieceType inverts GetPieceChar for every real type, and the char's case gives White for White and Black for any other colour |
| ClassesUtilities.UnknownPiece | classes/utilities.cpp:21-62 | a char that is no piece letter gives PieceType::None; None maps to 'O' for both colours, and 'O' counts as White |
| ClassesUtilities.GetSquareInverse | classes/utilities.cpp:65-67 | for 0 <= x, y < 8, GetSquare is on the board and its file and rank recover x and y |
| ClassesUtilities.NotEdgeComposition | classes/utilities.cpp:109-130 | each diagonal's mask is the AND of its two cardinals, each cardinal mask clears its border row or column, and only Direction::None gives 0 |
| ClassesMoveGen.MoveGen.constructor | classes/headers/move_gen.hh:14-31 | a generator for a colour holds that colour and its opponent |
| ClassesMoveGen.MoveGen.IsKingSafeChain | classes/headers/move_gen.hh:52-62 | each overload supplies one argument: the own king, the opponent's pieces, the board's occupancy; so IsKingSafe(board) is the four-argument test on the current board |
| ClassesMoveGen.MoveGen.AppendMove | classes/headers/move_gen.hh:64-67 | an index inside the array stores the move there and adds one to the U8 count; an index outside it (where .at throws) changes neither, and the flag says which |
| ChessBoard.PlaceKeepsInvariant | chess/include/chess/board.hpp:175-183 | placing a piece keeps the board invariant the closing assert checks (occupancy is the union of the colour sets) |
| ChessBoard.PlacePutsPiece | chess/include/chess/board.hpp:175-183 | after PlacePiece the square is in the type's, the colour's and the occupied set, the type table names the type, the square's key is flipped, and every other type's and the other colour's set is unchanged |
| ChessBoard.RemoveKeepsInvariant | chess/include/chess/board.hpp:185-193 | RemovePiece keeps the invariant exactly when the other colour does not hold the square, the condition under which the closing assert holds |
| ChessBoard.RemoveUndoesPlace | chess/include/chess/board.hpp:175-193 | removing a piece just placed on an empty square restores every field, the Zobrist hash included |
| ChessBoard.FlipTwice | chess/include/chess/board.hpp:181-191 | flipping the same Zobrist key twice restores the hash |
| ChessBoard.FlipCastlingMembers | chess/include/chess/board.hpp:48-66 | after the castling flips a key is in the hash iff it was before, toggled when the two sets of rights disagree on it |
| ChessBoard.PushSameRightsKeepsHash | chess/include/chess/board.hpp:48-56 | pushing the rights already on top flips no key |
| ChessBoard.PopCastlingUndoesPush | chess/include/chess/board.hpp:48-66 | PopCastling's flips undo those of the matching PushCastling, restoring the hash |
| ChessBoard.CastlingHashTracksRights | chess/include/chess/board.hpp:48-56 | if the hash carries exactly the castling keys of the rights on top, after PushCastling it carries exactly those of the new rights |
| ChessBoard.EPHashTracksTop | chess/include/chess/board.hpp:69-82 | PushEP moves the hash from the old top column's key to the new column's, and PopEP's flips bring it back |
| ChessBoard.Board.constructor | chess/include/chess/board.hpp:19-22 | a new board is empty: no pieces, every square None, no turn, ply 0, and the EP and castling stacks hold Column::None and {None, None} |
| ChessBoard.Board.GetType | chess/include/chess/board.hpp:116-119 | the type on a square is the square-to-type table's entry |
| ChessBoard.Board.GetPiecePosOfType | chess/include/chess/board.hpp:126-129 | the squares of a type are that type's set |
| ChessBoard.Board.GetPiecePos | chess/include/chess/board.hpp:131-134 | a square holds a piece of that colour and type iff it is in both sets; all such squares are occupied |
| ChessBoard.Board.GetPieceCount | chess/include/chess/board.hpp:121-124 | the count is zero exactly when there is no such piece, and never exceeds the occupied squares |
| ChessBoard.Board.GetColorBB | chess/include/chess/board.hpp:167 | a colour's squares are all occupied |
| ChessBoard.Board.ResetMoveCount | chess/include/chess/board.hpp:93 | the move counter becomes 0 and the position is unchanged |
| ChessBoard.Board.GetColorAt | chess/include/chess/board.hpp:152-159 | White iff White holds the square, Black iff only Black does, None exactly on empty squares |
| ChessBoard.Board.IsKingSafeWithEnemy | chess/include/chess/board.hpp:138-140 | the two-argument form asks the full test about the side to move's king |
| ChessBoard.Board.IsKingSafeWithOccupancy | chess/include/chess/board.hpp:142-144 | the one-argument form takes the opponent's pieces as the enemy |
| ChessBoard.Board.IsKingSafe | chess/include/chess/board.hpp:146 | the no-argument form asks about the current occupancy, the opponent's pieces and the own king |
| ChessBoard.Board.PlacePiece | chess/include/chess/board.hpp:175-183 | the invariant is kept and the new state is Placed of the old (see PlacePutsPiece) |
| ChessBoard.Board.PlacePieceChar | chess/include/chess/board.hpp:171-173 | placing by char places the char's type in the char's colour |
| ChessBoard.Board.RemovePiece | chess/include/chess/board.hpp:185-193 | on a square the other colour does not hold, the invariant is kept and the new state is Removed of the old |
| ChessBoard.Board.PushCastling | chess/include/chess/board.hpp:48-56 | the rights are pushed, the hash is flipped for each side whose right changes against the old top, nothing else changes |
| ChessBoard.Board.PopCastling | chess/include/chess/board.hpp:57-66 | the top is popped and the hash flipped for each side on which the popped rights and the new top differ; nothing else changes |
| ChessBoard.Board.PushEP | chess/include/chess/board.hpp:69-75 | the column is pushed, the old top's key and the new column's key are flipped; nothing else changes |
| ChessBoard.Board.PopEP | chess/include/chess/board.hpp:76-82 | the top is popped, its key and the new top's key are flipped; nothing else changes |
| ChessBoard.Board.SetTurn | chess/include/chess/board.hpp:195-198 | the turn is the colour and the opponent its opposite; nothing else changes |
| ChessBoard.Board.SwitchTurn | chess/include/chess/board.hpp:200-203 | the turn passes to the opponent and the opponent becomes the opposite of the new turn; nothing else changes |
| ChessMoveGen.DrainMembers | chess/src/move_gen.cpp:24-29 | a move is appended by an lsb_pop loop over a set iff some square of the set emits it |
| ChessMoveGen.DrainSource | chess/src/move_gen.cpp:24-29 | every move of an lsb_pop loop comes from a square of the set, which emits it |
| ChessMoveGen.DrainPiecesSource | chess/src/move_gen.cpp:60-61 | every move of a loop over pieces comes from one of those pieces |
| ChessMoveGen.Promotions | chess/src/move_gen.cpp:67-68 | the promotion loop appends one move per kind, in order, all from the same square to the same square |
| ChessMoveGen.PromotionsKinds | chess/src/move_gen.cpp:67-68 | each promotion move has one of the listed kinds, the pawn's square and the target |
| ChessMoveGen.QuietEmitMove | chess/src/move_gen.cpp:125-127 | a slider's quiet loop step emits only Quiet from the piece to the square, and only when the king is safe after it |
| ChessMoveGen.CaptureEmitMove | chess/src/move_gen.cpp:150-153 | a slider's capture loop step emits only Capture from the piece to the blocker, and only when the king is safe with the blocker removed |
| ChessMoveGen.QuietTargetsBehind | chess/src/move_gen.cpp:118-122 | rings past a blocker's ring hold no quiet target on the ray behind that blocker |
| ChessMoveGen.CaptureTargetsBehind | chess/src/move_gen.cpp:144-147 | rings past a blocker's ring hold no capture target on the ray behind that blocker |
| ChessMoveGen.QuietRingsMoves | chess/src/move_gen.cpp:115-129 | every move of the ring loop is a safe quiet slider step to an unblocked square on a ring from the current one on |
| ChessMoveGen.AttackRingsMoves | chess/src/move_gen.cpp:142-155 | every move of the ring loop is a safe capture of an occupied unblocked square on a ring from the current one on |
| ChessMoveGen.QuietNotBehindBlocker | chess/src/move_gen.cpp:118-128 | once a piece stands on a ring, no quiet move goes to a square on the ray behind it |
| ChessMoveGen.AttackNotBehindBlocker | chess/src/move_gen.cpp:144-154 | once a piece stands on a ring, no capture takes a piece on the ray behind it |
| ChessMoveGen.SliderQuietMoves | chess/src/move_gen.cpp:108-131 | every move of GenerateQuiet is Quiet, from a piece of that type and colour, to an empty square the piece attacks, and leaves the king safe |
| ChessMoveGen.SliderAttackMoves | chess/src/move_gen.cpp:134-157 | every move of GenerateAttack is Capture, from a piece of that type and colour, to an enemy square the piece attacks, and leaves the king safe |
| ChessMoveGen.KingQuietEmitMove | chess/src/move_gen.cpp:25-28 | the king's quiet step emits Quiet from the king to the square, only when the king is safe there |
| ChessMoveGen.KingCaptureEmitMove | chess/src/move_gen.cpp:46-49 | the king's capture step emits Capture from the king to the square, only when the king is safe there with the piece removed |
| ChessMoveGen.KingQuietShape | chess/src/move_gen.cpp:22-41 | every quiet-phase king move starts on the king and is a safe step to an empty unattacked neighbour, or a castle the rights and masks allow |
| ChessMoveGen.CastleMoveShape | chess/src/move_gen.cpp:30-41 | a castle is generated only when the side allows it, nothing blocks and nothing attacks, and goes two squares along the row |
| ChessMoveGen.KingCaptureShape | chess/src/move_gen.cpp:43-50 | every king capture starts on the king and takes an enemy piece on a neighbouring square |
| ChessMoveGen.KingMovesShape | chess/src/move_gen.cpp:12-52 | every king move starts on the king; captures only appear outside quiet mode and other moves only outside attack mode |
| ChessMoveGen.KingStepGenerated | chess/src/move_gen.cpp:22-29 | outside attack mode, every safe step to an empty unattacked neighbour is generated |
| ChessMoveGen.KingCaptureGenerated | chess/src/move_gen.cpp:43-50 | outside quiet mode, every safe capture of an unattacked enemy neighbour is generated |
| ChessMoveGen.CastleGenerated | chess/src/move_gen.cpp:30-41 | outside attack mode, an allowed castle is generated |
| ChessMoveGen.SinglePushMove | chess/src/move_gen.cpp:63-71 | a single push goes one square ahead and leaves the king safe; from the row before the last it is a promotion, otherwise Quiet |
| ChessMoveGen.DoublePushMove | chess/src/move_gen.cpp:72-76 | a double push starts on the pawn row, needs both squares free, leaves the king safe and is DoublePawnPush |
| ChessMoveGen.PawnPushShape | chess/src/move_gen.cpp:62-78 | every push starts on the pawn with the square ahead free, and is Quiet, a promotion or a double push, each under its conditions |
| ChessMoveGen.PromotionPushes | chess/src/move_gen.cpp:66-68 | a safe free push from the row before the last yields the four promotions first and no Quiet move |
| ChessMoveGen.SinglePushPromotes | chess/src/move_gen.cpp:66-68 | from the row before the last, a safe single push is exactly the four promotions |
| ChessMoveGen.DoublePushKind | chess/src/move_gen.cpp:75 | the two-step push is a DoublePawnPush from the pawn |
| ChessMoveGen.PawnCaptureEmitMove | chess/src/move_gen.cpp:82-91 | a pawn capture step emits a capture (not en passant) to the attacked square, a promotion capture iff from the row before the last, and only when the king stays safe |
| ChessMoveGen.PawnCaptureShape | chess/src/move_gen.cpp:80-102 | every pawn capture starts on the pawn and is a capture type; en passant goes to the EP square on the right row, others take an enemy piece |
| ChessMoveGen.OnePawnKinds | chess/src/move_gen.cpp:62-103 | a pawn's captures appear only outside quiet mode and its pushes only outside attack mode |
| ChessMoveGen.PawnPushKinds | chess/src/move_gen.cpp:62-78 | a push is never a capture |
| ChessMoveGen.PawnCaptureKinds | chess/src/move_gen.cpp:79-103 | a pawn capture, en passant or not, is a capture type |
| ChessMoveGen.PawnMovesShape | chess/src/move_gen.cpp:55-105 | every pawn move starts on a pawn of that colour, and its kind matches the mode |
| ChessMoveGen.GenerateOfKinds | chess/src/move_gen.cpp:160-187 | Generate<Attack, t> yields only captures and Generate<Quiet, t> none |
| ChessMoveGen.PhaseKinds | chess/include/chess/move_gen.hpp:22-37 | the attack phase yields only captures, the quiet phase none |
| ChessMoveGen.CapturesFirst | chess/include/chess/move_gen.hpp:20-39 | in GenerateMoves<All> every capture comes before every non-capture |
| ChessMoveGen.AllMovesKinds | chess/include/chess/move_gen.hpp:20-39 | GenerateMoves<Attack> yields only captures, GenerateMoves<Quiet> none |
| ChessMoveGen.LsbPop | chess/src/move_gen.cpp:25 | lsb_pop takes a square of the set and leaves the rest, one step of the drain loop |
| ChessMoveGen.LsbPopPiece | chess/src/move_gen.cpp:61 | lsb_pop over pieces is one step of the loop over pieces |
| ChessMoveGen.LsbPopRay | chess/src/move_gen.cpp:122 | lsb_pop over blockers is one step of removing their rays |
| ChessMoveGen.AppendPromotions | chess/src/move_gen.cpp:67-68 | the loop appends the promotions, leaving the earlier moves in place |
| ChessMoveGen.KingQuietLoop | chess/src/move_gen.cpp:23-29 | the loop appends the drain of the king's quiet targets |
| ChessMoveGen.KingCaptureLoop | chess/src/move_gen.cpp:44-50 | the loop appends the drain of the king's capture targets |
| ChessMoveGen.AppendCastle | chess/src/move_gen.cpp:30-41 | appends the side's castle exactly when it is allowed |
| ChessMoveGen.GenerateKingMoves | chess/src/move_gen.cpp:12-52 | appends exactly KingMoves for the mode |
| ChessMoveGen.AppendKingQuiet | chess/src/move_gen.cpp:22-41 | appends the quiet steps, then the two castles |
| ChessMoveGen.PawnPushMoves | chess/src/move_gen.cpp:63-77 | appends exactly the pawn's pushes |
| ChessMoveGen.AppendSinglePush | chess/src/move_gen.cpp:65-70 | appends exactly the single push, with its promotions |
| ChessMoveGen.PawnCaptureLoop | chess/src/move_gen.cpp:80-92 | appends the drain of the pawn's attacked enemy squares |
| ChessMoveGen.EnPassantMove | chess/src/move_gen.cpp:93-102 | appends exactly the en-passant capture, when it is available and safe |
| ChessMoveGen.PawnAttackMoves | chess/src/move_gen.cpp:79-103 | appends the captures then en passant |
| ChessMoveGen.OnePawnMoves | chess/src/move_gen.cpp:61-103 | appends one pawn's moves for the mode |
| ChessMoveGen.GeneratePawnMoves | chess/src/move_gen.cpp:55-105 | appends exactly PawnMoves for the mode |
| ChessMoveGen.RemoveRays | chess/src/move_gen.cpp:121-122 | the unblocked set loses exactly the rays behind the blockers |
| ChessMoveGen.QuietLoop | chess/src/move_gen.cpp:124-128 | appends the drain of one ring's potential quiet moves |
| ChessMoveGen.CaptureLoop | chess/src/move_gen.cpp:149-154 | appends the drain of one ring's enemy blockers |
| ChessMoveGen.QuietPieceMoves | chess/src/move_gen.cpp:114-129 | appends the quiet moves of all rings for one piece |
| ChessMoveGen.GenerateQuiet | chess/src/move_gen.cpp:108-131 | appends exactly SliderQuiet |
| ChessMoveGen.AttackPieceMoves | chess/src/move_gen.cpp:141-155 | appends the captures of all rings for one piece |
| ChessMoveGen.GenerateAttack | chess/src/move_gen.cpp:134-157 | appends exactly SliderAttack |
| ChessMoveGen.Generate | chess/src/move_gen.cpp:160-187 | appends exactly GenerateOf for the mode and piece type |
| ChessMoveGen.GeneratePhase | chess/include/chess/move_gen.hpp:22-36 | appends the six Generate calls, Pawn to King |
| ChessMoveGen.GenerateMoves | chess/include/chess/move_gen.hpp:20-39 | the list is the attack phase then the quiet phase, as the mode selects |
| ChessMoveGen.GenerateMovesForTurn | chess/include/chess/move_gen.hpp:41-44 | the list is GenerateMoves for the side to move |
| ChessMoveGen.GenerateMovesOfType | chess/include/chess/move_gen.hpp:47-73 | the list is one piece type's moves, empty for PieceType::None |
| SrcPieceGen.OppositeDirection | src/move_gen/piece_gen.cpp:24-47 | the opposite direction is a real direction whose step undoes the original's |
| SrcPieceGen.Dist | src/move_gen/piece_gen.cpp:18 | no square is more than seven steps from the edge in any direction |
| SrcPieceGen.StepOnBoard | src/move_gen/piece_gen.cpp:18 | a step from a square inside d's NotEdge mask stays on the board, one step nearer that edge, without wrapping |
| SrcPieceGen.LeastIsLowest | src/move_gen/piece_gen.cpp:23-46 | the square LSB_Pop returns is the lowest square of the set |
| SrcPieceGen.LsbPop | src/move_gen/piece_gen.cpp:23-46 | LSB_Pop returns the lowest square and leaves the set without it, one square smaller |
| SrcPieceGen.AdvanceWithin | src/move_gen/piece_gen.cpp:17-18 | each round moves every frontier square one step nearer the edge |
| SrcPieceGen.WithinBound | src/move_gen/piece_gen.cpp:17-29 | a non-empty frontier has walked at most eight rounds, so `while (pieces)` ends |
| SrcPieceGen.WrittenAppend | src/move_gen/piece_gen.cpp:26-49 | AppendMove at start + moveCount extends the written list by that move |
| SrcPieceGen.PieceGen.constructor | src/move_gen/piece_gen.cpp:18-48 | a generator holds its colour and the opposite colour |
| SrcPieceGen.PieceGen.AppendMove | src/move_gen/piece_gen.cpp:26-49 | the move goes to slot index and the count goes up by one; every other slot is unchanged |
| SrcPieceGen.PieceGen.GetSlidingMoves | src/move_gen/piece_gen.cpp:12-33 | the array from startIndex on holds exactly the quiet list of the slide, the count is its length, and nothing else changes |
| SrcPieceGen.PieceGen.QuietRound | src/move_gen/piece_gen.cpp:18-29 | one outer round shifts the frontier, writes its empty squares' moves, and keeps the frontier within the board bound |
| SrcPieceGen.PieceGen.QuietLoop | src/move_gen/piece_gen.cpp:21-27 | the inner loop writes the moves of every square still to pop, lowest first |
| SrcPieceGen.PieceGen.QuietMove | src/move_gen/piece_gen.cpp:23-26 | one pop writes the quiet move from the origin when it passes the king-safety test |
| SrcPieceGen.PieceGen.GetSlidingAttacks | src/move_gen/piece_gen.cpp:35-56 | the array from startIndex on holds exactly the capture list of the slide, the count is its length, nothing else changes |
| SrcPieceGen.PieceGen.AttackRound | src/move_gen/piece_gen.cpp:41-52 | one outer round shifts the frontier, writes the captures of its occupied squares, and keeps only the empty squares walking |
| SrcPieceGen.PieceGen.AttackLoop | src/move_gen/piece_gen.cpp:45-50 | the inner loop writes the captures of every occupied square still to pop, lowest first |
| SrcPieceGen.PieceGen.AttackMove | src/move_gen/piece_gen.cpp:46-49 | one pop writes the capture, with the captured type, when it passes the king-safety test |
| SrcPieceGen.PieceGen.GetALlMoves | src/move_gen/piece_gen.cpp:4-10 | the captures are written from startIndex on and the quiet moves right after them; the count is the total |
| SrcPieceGen.Place | src/move_gen/piece_gen.cpp:7-8 | a piece type's list is written slot by slot from start on, and the count is its length |
| SrcPieceGen.WrittenTwice | src/move_gen/piece_gen.cpp:7-8 | writing one list and then another right after it writes their concatenation |
| SrcPieceGen.AheadOnBoard | src/move_gen/piece_gen.cpp:18 | up to Dist(s, d) steps from s stay on the board and never wrap onto another row |
| SrcPieceGen.FrontierSound | src/move_gen/piece_gen.cpp:17-19 | every square of the frontier after k rounds is the end of a clear k-step slide from a piece |
| SrcPieceGen.FrontierComplete | src/move_gen/piece_gen.cpp:17-19 | the end of every clear k-step slide from a piece is in the frontier after k rounds |
| SrcPieceGen.FrontierWithin | src/move_gen/piece_gen.cpp:17-29 | the frontier after k rounds is k steps nearer the edge |
| SrcPieceGen.FrontierEmpty | src/move_gen/piece_gen.cpp:17 | once the frontier is empty it stays empty |
| SrcPieceGen.ShiftSingle | src/move_gen/piece_gen.cpp:24-47 | shifting one square that stays in the word moves it by n offsets |
| SrcPieceGen.OriginIsStart | src/move_gen/piece_gen.cpp:24-47 | the origin a move computes, the target shifted back `counter` steps, is the square the slide started from |
| SrcPieceGen.QuietEmitOf | src/move_gen/piece_gen.cpp:24-26 | the quiet move onto a k-step target starts on the slide's start, and is written iff it passes the test with that origin |
| SrcPieceGen.CaptureEmitOf | src/move_gen/piece_gen.cpp:47-49 | the capture onto a k-step target starts on the slide's start, and is written iff it passes the test with that origin |
| SrcPieceGen.QuietsSound | src/move_gen/piece_gen.cpp:17-30 | every quiet move of the rounds after k belongs to a square of a later frontier |
| SrcPieceGen.QuietsComplete | src/move_gen/piece_gen.cpp:17-30 | the quiet move of a square of a later frontier is among those of the rounds after k |
| SrcPieceGen.TakesSound | src/move_gen/piece_gen.cpp:40-53 | every capture of the rounds after k is that of an occupied square a later shifted frontier reaches |
| SrcPieceGen.TakesComplete | src/move_gen/piece_gen.cpp:40-53 | the capture of an occupied square a later shifted frontier reaches is among those of the rounds after k |
| SrcPieceGen.QuietSlideSound | src/move_gen/piece_gen.cpp:12-33 | every move GetSlidingMoves writes is a quiet slide of one of the pieces over open squares that passed the king-safety test |
| SrcPieceGen.QuietSlideComplete | src/move_gen/piece_gen.cpp:12-33 | every quiet slide of one of the pieces that passes the king-safety test is written |
| SrcPieceGen.QuietsExactly | src/move_gen/piece_gen.cpp:12-33 | GetSlidingMoves writes a move iff it is a quiet slide of one of the pieces in direction d |
| SrcPieceGen.CaptureSlideSound | src/move_gen/piece_gen.cpp:35-56 | every move GetSlidingAttacks writes is a capturing slide: open squares, then a non-own occupied square, with its type recorded |
| SrcPieceGen.CaptureSlideComplete | src/move_gen/piece_gen.cpp:35-56 | every capturing slide that passes the king-safety test is written |
| SrcPieceGen.TakesExactly | src/move_gen/piece_gen.cpp:35-56 | GetSlidingAttacks writes a move iff it is a capturing slide of one of the pieces in direction d |
| SrcPieceGen.NotEdgeIsMask | chess/include/chess/internal/constants.hpp:145-153 | the set of squares a one-step slide in direction d may start from is exactly the NotEdge mask of d: the cardinal masks clear their border row or column, and each diagonal mask is the AND of its two cardinal ones |
| SrcEvaluator.EvaluateNoMoves | src/headers/evaluator.hh:36-43 | no legal move is -Inf when the king is attacked (checkmate) and 0 otherwise (stalemate) |
| SrcEvaluator.SideModifierFlips | src/headers/evaluator.hh:53-58 | the other side sees the negated score, SideModifier is its own inverse, and Color::None is treated like White |
| SrcEvaluator.SideModifierAgainstEngine | src/headers/evaluator.hh:53-58 | for White and Black it agrees with the third generation's SideModifier; for Color::None the two differ by sign |
| SrcEvaluator.DifferencesAntisymmetric | src/headers/evaluator.hh:45-51 | EvaluatePositionValue and EvaluatePawnStructure are White minus Black: mirroring negates them, and equal sides give 0 |
| SrcEvaluator.EvaluateSymmetric | src/headers/evaluator.hh:30-34 | the mirrored position seen by the other side scores the same; the other side sees the negation; the commented-out pawn structure does not count |
| SrcEvaluator.NoMovesAgainstEngine | src/headers/evaluator.hh:36-43 | checkmate scores below stalemate, and EvaluateNoMoves agrees with the engine's EvalNoMove |
| EngineEvaluation.SideModifierFlips | engine/src/evaluation.cpp:5 | seen by the other side a score changes sign, and applying SideModifier twice gives back the score |
| EngineEvaluation.MaterialAntisymmetric | engine/src/evaluation.cpp:7-16 | swapping the White and Black piece counts negates the material balance |
| EngineEvaluation.MaterialEven | engine/src/evaluation.cpp:7-16 | equal piece counts on both sides balance to zero, whatever the piece values |
| EngineEvaluation.Counts | engine/src/evaluation.cpp:10-11 | one colour's five counts, Pawn to Queen, are the sizes of its piece sets of those types |
| EngineEvaluation.BoardReads | engine/src/evaluation.cpp:10-24 | `(PieceType)i` names a real piece type, and GetPieceCount and GetPiecePos read that type's set of the board |
| EngineEvaluation.EvalMaterial | engine/src/evaluation.cpp:7-16 | the result is the sum over Pawn to Queen of (White count - Black count) * piece value; the king is not counted |
| EngineEvaluation.SquareSumAny | engine/src/evaluation.cpp:26-30 | adding a table's entries over a set of squares may take any square out first: the LSB_Pop order does not matter |
| EngineEvaluation.EvalPositionOf | engine/src/evaluation.cpp:20-34 | the result is the sum, over all six piece types of `color`, of that colour's table entries at the squares the pieces stand on |
| EngineEvaluation.EvalPosition | engine/src/evaluation.cpp:18 | the positional value is that of the side to move's pieces only |
| EngineEvaluation.ScoreForBlack | engine/src/evaluation.cpp:18-39 | with Black to move the score is Black's material balance minus Black's positional sum: the side-to-move positional term is negated with the material |
| EngineEvaluation.Eval | engine/src/evaluation.cpp:36-39 | the score is the side to move's positional value plus the White-minus-Black material balance, negated when Black is to move |
| EngineEvaluation.EvalNoMove | engine/src/evaluation.cpp:41-48 | no legal move scores -Inf when the king is attacked (checkmate) and 0 when it is safe (stalemate) |
| EngineMoveOrdering.BeforeIsKeyOrder | engine/src/move_ordering.cpp:8-18 | the MVVLVA comparator (a more valuable captured piece first, then a less valuable mover) holds exactly when one move's key is greater than the other's, so it is a strict weak order as std::sort needs |
| EngineMoveOrdering.InsertPermutes | engine/src/move_ordering.cpp:8 | inserting a capture into the sorted part adds exactly that move |
| EngineMoveOrdering.InsertDescends | engine/src/move_ordering.cpp:8 | inserting a capture into a list of descending keys keeps the keys descending |
| EngineMoveOrdering.SortCapturesSorts | engine/src/move_ordering.cpp:8-18 | sorting the captures rearranges them without loss or duplication, and no capture ends behind one the comparator ranks below it |
| EngineMoveOrdering.SortDescends | engine/src/move_ordering.cpp:8-18 | the sorted captures have descending keys |
| EngineMoveOrdering.MVVLVA | engine/src/move_ordering.cpp:6-19 | the capture prefix `[0, attacks)` is replaced by its sorted order, and the quiet moves after it and the rest of the buffer are unchanged |
| EngineMoveOrdering.Memmove | engine/src/move_ordering.cpp:28-42 | after std::memmove the n moves that stood at src before the call stand at dst, even when the ranges overlap; every other slot is unchanged |
| EngineMoveOrdering.FirstIndex | engine/src/move_ordering.cpp:26-40 | the loop stops at the first index holding the move: that slot holds it and no earlier slot does |
| EngineMoveOrdering.MoveToFrontPermutes | engine/src/move_ordering.cpp:27-44 | moving a move to the front drops and duplicates no move |
| EngineMoveOrdering.MoveToFrontPlaces | engine/src/move_ordering.cpp:27-44 | a present move ends at index 0, the moves before it move up one place and those after it keep theirs; an absent move leaves the list unchanged |
| EngineMoveOrdering.MoveToFrontIdempotent | engine/src/move_ordering.cpp:36-47 | moving the same move to the front twice is the same as moving it once |
| EngineMoveOrdering.MoveToFrontOfAsWritten | engine/src/move_ordering.cpp:26-45 | with the first memmove copying size - i moves, the list ends with the first occurrence of the move at the front, and the read one past the list happens exactly when the move is in the list |
| EngineMoveOrdering.MoveToFrontOf | engine/src/move_ordering.cpp:26-45 | with the first memmove copying size - i - 1 moves, the list ends with the first occurrence of the move at the front, the others in order, and nothing past the list changed or read |
| EngineMoveOrdering.TTPrioity | engine/src/move_ordering.cpp:36-47 | the null move (value 0) leaves the list alone; any other move present in the list is moved to the front |
| EngineMoveOrdering.PvIndex | engine/src/move_ordering.cpp:22 | `board.Ply() - pv.ply` as a 64-bit size_t: below 2^64, and the plain difference when the PV's ply is not later than the board's |
| EngineMoveOrdering.ProceedsAsWrittenPastEnd | engine/src/move_ordering.cpp:23-25 | the guard as written lets through exactly one index the PV does not hold: pvIndex equal to the size of a non-empty PV |
| EngineMoveOrdering.ProceedsIsInRange | engine/src/move_ordering.cpp:23-25 | the corrected guard lets through exactly the indices of moves the PV holds |
| EngineMoveOrdering.PvMove | engine/src/move_ordering.cpp:25 | the move looked for is a move of the PV |
| EngineMoveOrdering.PVPrioityAsWritten | engine/src/move_ordering.cpp:21-34 | the guard as written reads past the PV exactly when pvIndex equals the size of a non-empty PV; otherwise the PV's move for the board's ply is moved to the front |
| EngineMoveOrdering.PVPrioity | engine/src/move_ordering.cpp:21-34 | when the board's ply indexes a move of the PV, that move is moved to the front; otherwise the list is unchanged |
| EngineMoveOrdering.All | engine/src/move_ordering.cpp:49-53 | the list is sorted by MVVLVA, then the TT move is moved to the front, then the PV move |
| EngineMoveOrdering.OrderingPermutes | engine/src/move_ordering.cpp:49-53 | All drops and duplicates no move |
| EngineMoveOrdering.OrderingFront | engine/src/move_ordering.cpp:49-53 | a PV move present in the list is searched first; with no PV move, a present non-null TT move is |
| SearchWindow.ClampInWindow | engine/src/search_internal.cpp:13-19 | a fail-hard result lies in the window, is exact strictly inside it, and reaches beta exactly when the value does |
| SearchWindow.ClampNegate | engine/src/search_internal.cpp:31 | a child searched with (-beta, -alpha) and negated reports the negated value through (alpha, beta) |
| SearchWindow.NegatedChild | engine/src/search_internal.cpp:65-75 | a child result that agrees with the child's value through the child's window cuts off at beta exactly when the value does, and otherwise raises alpha to the same bound |
| SearchWindow.AB | engine/src/search_internal.cpp:13-19 | AB reports a cutoff exactly when the score reaches beta, leaving alpha untouched; otherwise alpha becomes the larger of alpha and the score, and stays below beta |
| SearchWindow.FailHardIsClamp | engine/src/search_internal.cpp:29-37 | scores taken in turn with AB, returning beta at the first cutoff, give the best score (or alpha) clamped to the window |
| SearchWindow.MaxFromBounds | engine/src/search_internal.cpp:72-76 | the running alpha is at least its start and every score seen, and is one of them |
| SearchWindow.MaxFromSameScores | engine/src/search_internal.cpp:61-63 | the best score does not depend on the order in which the move ordering presents the moves |
| SearchWindow.MaxFromRaise | engine/src/search_internal.cpp:23 | starting the fold from a raised alpha raises its result the same way |
| SearchWindow.TopFromAlpha | engine/src/search_internal.cpp:63-80 | a loop started at alpha ends at the larger of alpha and the best score, whose clamp is the best score's clamp |
| SearchWindow.StandPatFromAlpha | engine/src/search_internal.cpp:22-37 | a quiescence loop started from the stand-pat score raised to alpha ends, through the window, at the clamp of the stand-pat fold |
| SearchWindow.FailHardStep | engine/src/search_internal.cpp:63-76 | one loop step against reference scores: the loop cuts off exactly when the reference score reaches beta, and otherwise the new alpha carries the reference fold on |
| SearchWindow.FailHardSkip | engine/src/search_internal.cpp:72-76 | a score that does not beat alpha leaves the fold unchanged |
| SearchWindow.FailHardDone | engine/src/search_internal.cpp:79-80 | a loop that ran to the end without a cutoff returns the reference fold |
| SearchWindow.NullWindowStep | src/search_internal.cpp:77-81 | a child whose null-window result does not land strictly inside (alpha, beta) is not searched again, and that result already agrees with the child's value through the full window |
| EngineSearch.QChildrenAt | engine/src/search_internal.cpp:29-31 | the i-th entry of the captures' values is the negated quiescence value of the position after the i-th capture |
| EngineSearch.ChildrenAt | engine/src/search_internal.cpp:63-66 | the i-th entry of the moves' values is the negated value, one ply shallower, of the position after the i-th move |
| EngineSearch.QChildOccurs | engine/src/search_internal.cpp:27-29 | a capture that occurs in two orderings contributes the same value to both |
| EngineSearch.QChildrenReordered | engine/src/search_internal.cpp:27-29 | reordering the captures does not change which values occur |
| EngineSearch.ChildOccurs | engine/src/search_internal.cpp:61-63 | a move that occurs in two orderings contributes the same value to both |
| EngineSearch.ChildrenReordered | engine/src/search_internal.cpp:61-63 | reordering the moves does not change which values occur |
| EngineSearch.QValueStandsPat | engine/src/search_internal.cpp:22-24 | the quiescence value is never below the stand-pat evaluation |
| EngineSearch.QuiesceFold | engine/src/search_internal.cpp:22-37 | folding the reordered captures' values from the stand-pat score raised to alpha gives the quiescence value raised to alpha |
| EngineSearch.QuiesceOrder | engine/src/search_internal.cpp:26-28 | the captures after MVVLVA and PVPrioity are a permutation of those GenerateMoves<GenType::Attack> returns |
| EngineSearch.Quiesce | engine/src/search_internal.cpp:21-38 | a stand-pat score at or above beta returns beta; with alpha < beta the result lies in the window, is at least the stand-pat score when that is below beta, and is the full-width quiescence value clamped to the window |
| EngineSearch.QuiesceCaptures | engine/src/search_internal.cpp:29-37 | the capture loop returns beta exactly when some capture's value reaches beta, and otherwise the best of alpha and the captures' values |
| EngineSearch.NegamaxOrder | engine/src/search_internal.cpp:57-61 | the moves after MoveOrdering::All with the table's move are exactly those GenerateMoves returns |
| EngineSearch.Negamax | engine/src/search_internal.cpp:40-81 | in the source's order: an exhausted limit above depth 1 aborts the search; repetition scores 0; a probe hit returns its score; depth 0 hands off to quiescence; no moves scores EvalNoMove; otherwise the move loop stores a lower bound of beta, an exact score inside the window, or an upper bound of alpha. With a table that never answers, the result agrees with the full-width negamax value through the window |
| EngineSearch.NegamaxFold | engine/src/search_internal.cpp:61-80 | folding the reordered moves' values from alpha gives the negamax value raised to alpha, whose clamp is that of the negamax value |
| EngineSearch.NegamaxMoves | engine/src/search_internal.cpp:62-80 | the move loop stores one bound as its last store (lower with the cutting move, exact with the move that last raised alpha, upper with the null move) and returns beta exactly when the fold of the children's values reaches beta, otherwise that fold |
| SrcSearch.QChildrenAt | src/search_internal.cpp:26-32 | the i-th entry of the captures' values is the negated quiescence value after the i-th capture, or the stand-pat score for a capture that leaves the mover's king unsafe |
| SrcSearch.QChildOccurs | src/search_internal.cpp:24-26 | a capture that occurs in two orderings contributes the same value to both |
| SrcSearch.QChildrenReordered | src/search_internal.cpp:24-26 | reordering the captures does not change which values occur |
| SrcSearch.ChildrenAt | src/search_internal.cpp:67-80 | the i-th entry of the moves' values is the negated value, one ply shallower, of the position after the i-th move |
| SrcSearch.ChildOccurs | src/search_internal.cpp:63-66 | a move that occurs in two orderings contributes the same value to both |
| SrcSearch.ChildrenReordered | src/search_internal.cpp:63-66 | reordering the moves does not change which values occur |
| SrcSearch.QValueStandsPat | src/search_internal.cpp:20-21 | the quiescence value is never below the stand-pat evaluation |
| SrcSearch.QuiesceFold | src/search_internal.cpp:20-37 | folding the ordered captures' values from the stand-pat score raised to alpha gives the quiescence value raised to alpha |
| SrcSearch.QuiesceOrder | src/search_internal.cpp:23-25 | the captures after MVVLVA and PVPrioity are exactly those GenerateAttack returns |
| SrcSearch.Quiesce | src/search_internal.cpp:19-38 | a stand-pat score at or above beta returns beta; with alpha < beta the result lies in the window, is at least the stand-pat score when that is below beta, and is the full-width quiescence value, over the legal captures, clamped to the window |
| SrcSearch.QuiesceCaptures | src/search_internal.cpp:26-37 | the capture loop, which skips captures that leave the mover's king unsafe, returns beta exactly when some capture's value reaches beta, and otherwise the best of alpha and the captures' values |
| SrcSearch.ClearKillers | src/search_internal.cpp:44-46 | a new search leaves every killer_moves entry the null move, keeping the array's length |
| SrcSearch.SearchOrderPermutes | src/search_internal.cpp:63-65 | the killer ordering and MoveOrdering::All try every generated move and nothing else |
| SrcSearch.Negamax | src/search_internal.cpp:40-97 | a searchDepth of 0 clears the killers first; an exhausted limit above depth 3 aborts; otherwise, in the source's order, repetition scores 0, depth 0 or below hands off to quiescence, a probe hit returns its score, no moves scores EvalNoMove, and the move loop stores its bound and updates this ply's killer; the killers of the plies above are kept. With a table that never answers, legal moves only and a one-ply null-window reduction, the result agrees with the full-width negamax value through the window |
| SrcSearch.NegamaxNode | src/search_internal.cpp:50-97 | the node after its killer reset and limit test: the exits in the source's order, the stored bound, the killer update and the agreement with the full-width value |
| SrcSearch.NegamaxFold | src/search_internal.cpp:65-96 | folding the ordered moves' values from alpha gives the negamax value raised to alpha, whose clamp is that of the negamax value |
| SrcSearch.LoopAgrees | src/search_internal.cpp:83-96 | beta on a cutoff, and otherwise the fold, agrees with the negamax value through the window |
| SrcSearch.ChildNegamax | src/search_internal.cpp:76-80 | a child search only adds stores, keeps the killers of the plies above it, and agrees with the child's value through its window |
| SrcSearch.SearchChild | src/search_internal.cpp:74-81 | the first move is searched with the full window one ply shallower; a later move with the null window, re-searched with the full window only when its result lands strictly inside (alpha, beta); the result agrees with the child's value through the full window |
| SrcSearch.ChildStep | src/search_internal.cpp:83-92 | a searched child whose result agrees with its value either cuts off, and so does the fold of all the values, or raises alpha to where the fold of the remaining values continues from |
| SrcSearch.SearchMove | src/search_internal.cpp:68-92 | a move that leaves the mover's king unsafe is skipped without touching the table or killers; any other is searched, and its value either cuts off, as the fold does, or carries the fold on |
| SrcSearch.MoveLoop | src/search_internal.cpp:66-93 | the loop cuts off with a legal move, or ends with an upper bound at the unraised alpha and bm the first move of the ordering, or with an exact bound strictly inside the window and a legal best move; in the reference case it cuts off exactly when the fold reaches beta and otherwise returns the fold |
| SrcSearch.NegamaxMoves | src/search_internal.cpp:66-96 | the last store is the node's bound (lower with the cutting move, exact with the best move, upper with the first move of the ordering); a quiet cutting move becomes this ply's killer; in the reference case the result agrees with the negamax value through the window |
| SrcMiniMax.QMoves | src/minimax.cpp:86-91 | the moves quiescence searches all lead to lower-ranked positions: the captures, or every move when the mover is in check with no capture |
| SrcMiniMax.QChildrenAt | src/minimax.cpp:102-105 | the i-th entry of the searched moves' values is the negated quiescence value after the i-th move |
| SrcMiniMax.ChildrenAt | src/minimax.cpp:68-73 | the i-th entry of the moves' values is the negated value, one ply shallower, after the i-th move |
| SrcMiniMax.QValueBounded | src/minimax.cpp:85-114 | with the evaluation inside [-Inf, Inf], every quiescence value is too |
| SrcMiniMax.QChildrenBounded | src/minimax.cpp:102-111 | with the evaluation inside [-Inf, Inf], so is every negated quiescence value of a searched move |
| SrcMiniMax.ValueBounded | src/minimax.cpp:55-83 | with the evaluation inside [-Inf, Inf], every negamax value is too |
| SrcMiniMax.ChildrenBounded | src/minimax.cpp:68-80 | with the evaluation inside [-Inf, Inf], so is every negated child value |
| SrcMiniMax.Quiesce | src/minimax.cpp:85-114 | in check with no capture and no move at all, the result is EvaluateNoMoves(false); otherwise a stand-pat score at or above beta returns beta, the result stays in the window, and it agrees with the quiescence value through the window |
| SrcMiniMax.QuiesceMoves | src/minimax.cpp:102-113 | the loop returns beta exactly when some move's value reaches beta, and otherwise the best of alpha and the moves' values |
| SrcMiniMax.NegaMax | src/minimax.cpp:55-83 | away from depth 0: no moves scores EvaluateNoMoves(IsKingSafe()) ahead of the repetition draw, which scores 0; otherwise the result stays in the window; at every depth it agrees with the negamax value through the window |
| SrcMiniMax.NegaMaxMoves | src/minimax.cpp:68-82 | the loop returns beta exactly when some move's value reaches beta, and otherwise the best of alpha and the moves' values |
| SrcMiniMax.FullWindowExact | src/minimax.cpp:43 | with the evaluation inside [-Inf, Inf], a search with the window (-Inf, Inf) returns the exact negamax value |
| SrcMiniMax.SpentGrows | src/minimax.cpp:46 | the time added up over more root moves is never less |
| SrcMiniMax.Fresh | src/minimax.cpp:36-37 | the generated root moves become entries for those moves, in generation order |
| SrcMiniMax.ScoreMove | src/minimax.cpp:42-44 | a root move is scored with the negation of a full-window NegaMax one ply shallower, which with a bounded evaluation is the move's exact negated value |
| SrcMiniMax.ScoreRootMoves | src/minimax.cpp:39-49 | the loop scores entries in order and keeps each entry's move; the time used is the sum of the times of the entries scored, and it stops early only once that sum is past the limit; with a bounded evaluation each scored entry holds its move's exact negated value one ply shallower |
| SrcMiniMax.KeptCovers | src/minimax.cpp:36-43 | rescoring fresh entries, or those of an earlier call, move for move leaves an entry for every root move and only root moves |
| SrcMiniMax.RootNegaMax | src/minimax.cpp:34-53 | the result holds one entry per root move and an entry for every root move, sorted from highest to lowest score; the time used only grows; when the evaluation is bounded and the searches fit the time limit, every root move's entry holds its exact negated value one ply shallower, on the first call and on every later one |
| SrcMiniMax.SameEntries | src/minimax.cpp:51 | a reordering that keeps the multiset of entries keeps their number and, each way, every entry |
| SrcMiniMax.CoversKept | src/minimax.cpp:51 | when every entry reappears after the sort, every root move still has an entry |
| SrcMiniMax.SortedEntries | src/minimax.cpp:51 | sorting keeps every entry, every root move's entry and everything that held of each, and orders them from highest to lowest |
| SrcMiniMax.FirstIsBest | src/minimax.cpp:32-51 | the first of the sorted, exactly scored entries is a root move whose position is worst for the opponent |
| SrcMiniMax.ContinuedStep | src/minimax.cpp:24-30 | a search that found no mate and left the time used below the limit lets the loop go on, so every search but the last is one of those |
| SrcMiniMax.RunStarts | src/minimax.cpp:18-23 | the first root search, at depth 1 for depth -1 and at the given depth otherwise, with no time used before it, starts the record of the run |
| SrcMiniMax.RunStep | src/minimax.cpp:21-30 | a search one ply deeper after a search that found no mate and stayed inside the time extends the record, with its sorted, complete and (when it had the time) exact entries |
| SrcMiniMax.RunBest | src/minimax.cpp:32 | at the end of a run with root moves, when the evaluation is bounded and the last search had its time, the first entry is a move minimizing the opponent's value at the last depth |
| SrcMiniMax.DeepenOnce | src/minimax.cpp:23 | one pass of the loop runs the root NegaMax at the next working depth and extends the record by one search |
| SrcMiniMax.Deepen | src/minimax.cpp:21-30 | for depth -1 the loop ends only on a mate score, a working depth of 1000 or the time limit; for any other depth it does not repeat the search |
| SrcMiniMax.Iterate | src/minimax.cpp:18-30 | the root searches of GetBestMove: one at the given depth, or, for depth -1, from depth 1 one ply deeper each time until a mate, depth 1000 or the time limit |
| SrcMiniMax.Choose | src/minimax.cpp:18-32 | below ply 150 the answer is the first move of the last sorted MoveVals, or the null move when there are no root moves; when the evaluation is bounded and the last search had its time, it minimizes the opponent's value at the last depth |
| SrcMiniMax.GetBestMove | src/minimax.cpp:5-33 | past ply 150 the answer is the draw claim; otherwise any depth but -1 runs the root search once at that depth, and depth -1 deepens from depth 1 and stops exactly when the last search found a mate, the next working depth reaches 1000 or the time used reaches the limit, no earlier search having done any of these; the answer is the first move of the last sorted MoveVals (the null move with no root moves), and when the evaluation is bounded and the last search had its time it minimizes the opponent's negamax value at that depth |
| ClassesMiniMax.OrderedPermutes | classes/minimax.cpp:45-46 | ReOrderMoves neither adds nor drops a move: the reordered list holds exactly the generated moves |
| ClassesMiniMax.QChildrenAt | classes/minimax.cpp:88-94 | the i-th entry of the moves' quiescence values is the negated quiescence value after a capture, and the stand-pat score for a skipped quiet move |
| ClassesMiniMax.ChildrenAt | classes/minimax.cpp:53-60 | the i-th entry of the moves' values is the negated value, one ply shallower, after the i-th move |
| ClassesMiniMax.QChildrenReordered | classes/minimax.cpp:81-88 | reordering the moves does not change which quiescence values occur |
| ClassesMiniMax.ChildrenReordered | classes/minimax.cpp:46-53 | reordering the moves does not change which values occur |
| ClassesMiniMax.QValueBounded | classes/minimax.cpp:71-103 | with the evaluation inside [-Inf, Inf], every quiescence value is too |
| ClassesMiniMax.QChildrenBounded | classes/minimax.cpp:88-100 | with the evaluation inside [-Inf, Inf], so is every entry of the moves' quiescence values |
| ClassesMiniMax.ValueBounded | classes/minimax.cpp:39-69 | with the evaluation inside [-Inf, Inf], every negamax value is too |
| ClassesMiniMax.ChildrenBounded | classes/minimax.cpp:53-66 | with the evaluation inside [-Inf, Inf], so is every negated child value |
| ClassesMiniMax.QuiesceAsWritten | classes/minimax.cpp:71-103 | a stand-pat score at or above beta returns beta before anything else; below it, no moves scores EvaluateNoMoves(IsKingSafe), a repetition scores 0, and otherwise the result stays in the window |
| ClassesMiniMax.StandPatHidesMate | classes/minimax.cpp:72-84 | in a checkmated position with a stand-pat score above beta, the code as written returns beta while the position's quiescence value is -Inf, outside the window; the corrected order reports it |
| ClassesMiniMax.Quiesce | classes/minimax.cpp:71-103 | no moves scores EvaluateNoMoves(IsKingSafe), then a repetition scores 0; otherwise the stand-pat cut and the capture loop keep the result in the window, and it agrees with the quiescence value through the window |
| ClassesMiniMax.QuiesceCaptures | classes/minimax.cpp:88-102 | the loop, skipping quiet moves, returns beta exactly when some capture's value reaches beta, and otherwise the best of alpha and the captures' values |
| ClassesMiniMax.NegaMax | classes/minimax.cpp:39-69 | away from depth 0: no moves scores EvaluateNoMoves(IsKingSafe) ahead of the repetition draw, which scores 0; otherwise the result stays in the window; at depth 0 it hands off to the corrected Quiesce, and at every depth it agrees with the negamax value through the window |
| ClassesMiniMax.NegaMaxMoves | classes/minimax.cpp:53-68 | the loop over the reordered moves returns beta exactly when some move's value reaches beta, and otherwise the best of alpha and the moves' values |
| ClassesMiniMax.Fresh | classes/minimax.cpp:27-28 | the generated root moves become entries for those moves, in generation order |
| ClassesMiniMax.RootNegaMax | classes/minimax.cpp:25-37 | the result holds one entry per root move and every root move, each entry keeping its move; with a bounded evaluation every entry holds its move's exact negated value one ply shallower |
| ClassesMiniMax.RescoredRooted | classes/minimax.cpp:30-34 | rescoring the entries move for move keeps one entry per root move and every root move |
| ClassesMiniMax.SortedRooted | classes/minimax.cpp:15 | sorting keeps every root move and every exact entry, and orders the entries from highest to lowest score |
| ClassesMiniMax.FirstIsBest | classes/minimax.cpp:15-23 | the first of the sorted, exactly scored entries is a root move whose position is worst for the opponent |
| ClassesMiniMax.Times | classes/minimax.cpp:14 | the recorded times are those of working depths 1, 2, ... in push order |
| ClassesMiniMax.TimesPush | classes/minimax.cpp:14 | pushing the next iteration's time extends the recorded times by that iteration |
| ClassesMiniMax.DivBelow | classes/minimax.cpp:21 | an unsigned quotient stays below the limit exactly when the dividend is below the limit times the divisor |
| ClassesMiniMax.ContinueRule | classes/minimax.cpp:17-21 | the loop always continues for the first two iterations and, once the last two times are at least 10 ms and the square does not wrap, exactly while last * last stays below TimeLimit * previous |
| ClassesMiniMax.Iteration | classes/minimax.cpp:11-15 | one iteration leaves every root move in a MoveVals sorted from highest to lowest, exactly scored at its working depth when the evaluation is bounded |
| ClassesMiniMax.Deepen | classes/minimax.cpp:10-21 | the do-while pushes one time per iteration, continued at every earlier check, and stops only when the continuation rule fails (or the fuel runs out), keeping the last MoveVals sorted and exact |
| ClassesMiniMax.GetBestMove | classes/minimax.cpp:4-24 | the iterations run while the continuation rule holds; the answer is the null move when there is no root move, and otherwise a root move that, with a bounded evaluation, minimizes the opponent's negamax value at the last working depth |

## Specification functions

The functions below model source functions but carry no contract of their own beyond typing. Each is the definition that the rows named after it state properties of, so it has no row in the table above.

- ClassesUtilities.GetPieceChar (classes/utilities.cpp:3-24) and ClassesUtilities.GetPieceType (classes/utilities.cpp:26-56): ClassesUtilities.PieceCharRoundTrip, ClassesUtilities.UnknownPiece.
- ClassesUtilities.GetSquare (classes/utilities.cpp:65-67): ClassesUtilities.GetSquareInverse.
- ClassesUtilities.NotEdge (classes/utilities.cpp:109-130): ClassesUtilities.NotEdgeComposition.
- ChessConstants.MoveTypeValue (chess/include/chess/internal/constants.hpp:161-176): ChessConstants.CaptureBitMarksCaptures, ChessConstants.PromotionBitMarksPromotions, ChessConstants.CastlingBitMarksCastles, ChessConstants.PromotionCaptureAddsCaptureBit, ChessConstants.MoveTypeValueInjective.
- ChessConstants.CastlingAnd (chess/include/chess/internal/constants.hpp:191-193): ChessConstants.CastlingAndCases, ChessConstants.CastlingDeterminedBySides.
- ChessConstants.CastlingXor (chess/include/chess/internal/constants.hpp:195-197): ChessConstants.CastlingXorLaws, ChessConstants.CastlingXorToggles.
- ChessConstants.RowBB (chess/include/chess/internal/constants.hpp:79-89): ChessConstants.RowLayout, ChessConstants.RowsCoverBoard.
- ChessConstants.ColumnBB (chess/include/chess/internal/constants.hpp:94-104): ChessConstants.ColumnBySquareHoldsSquare.
- ChessConstants.NotEdgeBB (chess/include/chess/internal/constants.hpp:145-154): ChessConstants.NotEdgeLayout, ChessConstants.EdgeAndCorner.
- ChessConstants.CastlingBlockSquares and ChessConstants.CastlingAttackSquares (chess/include/chess/internal/constants.hpp:202-214): ChessConstants.CastlingMasksCover.
- ChessBoard.Board.GetOccupiedBB, GetPly, GetColor (modelled as GetTurn), GetOppColor, GetHash, GetMoveCount, GetEP and IsCastlingAllowed (chess/include/chess/board.hpp:45-47, :92 and :136-169): each returns one field of the board, or the top of one of its stacks. The fields are what the rows of the Board's constructor and update methods state (PlacePiece and RemovePiece for the occupancy, SetTurn and SwitchTurn for the turn, PushCastling and PopCastling for the rights and the hash, PushEP and PopEP for the en-passant column and the hash, ResetMoveCount for the move counter).
- EngineEvaluation.SideModifier (engine/src/evaluation.cpp:5): EngineEvaluation.SideModifierFlips.
- EngineEvaluation.Score (engine/src/evaluation.cpp:36-39): EngineEvaluation.Eval, which is proved to return it, and EngineEvaluation.ScoreForBlack.
- SrcEvaluator.SideModifier (src/headers/evaluator.hh:53-58): SrcEvaluator.SideModifierFlips, SrcEvaluator.SideModifierAgainstEngine.
- SrcEvaluator.PositionValue and SrcEvaluator.PawnStructure (src/headers/evaluator.hh:45-51): SrcEvaluator.DifferencesAntisymmetric.
- SrcEvaluator.Evaluate (src/headers/evaluator.hh:30-34): SrcEvaluator.EvaluateSymmetric.
- EngineMoveOrdering.SortCaptures (engine/src/move_ordering.cpp:8-18): EngineMoveOrdering.SortCapturesSorts, EngineMoveOrdering.SortDescends, and EngineMoveOrdering.MVVLVA, which is proved to compute it.
- EngineMoveOrdering.MoveToFront (engine/src/move_ordering.cpp:26-45): EngineMoveOrdering.MoveToFrontPermutes, EngineMoveOrdering.MoveToFrontPlaces, EngineMoveOrdering.MoveToFrontIdempotent, and EngineMoveOrdering.MoveToFrontOf, which is proved to compute it.
- EngineMoveOrdering.Ordering (engine/src/move_ordering.cpp:49-53): EngineMoveOrdering.OrderingPermutes, EngineMoveOrdering.OrderingFront, and EngineMoveOrdering.All, which is proved to compute it.

## Left out

- Positions, make and unmake: the searches see a position as a node of the abstract game tree, so the board updates a search makes and undoes at every ply are not modelled there. The board's own update operations are modelled in `ChessBoard`.
- The transposition table is a log of stores that the search threads through, not a fixed-size hashed array. The search contracts hold when no probe hits an entry; collisions and replacement are not modelled.
- Elapsed time and node limits are oracles passed as parameters. A search that is cut short reports the abort and promises nothing about its score.
- Every game tree is assumed finite: a rank decreases from each node to each of its children. Draw detection by repetition is part of the tree's static data.
- SrcSearch.Negamax: the source searches later moves with a null window two plies shallower (`depth - 2`). The model takes the reduction as a parameter. It proves agreement with the full-width value only when the reduction is 1, no table probe answers and every generated move is legal. For every other case it proves the node's exits and its table and killer updates (`Searched`).
- SrcSearch.Negamax: the search depth is a `nat`, and MAX_SEARCH_DEPTH is the length of the killer table passed in.
- SrcSearch.SearchOrderPermutes: the principal-variation move is folded into the move ordering the tree gives, rather than taken from a PV table.
- ClassesMiniMax.GetBestMove: iterative deepening runs for at most `fuel` iterations. The source loops while its time test allows; the contract says that fewer than `fuel` iterations means the time test stopped the loop.
- The opening book (`#ifdef OPENINGBOOK` in src/minimax.cpp) is external data and is not modelled.
- MoveVals::Sort is assumed to sort by score, descending, and to permute its entries. Its definition is not part of this model, and the model takes that behaviour as a law of the `Game` value.
- src/minimax.cpp:64 and :93 call EvaluateNoMoves with only the king-safety flag, while src/headers/evaluator.hh:36 also takes the board. The model uses the two-argument form, with the flag given by the tree.
- engine/include/engine/evaluation.hpp declares Eval and EvalNoMove on a Position, but engine/src/evaluation.cpp defines them on a Board and a bool. The model follows the definitions in the .cpp, and the search supplies the king-safety flag.
- C64 is defined in none of the modelled files, so its reading is chosen per generation. In `classes/`, `C64(0) << lsb` is read as a value cast and is therefore 0, so LSB_Pop does not clear the bit (see Findings). In `src/`, `C64(lsb)` is read as the single-square mask and LSB_Pop as clearing the lowest bit. Under the first reading, the loops at src/move_gen/piece_gen.cpp:22 and :45 would never end.
- SrcPieceGen.Offset: the step of each direction (8, 1, -8, -1, 9, 7, -7, -9 for north, east, south, west and the four diagonals) is assumed. The Direction enum at chess/include/chess/internal/constants.hpp:128-139 numbers directions 0 to 8, and BitShifts::Shift is not part of this model. Shift is modelled as a function on square sets that steps each square and drops the ones that would wrap around an edge.
- ChessMoveGen.GenerateMoves: the MoveList is a `seq`, so its capacity of 256 moves (MAXMOVECOUNT at chess/include/chess/internal/constants.hpp:18) and an overflow past it are not modelled.
- ChessMoveGen.GenerateKingMoves: requires the side to move to have a king. The source reads its tables at Square::None when there is none.
- EngineMoveOrdering.SortCaptures: fixes the order of captures with equal MVV-LVA keys (insertion order), which std::sort leaves unspecified. Its contract states only the descending order and the permutation.
- SrcPieceGen.PieceGen.GetALlMoves: the move counts are `nat`. The source keeps them in a U8 (src/move_gen/piece_gen.cpp:12-14 and :35-37) and the start index in an `unsigned short` (line 4), which would wrap past 255 and 65535 moves.
- SrcPieceGen.PieceGen.AppendMove: requires the index to lie inside the move buffer (std::array<Move,128> in the source). ClassesMoveGen.MoveGen.AppendMove instead models an out-of-range index as a write that does not happen.
- Scores are unbounded integers. The source's `int` arithmetic would overflow only far outside the scores it produces.
- EngineEvaluation.ScoreForBlack: with Black to move, Black's positional sum is subtracted. Whether that is intended depends on the ALL_BLACK tables, which are not part of this model.
- ChessBoard.Board.IsKingSafe: the three-argument IsKingSafe(occupancy, enemy, king) is defined in board.cpp, which is not part of this model. It enters as a parameter of the Board, and the overloads of board.hpp are modelled on top of it.
- classes/board.cpp, classes/move_gen.cpp, src/headers/board.hh, src/evaluator.cpp and the Position type are not part of this model. Their operations enter as parameters with stated laws.
- EngineSearch.Negamax: the best move starts as a default-constructed `Move`, modelled as the null move.
- ClassesMiniMax.NegaMax: at depth 0 it calls the corrected Quiesce, which tests for no moves before standing pat (Findings row classes/minimax.cpp:72-86). The source's NegaMax calls the Quiesce as written. So its agreement with the negamax value, and the agreement that ClassesMiniMax.RootNegaMax, ClassesMiniMax.Iteration, ClassesMiniMax.Deepen and ClassesMiniMax.GetBestMove inherit, is a statement about the corrected program. ClassesMiniMax.StandPatHidesMate shows where the program as written differs.
- ClassesUtilities.ShiftByLowest: on an empty bitboard the shift count `ffsll(0) - 1` is -1, an undefined shift in C++. The model takes the shifted value to be 0, so ClassesUtilities.LSBPopAsWritten and ClassesUtilities.LSBPop leave an empty bitboard empty. The source promises nothing there.
- SrcMiniMax.GetBestMove: with no legal moves, the source returns `moves.at(0)` of an empty list. The model returns the null move.

## Findings

| source | as written | input that shows it | evidently intended | confidence | as-written member | corrected member |
|---|---|---|---|---|---|---|
| classes/utilities.cpp:103-107 | LSB_Pop toggles `C64(0) << lsb`, which is 0, so the board keeps its lowest bit | any non-zero bitboard, e.g. `0b100`: LSB_Pop returns 2 and leaves the value `0b100` | toggle `C64(1) << lsb`, clearing the lowest set bit | not executed | ClassesUtilities.LSBPopAsWritten | ClassesUtilities.LSBPop |
| engine/src/move_ordering.cpp:23-25 | the guard `pvIndex > pv.moves.size()` lets `pvIndex == pv.moves.size()` through, so `pv.moves[pvIndex]` reads one past the PV; that read is undefined, and the as-written member flags it and takes it to leave the list unchanged, one arbitrary choice among the behaviours the read could have | a non-empty PV of k moves with `board.Ply() - pv.ply == k` | return unless `pvIndex < pv.moves.size()` | not executed | EngineMoveOrdering.PVPrioityAsWritten | EngineMoveOrdering.PVPrioity |
| engine/src/move_ordering.cpp:28,41 | the first memmove copies `size - i` moves from `i + 1`, reading the slot at index `size`, one past the last move; on a full list that slot is past the buffer | a MoveList that contains the move being moved to the front, e.g. `[a, b]` moving `b` | copy `size - i - 1` moves, the ones after index `i` | not executed | EngineMoveOrdering.MoveToFrontOfAsWritten | EngineMoveOrdering.MoveToFrontOf |
| classes/minimax.cpp:72-86 | Quiesce returns beta on a stand pat at or above beta before it tests for no moves, so a mated or stalemated position is scored by its static evaluation | a checkmated position with stand pat 5 searched with the window (-10, 0) and Inf = 100: the search returns 0, while the mate value is -100 | test for no moves (mate or stalemate) before standing pat | not executed | ClassesMiniMax.StandPatHidesMate | ClassesMiniMax.Quiesce |
