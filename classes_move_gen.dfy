/** classes/headers/move_gen.hh: the move-list append helper and the IsKingSafe overload
    chain of the first generation's MoveGen. Its Board (board.hh) is seen only through the
    three getters the overloads call. */
module ClassesMoveGen {
  import opened Bits
  import opened ChessConstants

  /** The parts of a classes/ Board the overloads read. */
  datatype Board = Board(pieceBB: seq<BB>, colorBB: seq<BB>, occupiedBB: BB)
  {
    ghost predicate Valid() { |pieceBB| == PieceCount && |colorBB| == ColorCount }

    /** GetPiecePos(color, type). */
    function GetPiecePos(c: Color, t: PieceType): BB
      requires Valid() && c != Color.None && t != PieceType.None
    {
      pieceBB[TypeIndex(t)] & colorBB[ColorIndex(c)]
    }

    function GetColorBB(c: Color): BB
      requires Valid() && c != Color.None
    {
      colorBB[ColorIndex(c)]
    }

    function GetOccupiedBB(): BB { occupiedBB }
  }

  /** A generator for one colour. The four-argument IsKingSafe is defined in move_gen.cpp,
      which is not part of this model, so it is carried as the function kingSafety. */
  class MoveGen {
    const color: Color
    const oppColor: Color
    const kingSafety: (Board, BB, BB, BB) -> bool

    /** MoveGen(color); the constructor body lives in move_gen.cpp, and only the two colour
        fields the overloads read are modelled. */
    constructor(color: Color, kingSafety: (Board, BB, BB, BB) -> bool)
      requires color != Color.None
      ensures this.color == color && this.oppColor == Opposite(color)
      ensures this.kingSafety == kingSafety
    {
      this.color := color;
      this.oppColor := Opposite(color);
      this.kingSafety := kingSafety;
    }

    ghost predicate Valid() { color != Color.None && oppColor == Opposite(color) }

    /** IsKingSafe(board, occ, enemy): uses this generator's own king. */
    function IsKingSafeWithEnemy(board: Board, occ: BB, enemy: BB): bool
      requires Valid() && board.Valid()
    {
      kingSafety(board, occ, enemy, board.GetPiecePos(color, PieceType.King))
    }

    /** IsKingSafe(board, occ): the enemy is the opponent's colour bitboard. */
    function IsKingSafeWithOccupancy(board: Board, occ: BB): bool
      requires Valid() && board.Valid()
    {
      IsKingSafeWithEnemy(board, occ, board.GetColorBB(oppColor))
    }

    /** IsKingSafe(board): the board's own occupancy. */
    function IsKingSafe(board: Board): bool
      requires Valid() && board.Valid()
    {
      IsKingSafeWithOccupancy(board, board.GetOccupiedBB())
    }

    /** Each overload fills in one argument: the three-argument form supplies this colour's
        king, the two-argument form the opponent's pieces, the one-argument form the board's
        occupancy; so IsKingSafe(board) asks the four-argument test about the current board. */
    lemma IsKingSafeChain(board: Board, occ: BB, enemy: BB)
      requires Valid() && board.Valid()
      ensures IsKingSafeWithEnemy(board, occ, enemy)
           == kingSafety(board, occ, enemy, board.GetPiecePos(color, PieceType.King))
      ensures IsKingSafeWithOccupancy(board, occ)
           == IsKingSafeWithEnemy(board, occ, board.GetColorBB(Opposite(color)))
      ensures IsKingSafe(board) == IsKingSafeWithOccupancy(board, board.occupiedBB)
      ensures IsKingSafe(board) == kingSafety(board, board.occupiedBB,
                board.GetColorBB(Opposite(color)), board.GetPiecePos(color, PieceType.King))
    {}

    /** AppendMove(moves, index, &moveCount, move): moves->at(index) = move, then
        ++moveCount on a U8. An index outside the array makes .at throw before the count
        changes; `inRange` is false exactly then. */
    static method AppendMove<M>(moves: array<M>, index: int, moveCount: bv8, move: M)
      returns (moveCount': bv8, inRange: bool)
      modifies moves
      ensures inRange <==> 0 <= index < moves.Length
      ensures inRange ==> moves[..] == old(moves[..])[index := move] && moveCount' == moveCount + 1
      ensures !inRange ==> moves[..] == old(moves[..]) && moveCount' == moveCount
    {
      if 0 <= index < moves.Length {
        moves[index] := move;
        moveCount' := moveCount + 1;
        inRange := true;
      } else {
        moveCount' := moveCount;
        inRange := false;
      }
    }
  }
}
