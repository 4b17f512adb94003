/** classes/utilities.cpp: piece-char conversions, square arithmetic and the bit helpers of
    the first generation. Its constants header is not part of this model; the enums are taken
    to be those of chess/include/chess/internal/constants.hpp. */
module ClassesUtilities {
  import opened Bits
  import opened ChessConstants

  /** GetPieceChar(type, color): any colour other than White gives the black letter. */
  function GetPieceChar(t: PieceType, c: Color): char
  {
    match t
    case Bishop => if c == White then BishopWhite else BishopBlack
    case King => if c == White then KingWhite else KingBlack
    case Knight => if c == White then KnightWhite else KnightBlack
    case Pawn => if c == White then PawnWhite else PawnBlack
    case Queen => if c == White then QueenWhite else QueenBlack
    case Rook => if c == White then RookWhite else RookBlack
    case None => NoPiece
  }

  /** GetPieceType(pieceChar): every char that is not one of the twelve piece letters
      gives None. */
  function GetPieceType(ch: char): PieceType
  {
    if ch == BishopBlack || ch == BishopWhite then Bishop
    else if ch == KingBlack || ch == KingWhite then PieceType.King
    else if ch == KnightBlack || ch == KnightWhite then Knight
    else if ch == PawnBlack || ch == PawnWhite then Pawn
    else if ch == QueenBlack || ch == QueenWhite then PieceType.Queen
    else if ch == RookBlack || ch == RookWhite then Rook
    else PieceType.None
  }

  /** std::isupper in the C locale. */
  predicate IsUpper(ch: char) { 'A' <= ch <= 'Z' }

  /** GetPieceColor(pieceChar): upper case is White, anything else Black. */
  function GetPieceColor(ch: char): (c: Color)
    ensures c != Color.None
    ensures c == White <==> IsUpper(ch)
  {
    if IsUpper(ch) then White else Black
  }

  /** GetSquare(x, y). */
  function GetSquare(x: int, y: int): int
  {
    x + 8 * y
  }

  /** The PieceValue enum (its header is not part of this model), indexed by (int) type. */
  type PieceValues = s: seq<int> | |s| == 7 witness [0, 0, 0, 0, 0, 0, 0]

  /** GetPieceValue(type): a switch that agrees with indexing the value table by type. */
  function GetPieceValue(values: PieceValues, t: PieceType): (v: int)
    ensures v == values[TypeIndex(t)]
  {
    match t
    case Bishop => values[2]
    case King => values[5]
    case Knight => values[1]
    case Pawn => values[0]
    case Queen => values[4]
    case Rook => values[3]
    case None => values[6]
  }

  /** PopCount(x): Kernighan's loop, one iteration per set bit. */
  method PopCount(x: BB) returns (count: int)
    ensures count == Bits.PopCount(x)
  {
    count := 0;
    var y := x;
    while y != 0
      invariant count + Bits.PopCount(y) == Bits.PopCount(x)
      decreases Bits.PopCount(y)
    {
      count := count + 1;
      ClearLowest(y);
      y := y & (y - 1);
    }
    EmptyIffNoSquare(y);
  }

  /** LSB(x): ffsll(x) - 1, the index of the lowest set bit, or -1 for an empty set. */
  function LSB(x: BB): (r: int)
    ensures x == 0 <==> r == -1
    ensures x != 0 ==> r == Lsb(x) as int && IsLowest(x, Lsb(x))
  {
    Ffs(x) - 1
  }

  /** C64(n) << LSB(x), the shift count being the lowest index of x; for an empty x the count
      is (U64) -1, an undefined shift in C++, taken as giving 0 here. */
  function ShiftByLowest(n: BB, x: BB): BB
  {
    if x == 0 then 0 else n << Lsb(x)
  }

  /** LSB_Pop(&x) as written: it XORs x with C64(0) << lsb, which is 0, so the lowest bit is
      never cleared and x comes back unchanged. */
  method LSBPopAsWritten(x: BB) returns (lsb: int, x': BB)
    ensures lsb == LSB(x)
    ensures x' == x
    ensures x != 0 ==> Has(x', Lsb(x)) && Bits.PopCount(x') == Bits.PopCount(x)
  {
    lsb := LSB(x);
    x' := x ^ ShiftByLowest(0, x);
    if x != 0 {
      LowestHas(x, Lsb(x));
    }
  }

  /** LSB_Pop(&x) as evidently intended: return the lowest index and clear that bit. */
  method LSBPop(x: BB) returns (lsb: int, x': BB)
    ensures lsb == LSB(x)
    ensures x == 0 ==> x' == 0
    ensures x != 0 ==> x' == PopLsb(x) && Bits.PopCount(x') + 1 == Bits.PopCount(x)
  {
    lsb := LSB(x);
    x' := x ^ ShiftByLowest(1, x);
    if x != 0 {
      ClearLowest(x);
    }
  }

  /** NotEdge(dir): the direction's NotEdge mask, the diagonals built from two cardinals,
      and 0 for Direction::None. */
  function NotEdge(dir: Direction): BB
  {
    match dir
    case North => NotEdgeNorth
    case East => NotEdgeEast
    case South => NotEdgeSouth
    case West => NotEdgeWest
    case NorthEast => NotEdgeNorth & NotEdgeEast
    case NorthWest => NotEdgeNorth & NotEdgeWest
    case SouthEast => NotEdgeSouth & NotEdgeEast
    case SouthWest => NotEdgeSouth & NotEdgeWest
    case None => 0
  }

  // ---------------------------------------------------------------------------

  /** Converting a type to its char and back gives the type, and the char's case gives the
      colour (Black for anything but White). */
  lemma PieceCharRoundTrip(t: PieceType, c: Color)
    requires t != PieceType.None
    ensures GetPieceType(GetPieceChar(t, c)) == t
    ensures GetPieceColor(GetPieceChar(t, c)) == (if c == White then White else Black)
    ensures GetPieceChar(t, c) != NoPiece
  {}

  /** The unknown type maps to 'O', which maps back to None but counts as White. */
  lemma UnknownPiece(ch: char)
    requires !(ch in {PawnWhite, PawnBlack, KnightWhite, KnightBlack, BishopWhite, BishopBlack,
                      RookWhite, RookBlack, QueenWhite, QueenBlack, KingWhite, KingBlack})
    ensures GetPieceType(ch) == PieceType.None
    ensures GetPieceChar(PieceType.None, White) == NoPiece && GetPieceChar(PieceType.None, Black) == NoPiece
    ensures GetPieceColor(NoPiece) == White
  {}

  /** GetSquare is the row-major index: its file and rank recover x and y. */
  lemma GetSquareInverse(x: int, y: int)
    requires 0 <= x < 8 && 0 <= y < 8
    ensures 0 <= GetSquare(x, y) < 64
    ensures GetSquare(x, y) % 8 == x && GetSquare(x, y) / 8 == y
  {}

  /** A diagonal's mask is the AND of its cardinals', each cardinal mask clears its border
      row or column, and only Direction::None gives 0. */
  lemma NotEdgeComposition(dir: Direction)
    ensures NotEdge(NorthEast) == NotEdge(North) & NotEdge(East)
    ensures NotEdge(NorthWest) == NotEdge(North) & NotEdge(West)
    ensures NotEdge(SouthEast) == NotEdge(South) & NotEdge(East)
    ensures NotEdge(SouthWest) == NotEdge(South) & NotEdge(West)
    ensures NotEdge(North) == !RowBB(Row8) && NotEdge(South) == !RowBB(Row1)
    ensures NotEdge(East) == !ColumnBB(H) && NotEdge(West) == !ColumnBB(A)
    ensures NotEdge(dir) == 0 <==> dir == Direction.None
  {
    NotEdgeLayout();
  }
}
