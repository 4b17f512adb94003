/** The enums and mask tables of chess/include/chess/internal/constants.hpp, with the
    layout facts the generator and the board depend on. */
module ChessConstants {
  import opened Bits

  const Width: int := 8
  const SquareCount: int := 64
  const MaxPly: int := 256
  const MaxMoveCount: int := 256
  const PieceCount: int := 6
  const ColorCount: int := 2

  /** The border squares and the four corners. */
  const Edge: BB := 0xff81_8181_8181_81ff
  const Corner: BB := 0x8100_0000_0000_0081

  datatype Color = White | Black | None

  /** (int) color, the index into the two per-colour arrays. */
  function ColorIndex(c: Color): (i: nat)
    ensures i < 3 && (c != Color.None <==> i < 2)
  {
    match c
    case White => 0
    case Black => 1
    case None => 2
  }

  /** Utilities::GetOppositeColor (its header is not part of this model): swaps White and
      Black and leaves None alone. */
  function Opposite(c: Color): (r: Color)
    ensures (c == Color.None) == (r == Color.None)
    ensures c != Color.None ==> r != c && ColorIndex(r) == 1 - ColorIndex(c)
  {
    match c
    case White => Black
    case Black => White
    case None => Color.None
  }

  datatype PieceType = Pawn | Knight | Bishop | Rook | Queen | King | None

  /** (int) type: 0 for Pawn up to 5 for King, 6 for None. */
  function TypeIndex(t: PieceType): (i: nat)
    ensures i <= 6 && (t != PieceType.None <==> i < 6)
  {
    match t
    case Pawn => 0
    case Knight => 1
    case Bishop => 2
    case Rook => 3
    case Queen => 4
    case King => 5
    case None => 6
  }

  /** PIECES: the six real piece types in index order. */
  const Pieces: seq<PieceType> := [Pawn, Knight, Bishop, Rook, PieceType.Queen, PieceType.King]

  /** PieceChar: upper case for White, lower case for Black, 'O' for None. */
  const PawnWhite: char := 'P'
  const PawnBlack: char := 'p'
  const KnightWhite: char := 'N'
  const KnightBlack: char := 'n'
  const BishopWhite: char := 'B'
  const BishopBlack: char := 'b'
  const RookWhite: char := 'R'
  const RookBlack: char := 'r'
  const QueenWhite: char := 'Q'
  const QueenBlack: char := 'q'
  const KingWhite: char := 'K'
  const KingBlack: char := 'k'
  const NoPiece: char := 'O'

  const A1: Sq := 0
  const C1: Sq := 2
  const D1: Sq := 3
  const E1: Sq := 4
  const F1: Sq := 5
  const G1: Sq := 6
  const H1: Sq := 7
  const A8: Sq := 56
  const C8: Sq := 58
  const D8: Sq := 59
  const E8: Sq := 60
  const F8: Sq := 61
  const G8: Sq := 62
  const H8: Sq := 63

  /** The two castling sides; index 0 is the king side (CASTLING_KING_BIT), 1 the queen side. */
  type Side = i: int | 0 <= i < 2

  /** INIT_KINGPOS. */
  function InitKingPos(c: Color): Sq
    requires c != Color.None
  {
    if c == White then E1 else E8
  }

  /** INIT_ROOKPOS. */
  function InitRookPos(c: Color, side: Side): Sq
    requires c != Color.None
  {
    if c == White then (if side == 0 then H1 else A1) else (if side == 0 then H8 else A8)
  }

  /** CASTLEPOS_KING: where the king lands. */
  function CastlePosKing(c: Color, side: Side): Sq
    requires c != Color.None
  {
    if c == White then (if side == 0 then G1 else C1) else (if side == 0 then G8 else C8)
  }

  /** CASTLEPOS_ROOK: where the rook lands. */
  function CastlePosRook(c: Color, side: Side): Sq
    requires c != Color.None
  {
    if c == White then (if side == 0 then F1 else D1) else (if side == 0 then F8 else D8)
  }

  datatype Row = Row1 | Row2 | Row3 | Row4 | Row5 | Row6 | Row7 | Row8 | None

  /** (BB) row. */
  function RowBB(r: Row): BB
  {
    match r
    case Row1 => 0xff
    case Row2 => 0xff00
    case Row3 => 0xff_0000
    case Row4 => 0xff00_0000
    case Row5 => 0xff_0000_0000
    case Row6 => 0xff00_0000_0000
    case Row7 => 0xff_0000_0000_0000
    case Row8 => 0xff00_0000_0000_0000
    case None => 0
  }

  /** The k-th row, 1 <= k <= 8. */
  function RowAt(k: int): (r: Row)
    requires 1 <= k <= 8
    ensures r != Row.None
  {
    [Row1, Row2, Row3, Row4, Row5, Row6, Row7, Row8][k - 1]
  }

  /** PawnRow: the row a colour's pawns start on. */
  function PawnRow(c: Color): Row
    requires c != Color.None
  {
    if c == White then Row2 else Row7
  }

  /** PushRow: the row a double push lands on. */
  function PushRow(c: Color): Row
    requires c != Color.None
  {
    if c == White then Row4 else Row5
  }

  datatype Column = A | B | C | D | E | F | G | H | None

  /** (BB) column. */
  function ColumnBB(col: Column): BB
  {
    match col
    case A => 0x0101_0101_0101_0101
    case B => 0x0202_0202_0202_0202
    case C => 0x0404_0404_0404_0404
    case D => 0x0808_0808_0808_0808
    case E => 0x1010_1010_1010_1010
    case F => 0x2020_2020_2020_2020
    case G => 0x4040_4040_4040_4040
    case H => 0x8080_8080_8080_8080
    case None => 0
  }

  const ColumnsAToH: seq<Column> := [A, B, C, D, E, F, G, H]

  /** COLUMN_BY_SQUARE, eight copies of A..H. */
  const ColumnBySquare: seq<Column> :=
    ColumnsAToH + ColumnsAToH + ColumnsAToH + ColumnsAToH +
    ColumnsAToH + ColumnsAToH + ColumnsAToH + ColumnsAToH

  const IndicesAToH: seq<int> := [0, 1, 2, 3, 4, 5, 6, 7]

  /** COLUMN_INDEX, eight copies of 0..7. */
  const ColumnIndex: seq<int> :=
    IndicesAToH + IndicesAToH + IndicesAToH + IndicesAToH +
    IndicesAToH + IndicesAToH + IndicesAToH + IndicesAToH

  datatype Direction = North | East | South | West | NorthEast | NorthWest | SouthEast | SouthWest | None

  /** DIRECTIONS. */
  const Directions: seq<Direction> := [North, East, South, West, NorthEast, NorthWest, SouthEast, SouthWest]

  const NotEdgeNorth: BB := 0x00ff_ffff_ffff_ffff
  const NotEdgeEast: BB := 0x7f7f_7f7f_7f7f_7f7f
  const NotEdgeSouth: BB := 0xffff_ffff_ffff_ff00
  const NotEdgeWest: BB := 0xfefe_fefe_fefe_fefe

  /** The NotEdge enum: the squares a one-step shift in that direction may start from. */
  function NotEdgeBB(d: Direction): BB
    requires d != Direction.None
  {
    match d
    case North => NotEdgeNorth
    case East => NotEdgeEast
    case South => NotEdgeSouth
    case West => NotEdgeWest
    case NorthEast => NotEdgeNorth & NotEdgeEast
    case NorthWest => NotEdgeNorth & NotEdgeWest
    case SouthEast => NotEdgeSouth & NotEdgeEast
    case SouthWest => NotEdgeSouth & NotEdgeWest
  }

  datatype MoveType =
    | Quiet | DoublePawnPush | KingCastle | QueenCastle | Capture | EPCapture
    | NPromotion | BPromotion | RPromotion | QPromotion
    | NPromotionCapture | BPromotionCapture | RPromotionCapture | QPromotionCapture

  /** The numeric value of a move type. */
  function MoveTypeValue(t: MoveType): bv8
  {
    match t
    case Quiet => 0
    case DoublePawnPush => 1
    case KingCastle => 2
    case QueenCastle => 3
    case Capture => 4
    case EPCapture => 5
    case NPromotion => 8
    case BPromotion => 9
    case RPromotion => 10
    case QPromotion => 11
    case NPromotionCapture => 12
    case BPromotionCapture => 13
    case RPromotionCapture => 14
    case QPromotionCapture => 15
  }

  const PromotionMoves: seq<MoveType> := [NPromotion, BPromotion, RPromotion, QPromotion]
  const PromotionCapturesMoves: seq<MoveType> :=
    [NPromotionCapture, BPromotionCapture, RPromotionCapture, QPromotionCapture]

  const PromotionBit: bv8 := 0x8
  const CaptureBit: bv8 := 0x4
  const CastlingBit: bv8 := 0x2

  predicate IsCaptureType(t: MoveType)
  {
    t in {Capture, EPCapture, NPromotionCapture, BPromotionCapture, RPromotionCapture, QPromotionCapture}
  }

  predicate IsPromotionType(t: MoveType)
  {
    t in {NPromotion, BPromotion, RPromotion, QPromotion,
          NPromotionCapture, BPromotionCapture, RPromotionCapture, QPromotionCapture}
  }

  datatype Castling = None | King | Queen | All

  /** (int) castling. */
  function CastlingValue(c: Castling): bv8
  {
    match c
    case None => 0
    case King => 1
    case Queen => 2
    case All => 3
  }

  /** (Castling) v for the two low bits of v. */
  function CastlingOf(v: bv8): (c: Castling)
    requires v < 4
    ensures CastlingValue(c) == v
  {
    if v == 0 then Castling.None else if v == 1 then Castling.King else if v == 2 then Castling.Queen else Castling.All
  }

  /** operator&(Castling, Castling). */
  predicate CastlingAnd(l: Castling, r: Castling)
  {
    CastlingValue(l) & CastlingValue(r) != 0
  }

  /** operator^(Castling, Castling). */
  function CastlingXor(l: Castling, r: Castling): Castling
  {
    CastlingOf(CastlingValue(l) ^ CastlingValue(r))
  }

  /** CastlingBlockSquares, indexed as the generator does: [color][side]. */
  function CastlingBlockSquares(c: Color, side: Side): BB
    requires c != Color.None
  {
    if c == White then (if side == 0 then 0x60 else 0xe)
    else (if side == 0 then 0x6000_0000_0000_0000 else 0x0e00_0000_0000_0000)
  }

  /** CastlingAttackSquares, indexed [color][side]. */
  function CastlingAttackSquares(c: Color, side: Side): BB
    requires c != Color.None
  {
    if c == White then (if side == 0 then 0x70 else 0x1c)
    else (if side == 0 then 0x7000_0000_0000_0000 else 0x1c00_0000_0000_0000)
  }

  // ---------------------------------------------------------------------------
  // Move-type bit layout

  /** CaptureBit is set exactly in the six capturing move types. */
  lemma CaptureBitMarksCaptures(t: MoveType)
    ensures MoveTypeValue(t) & CaptureBit != 0 <==> IsCaptureType(t)
  {}

  /** PromotionBit is set exactly in the eight promoting move types. */
  lemma PromotionBitMarksPromotions(t: MoveType)
    ensures MoveTypeValue(t) & PromotionBit != 0 <==> IsPromotionType(t)
  {}

  /** CastlingBit on a non-promotion, non-capture type picks out the two castles. */
  lemma CastlingBitMarksCastles(t: MoveType)
    ensures MoveTypeValue(t) & (PromotionBit | CaptureBit | CastlingBit) == CastlingBit
        <==> t in {KingCastle, QueenCastle}
  {}

  /** PromotionCapturesMoves[i] is PromotionMoves[i] with the capture bit added. */
  lemma PromotionCaptureAddsCaptureBit(i: int)
    requires 0 <= i < 4
    ensures MoveTypeValue(PromotionCapturesMoves[i]) == MoveTypeValue(PromotionMoves[i]) | CaptureBit
    ensures MoveTypeValue(PromotionMoves[i]) & CaptureBit == 0
  {}

  /** Distinct move types have distinct values, so the value identifies the type. */
  lemma MoveTypeValueInjective(s: MoveType, t: MoveType)
    ensures MoveTypeValue(s) == MoveTypeValue(t) ==> s == t
  {}

  // ---------------------------------------------------------------------------
  // Castling flags

  /** & holds exactly when the flags share a bit. */
  lemma CastlingAndCases(l: Castling, r: Castling)
    ensures CastlingAnd(Castling.All, Castling.King) && CastlingAnd(Castling.All, Castling.Queen)
    ensures !CastlingAnd(Castling.None, r) && !CastlingAnd(l, Castling.None)
    ensures !CastlingAnd(Castling.King, Castling.Queen) && !CastlingAnd(Castling.Queen, Castling.King)
    ensures l != Castling.None ==> CastlingAnd(l, l)
    ensures CastlingAnd(l, r) == CastlingAnd(r, l)
  {}

  /** A flag set is the pair of its king-side and queen-side bits. */
  lemma CastlingDeterminedBySides(l: Castling, r: Castling)
    ensures (CastlingAnd(l, Castling.King) == CastlingAnd(r, Castling.King) && CastlingAnd(l, Castling.Queen) == CastlingAnd(r, Castling.Queen))
        <==> l == r
  {}

  /** ^ is bitwise XOR on the four flag sets. */
  lemma CastlingXorLaws(a: Castling, b: Castling)
    ensures CastlingXor(CastlingXor(a, b), b) == a
    ensures CastlingXor(a, b) == CastlingXor(b, a)
    ensures CastlingXor(a, a) == Castling.None && CastlingXor(a, Castling.None) == a
    ensures CastlingXor(Castling.King, Castling.Queen) == Castling.All
    ensures CastlingXor(Castling.All, Castling.King) == Castling.Queen && CastlingXor(Castling.All, Castling.Queen) == Castling.King
  {}

  /** Toggling a side with ^ flips exactly that side's & test. */
  lemma CastlingXorToggles(a: Castling, side: Castling)
    requires side == Castling.King || side == Castling.Queen
    ensures CastlingAnd(CastlingXor(a, side), side) == !CastlingAnd(a, side)
    ensures var other := if side == Castling.King then Castling.Queen else Castling.King;
      CastlingAnd(CastlingXor(a, side), other) == CastlingAnd(a, other)
  {}

  // ---------------------------------------------------------------------------
  // Rows and columns

  /** Row k is the byte 0xff shifted up by 8(k-1), and the eight rows are disjoint. */
  lemma RowLayout(k: int, j: int)
    requires 1 <= k <= 8 && 1 <= j <= 8
    ensures RowBB(RowAt(k)) == 0xff << (8 * (k - 1)) as bv8
    ensures k != j ==> RowBB(RowAt(k)) & RowBB(RowAt(j)) == 0
  {}

  /** Together the rows cover the whole board. */
  lemma RowsCoverBoard()
    ensures RowBB(Row1) | RowBB(Row2) | RowBB(Row3) | RowBB(Row4) |
            RowBB(Row5) | RowBB(Row6) | RowBB(Row7) | RowBB(Row8) == Full
  {}

  /** COLUMN_INDEX[sq] is sq % 8. */
  lemma ColumnIndexIsFile(sq: int)
    requires 0 <= sq < 64
    ensures ColumnIndex[sq] == sq % 8
  {
    EightCopies(IndicesAToH, sq);
  }

  /** COLUMN_BY_SQUARE[sq] is the file sq % 8, and its mask holds sq. */
  lemma ColumnBySquareHoldsSquare(sq: Sq)
    ensures ColumnBySquare[sq as int] == ColumnsAToH[sq as int % 8]
    ensures Has(ColumnBB(ColumnBySquare[sq as int]), sq)
  {
    EightCopies(ColumnsAToH, sq as int);
    ColumnHas(sq);
  }

  lemma ColumnHas(sq: Sq)
    ensures Has(ColumnBB(ColumnsAToH[sq as int % 8]), sq)
  {
    var f := sq as int % 8;
    assert f == (sq % 8) as int;
    assert ColumnBB(ColumnsAToH[f]) == 0x0101_0101_0101_0101 << (sq % 8);
  }

  lemma EightCopies<T>(s: seq<T>, i: int)
    requires |s| == 8 && 0 <= i < 64
    ensures (s + s + s + s + s + s + s + s)[i] == s[i % 8]
  {}

  // ---------------------------------------------------------------------------
  // Edge masks

  /** Each cardinal NotEdge clears exactly its border row or column, and each diagonal
      one is the conjunction of its two cardinals. */
  lemma NotEdgeLayout()
    ensures NotEdgeBB(North) == !RowBB(Row8) && NotEdgeBB(South) == !RowBB(Row1)
    ensures NotEdgeBB(East) == !ColumnBB(H) && NotEdgeBB(West) == !ColumnBB(A)
    ensures NotEdgeBB(NorthEast) == NotEdgeBB(North) & NotEdgeBB(East)
    ensures NotEdgeBB(NorthWest) == NotEdgeBB(North) & NotEdgeBB(West)
    ensures NotEdgeBB(SouthEast) == NotEdgeBB(South) & NotEdgeBB(East)
    ensures NotEdgeBB(SouthWest) == NotEdgeBB(South) & NotEdgeBB(West)
  {}

  /** EDGE is the union of the border rows and columns and CORNER their four corners. */
  lemma EdgeAndCorner()
    ensures Edge == RowBB(Row1) | RowBB(Row8) | ColumnBB(A) | ColumnBB(H)
    ensures Corner == Mask(A1) | Mask(H1) | Mask(A8) | Mask(H8)
    ensures Corner & Edge == Corner
  {}

  // ---------------------------------------------------------------------------
  // Castling squares

  /** The attack mask holds the king's square and its landing square; the block mask holds
      the landing square but not the king's square, and the landing square is two files
      from the king. */
  lemma CastlingMasksCover(c: Color, side: Side)
    requires c != Color.None
    ensures Has(CastlingAttackSquares(c, side), InitKingPos(c))
    ensures Has(CastlingAttackSquares(c, side), CastlePosKing(c, side))
    ensures Has(CastlingBlockSquares(c, side), CastlePosKing(c, side))
    ensures !Has(CastlingBlockSquares(c, side), InitKingPos(c))
    ensures CastlePosKing(c, side) == if side == 0 then InitKingPos(c) + 2 else InitKingPos(c) - 2
    ensures Has(CastlingBlockSquares(c, side), CastlePosRook(c, side))
  {}
}
