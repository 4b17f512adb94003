/** engine/src/evaluation.cpp: the engine's static evaluation of a third-generation Board
    (module ChessBoard). The material balance and the positional sum are loops over the
    board's piece sets, each proved equal to a specification function; the score is seen
    from the side to move. MaterialValue::ALL, the PositionValue tables and MaterialValue::Inf
    are not part of this model: they are the parameter Tables. Integer overflow is not
    modelled. */
module EngineEvaluation {
  import opened Bits
  import opened SquareSets
  import opened ChessConstants
  import opened ChessBoard

  /** MaterialValue::ALL (one value per piece type, king last), PositionValue::ALL_WHITE and
      ALL_BLACK (a 64-square table per piece type) and MaterialValue::Inf. */
  datatype Tables = Tables(material: seq<int>, white: seq<seq<int>>, black: seq<seq<int>>, inf: int)

  /** The shapes the loops index: five material values for `.at(i)`, i < PIECECOUNT - 1, and
      a 64-entry row per piece type. */
  predicate ValidTables(t: Tables)
  {
    |t.material| >= 5 && |t.white| == 6 && |t.black| == 6 &&
    (forall i :: 0 <= i < 6 ==> |t.white[i]| == 64) &&
    (forall i :: 0 <= i < 6 ==> |t.black[i]| == 64)
  }

  /** SideModifier: the score as seen by `color`. */
  function SideModifier(color: Color, value: int): int
  {
    if color == Color.White then value else -value
  }

  /** Seen by the other side, a score changes sign; and SideModifier is its own inverse. */
  lemma SideModifierFlips(color: Color, value: int)
    requires color != Color.None
    ensures SideModifier(Opposite(color), value) == -SideModifier(color, value)
    ensures SideModifier(color, SideModifier(color, value)) == value
  {
  }

  // ---------------------------------------------------------------------------
  // EvalMaterial

  /** The material balance over the first k piece types: white count minus black count,
      times the type's value. */
  function Material(white: seq<int>, black: seq<int>, values: seq<int>, k: nat): int
    requires k <= |white| && k <= |black| && k <= |values|
  {
    if k == 0 then 0 else Material(white, black, values, k - 1) + Weighted(white[k - 1], black[k - 1], values[k - 1])
  }

  /** One piece type's share of the balance. */
  function Weighted(whiteCount: int, blackCount: int, pieceValue: int): int
  {
    (whiteCount - blackCount) * pieceValue
  }

  /** Swapping the two colours' counts negates the balance. */
  lemma {:induction false} MaterialAntisymmetric(white: seq<int>, black: seq<int>, values: seq<int>, k: nat)
    requires k <= |white| && k <= |black| && k <= |values|
    ensures Material(black, white, values, k) == -Material(white, black, values, k)
  {
    if k > 0 {
      MaterialAntisymmetric(white, black, values, k - 1);
      assert Weighted(black[k - 1], white[k - 1], values[k - 1]) == -Weighted(white[k - 1], black[k - 1], values[k - 1]);
    }
  }

  /** Equal counts balance to zero, whatever the values. */
  lemma {:induction false} MaterialEven(counts: seq<int>, values: seq<int>, k: nat)
    requires k <= |counts| && k <= |values|
    ensures Material(counts, counts, values, k) == 0
  {
    if k > 0 {
      MaterialEven(counts, values, k - 1);
    }
  }

  /** The i-th piece type's squares of colour c in a board's fields: GetPiecePos(c, (PieceType)i). */
  function PiecesOf(s: BoardState, c: Color, i: nat): Squares
    requires ValidState(s) && c != Color.None && i < 6
  {
    s.pieceBB[i] * s.colorBB[ColorIndex(c)]
  }

  /** The piece counts of one colour, Pawn to Queen. */
  function Counts(s: BoardState, c: Color): (r: seq<int>)
    requires ValidState(s) && c != Color.None
    ensures |r| == 5 && forall i :: 0 <= i < 5 ==> r[i] == |PiecesOf(s, c, i)|
  {
    [|PiecesOf(s, c, 0)|, |PiecesOf(s, c, 1)|, |PiecesOf(s, c, 2)|, |PiecesOf(s, c, 3)|, |PiecesOf(s, c, 4)|]
  }

  /** (PieceType)i is the type of index i. */
  lemma PieceOfIndex(i: nat)
    requires i < 6
    ensures TypeIndex(Pieces[i]) == i && Pieces[i] != PieceType.None
  {
  }

  /** The loop's GetPieceCount and GetPiecePos calls read the board's fields. */
  lemma BoardReads(board: Board, c: Color, i: nat)
    requires board.Valid() && c != Color.None && i < 6
    ensures Pieces[i] != PieceType.None
    ensures board.GetPiecePos(c, Pieces[i]) == PiecesOf(board.State(), c, i)
    ensures board.GetPieceCount(c, Pieces[i]) == |PiecesOf(board.State(), c, i)|
  {
    PieceOfIndex(i);
  }

  /** EvalMaterial: the king is not counted. */
  method EvalMaterial(board: Board, t: Tables) returns (value: int)
    requires board.Valid() && ValidTables(t)
    ensures value == Material(Counts(board.State(), Color.White), Counts(board.State(), Color.Black), t.material, 5)
  {
    ghost var white, black := Counts(board.State(), Color.White), Counts(board.State(), Color.Black);
    value := 0;
    for i := 0 to PieceCount - 1
      invariant value == Material(white, black, t.material, i)
    {
      BoardReads(board, Color.White, i);
      BoardReads(board, Color.Black, i);
      var whiteCount: int := board.GetPieceCount(Color.White, Pieces[i]);
      var blackCount: int := board.GetPieceCount(Color.Black, Pieces[i]);
      var pieceValue := t.material[i];
      assert whiteCount == white[i] && blackCount == black[i];
      value := value + Weighted(whiteCount, blackCount, pieceValue);
    }
  }

  // ---------------------------------------------------------------------------
  // EvalPosition

  /** The table entries of the squares of s, added lowest square first. */
  function SquareSum(row: seq<int>, s: Squares): int
    requires |row| == 64
    decreases |s|
  {
    if s == {} then 0 else row[Lowest(s)] + SquareSum(row, PopLowest(s))
  }

  /** The order the squares are popped in does not matter: any square of s may be taken
      first. */
  lemma {:induction false} SquareSumAny(row: seq<int>, s: Squares, x: Sq)
    requires |row| == 64 && x in s
    ensures SquareSum(row, s) == row[x] + SquareSum(row, s - {x})
    decreases |s|
  {
    var l := Lowest(s) as Sq;
    if l != x {
      SquareSumAny(row, PopLowest(s), x);
      LowestWithout(s, x);
      assert PopLowest(s - {x}) == PopLowest(s) - {x};
    }
  }

  /** Taking out a square other than the lowest leaves the lowest in place. */
  lemma LowestWithout(s: Squares, x: Sq)
    requires x in s && Lowest(s) != x
    ensures Lowest(s - {x}) == Lowest(s)
  {
    var l := Lowest(s) as Sq;
    assert l in s - {x};
    SetMin(s - {x}, l);
  }

  /** The table of `color`'s type i. */
  function Row(t: Tables, color: Color, i: nat): (r: seq<int>)
    requires ValidTables(t) && i < 6
    ensures |r| == 64
  {
    if color == Color.White then t.white[i] else t.black[i]
  }

  /** The positional value of `color`'s pieces of the first k types. */
  function Positional(s: BoardState, t: Tables, color: Color, k: nat): int
    requires ValidState(s) && ValidTables(t) && color != Color.None && k <= 6
  {
    if k == 0 then 0
    else Positional(s, t, color, k - 1) + SquareSum(Row(t, color, k - 1), PiecesOf(s, color, k - 1))
  }

  /** EvalPosition(board, color): every piece of `color` adds its table's entry for its
      square. The source has one loop per colour, differing only in the table. */
  method EvalPositionOf(board: Board, t: Tables, color: Color) returns (value: int)
    requires board.Valid() && ValidTables(t) && color != Color.None
    ensures value == Positional(board.State(), t, color, 6)
  {
    ghost var s := board.State();
    value := 0;
    for i := 0 to PieceCount
      invariant value == Positional(s, t, color, i)
    {
      BoardReads(board, color, i);
      var pieces := board.GetPiecePos(color, Pieces[i]);
      var row := Row(t, color, i);
      ghost var start := value;
      while pieces != {}
        invariant value + SquareSum(row, pieces) == start + SquareSum(row, PiecesOf(s, color, i))
        decreases |pieces|
      {
        var sq := Lowest(pieces);
        pieces := PopLowest(pieces);
        value := value + row[sq];
      }
    }
  }

  /** EvalPosition(board): the side to move's pieces only. */
  method EvalPosition(board: Board, t: Tables) returns (value: int)
    requires board.Valid() && ValidTables(t) && board.turn != Color.None
    ensures value == Positional(board.State(), t, board.turn, 6)
  {
    value := EvalPositionOf(board, t, board.GetTurn());
  }

  /** The score Eval gives a board's fields: position and material, from the side to move. */
  function Score(s: BoardState, t: Tables): int
    requires ValidState(s) && ValidTables(t) && s.turn != Color.None
  {
    SideModifier(s.turn, Positional(s, t, s.turn, 6) + Material(Counts(s, Color.White), Counts(s, Color.Black), t.material, 5))
  }

  /** With Black to move, the material balance is seen from Black's side, but Black's own
      positional sum is subtracted: SideModifier negates the whole sum, and EvalPosition
      only counted the side to move's pieces. */
  lemma ScoreForBlack(s: BoardState, t: Tables)
    requires ValidState(s) && ValidTables(t) && s.turn == Color.Black
    ensures Score(s, t) == Material(Counts(s, Color.Black), Counts(s, Color.White), t.material, 5) - Positional(s, t, Color.Black, 6)
  {
    MaterialAntisymmetric(Counts(s, Color.White), Counts(s, Color.Black), t.material, 5);
  }

  /** Eval. */
  method Eval(board: Board, t: Tables) returns (score: int)
    requires board.Valid() && ValidTables(t) && board.turn != Color.None
    ensures score == Score(board.State(), t)
  {
    var position := EvalPosition(board, t);
    var material := EvalMaterial(board, t);
    score := SideModifier(board.GetTurn(), position + material);
  }

  /** EvalNoMove: checkmate is minus MaterialValue::Inf, stalemate is a draw. */
  function EvalNoMove(isKingSafe: bool, t: Tables): (r: int)
    ensures isKingSafe ==> r == 0
    ensures !isKingSafe ==> r == -t.inf
  {
    if !isKingSafe then -t.inf else 0
  }
}
