/** src/move_gen/piece_gen.cpp: the second generation's per-piece generator. A slider walks
    a frontier outwards one square per round; every round the empty squares it reaches become
    quiet moves and the enemy squares it reaches become captures, and only empty squares keep
    walking. Bitboards are sets of squares; the board (board.hh), BitShifts::Shift and the
    king-safety test are not part of this model and appear through the functions below. */
module SrcPieceGen {
  import opened ChessConstants
  import Bits

  /** A square index, a1 = 0 up to h8 = 63. */
  type Square = i: int | 0 <= i < 64

  /** A U64 bitboard, read as the set of its squares. */
  type Bitboard = set<Square>

  /** Move(type, from, to[, captured]) of the src/ generation; a quiet move captures None. */
  datatype Move = Move(kind: MoveType, from: int, to: int, captured: PieceType)

  // ---------------------------------------------------------------------------
  // Directions and shifts

  /** (int) direction: the change of square index of one step. */
  function Offset(d: Direction): int
    requires d != Direction.None
  {
    match d
    case North => 8
    case East => 1
    case South => -8
    case West => -1
    case NorthEast => 9
    case NorthWest => 7
    case SouthEast => -7
    case SouthWest => -9
  }

  /** Utilities::GetOppositeDirection. */
  function OppositeDirection(d: Direction): (r: Direction)
    requires d != Direction.None
    ensures r != Direction.None && Offset(r) == -Offset(d)
  {
    match d
    case North => South
    case East => West
    case South => North
    case West => East
    case NorthEast => SouthWest
    case NorthWest => SouthEast
    case SouthEast => NorthWest
    case SouthWest => NorthEast
  }

  function Min(a: int, b: int): int { if a <= b then a else b }

  /** The row and column change of one step in direction d. */
  function RowDelta(d: Direction): int
  {
    match d
    case North => 1
    case NorthEast => 1
    case NorthWest => 1
    case South => -1
    case SouthEast => -1
    case SouthWest => -1
    case _ => 0
  }

  function ColumnDelta(d: Direction): int
  {
    match d
    case East => 1
    case NorthEast => 1
    case SouthEast => 1
    case West => -1
    case NorthWest => -1
    case SouthWest => -1
    case _ => 0
  }

  /** The number of single steps in direction d that stay on the board from (row, col). */
  function DistAt(row: int, col: int, d: Direction): int
    requires d != Direction.None
  {
    match d
    case North => 7 - row
    case East => 7 - col
    case South => row
    case West => col
    case NorthEast => Min(7 - row, 7 - col)
    case NorthWest => Min(7 - row, col)
    case SouthEast => Min(row, 7 - col)
    case SouthWest => Min(row, col)
  }

  /** The number of single steps in direction d that stay on the board from sq. */
  function Dist(sq: Square, d: Direction): (n: nat)
    requires d != Direction.None
    ensures n <= 7
  {
    DistAt(sq / 8, sq % 8, d)
  }

  /** Utilities::NotEdge(d): the squares a one-step shift in direction d may start from. */
  function NotEdge(d: Direction): Bitboard
    requires d != Direction.None
  {
    set sq: Square | Dist(sq, d) >= 1
  }

  /** The North and South masks of the NotEdge enum hold exactly the squares off the top
      and bottom rows. */
  lemma NotEdgeRows(d: Direction, s: Bits.Sq)
    requires d == Direction.North || d == Direction.South
    ensures Dist(s as int, d) >= 1 <==> Bits.Has(NotEdgeBB(d), s)
  {
  }

  /** The East and West masks of the NotEdge enum hold exactly the squares off the right
      and left columns. */
  lemma NotEdgeColumns(d: Direction, s: Bits.Sq)
    requires d == Direction.East || d == Direction.West
    ensures Dist(s as int, d) >= 1 <==> Bits.Has(NotEdgeBB(d), s)
  {
  }

  /** A diagonal's mask is the AND of two cardinal masks: a square is in it exactly when
      it is in both. */
  lemma NotEdgeBoth(x: Bits.BB, y: Bits.BB, s: Bits.Sq, inX: bool, inY: bool)
    requires inX <==> Bits.Has(x, s)
    requires inY <==> Bits.Has(y, s)
    ensures inX && inY <==> Bits.Has(x & y, s)
  {
    Bits.HasAnd(x, y, s);
  }

  /** Each diagonal's NotEdge mask, the AND of two cardinal ones, against its squares. */
  lemma NotEdgeNorthEast(s: Bits.Sq)
    ensures s as int in NotEdge(Direction.NorthEast) <==> Bits.Has(NotEdgeBB(Direction.NorthEast), s)
  {
    NotEdgeRows(Direction.North, s);
    NotEdgeColumns(Direction.East, s);
    NotEdgeBoth(NotEdgeNorth, NotEdgeEast, s, Dist(s as int, Direction.North) >= 1, Dist(s as int, Direction.East) >= 1);
  }

  lemma NotEdgeNorthWest(s: Bits.Sq)
    ensures s as int in NotEdge(Direction.NorthWest) <==> Bits.Has(NotEdgeBB(Direction.NorthWest), s)
  {
    NotEdgeRows(Direction.North, s);
    NotEdgeColumns(Direction.West, s);
    NotEdgeBoth(NotEdgeNorth, NotEdgeWest, s, Dist(s as int, Direction.North) >= 1, Dist(s as int, Direction.West) >= 1);
  }

  lemma NotEdgeSouthEast(s: Bits.Sq)
    ensures s as int in NotEdge(Direction.SouthEast) <==> Bits.Has(NotEdgeBB(Direction.SouthEast), s)
  {
    NotEdgeRows(Direction.South, s);
    NotEdgeColumns(Direction.East, s);
    NotEdgeBoth(NotEdgeSouth, NotEdgeEast, s, Dist(s as int, Direction.South) >= 1, Dist(s as int, Direction.East) >= 1);
  }

  lemma NotEdgeSouthWest(s: Bits.Sq)
    ensures s as int in NotEdge(Direction.SouthWest) <==> Bits.Has(NotEdgeBB(Direction.SouthWest), s)
  {
    NotEdgeRows(Direction.South, s);
    NotEdgeColumns(Direction.West, s);
    NotEdgeBoth(NotEdgeSouth, NotEdgeWest, s, Dist(s as int, Direction.South) >= 1, Dist(s as int, Direction.West) >= 1);
  }

  /** Utilities::NotEdge(d) read as a set is the mask of the NotEdge enum for d: a square is
      in it exactly when its bit is set in the mask. */
  lemma NotEdgeIsMask(d: Direction, s: Bits.Sq)
    requires d != Direction.None
    ensures s as int in NotEdge(d) <==> Bits.Has(NotEdgeBB(d), s)
  {
    match d
    case NorthEast => NotEdgeNorthEast(s);
    case NorthWest => NotEdgeNorthWest(s);
    case SouthEast => NotEdgeSouthEast(s);
    case SouthWest => NotEdgeSouthWest(s);
    case North => NotEdgeRows(d, s);
    case South => NotEdgeRows(d, s);
    case East => NotEdgeColumns(d, s);
    case West => NotEdgeColumns(d, s);
  }

  /** BitShifts::Shift(b, d, n): every square moved by n steps of d's offset as one 64-bit
      shift; squares shifted out of the word are lost, and nothing stops a square from
      wrapping onto the next row (that is what NotEdge is for). */
  function Shift(b: Bitboard, d: Direction, n: int): Bitboard
    requires d != Direction.None
  {
    set sq | sq in b && 0 <= sq + n * Offset(d) < 64 :: (sq + n * Offset(d)) as Square
  }

  /** a ^ b on bitboards. */
  function Xor(a: Bitboard, b: Bitboard): Bitboard
  {
    (a - b) + (b - a)
  }

  /** A step from a square that is not on d's edge stays on the board, one step nearer that
      edge. */
  lemma StepOnBoard(sq: Square, d: Direction)
    requires d != Direction.None && Dist(sq, d) >= 1
    ensures 0 <= sq + Offset(d) < 64
    ensures Dist((sq + Offset(d)) as Square, d) == Dist(sq, d) - 1
  {
    var row, col := sq / 8 + RowDelta(d), sq % 8 + ColumnDelta(d);
    assert Offset(d) == 8 * RowDelta(d) + ColumnDelta(d);
    assert 0 <= row < 8 && 0 <= col < 8;
    SquareOf(row, col);
    assert DistAt(row, col, d) == DistAt(sq / 8, sq % 8, d) - 1;
  }

  /** The square in a row and a column. */
  lemma SquareOf(row: int, col: int)
    requires 0 <= row < 8 && 0 <= col < 8
    ensures 0 <= 8 * row + col < 64 && (8 * row + col) / 8 == row && (8 * row + col) % 8 == col
  {
  }

  // ---------------------------------------------------------------------------
  // Popping squares

  /** The lowest square of a non-empty bitboard (what Utilities::LSB returns); LeastIsLowest
      says it is the lowest. */
  function Least(b: Bitboard): (r: Square)
    requires b != {}
    ensures r in b
  {
    LeastFrom(b, 0)
  }

  /** The first square of b at or above i. */
  function LeastFrom(b: Bitboard, i: Square): (r: Square)
    requires exists x :: x in b && i <= x
    ensures r in b && i <= r
    decreases 64 - i
  {
    if i in b then i
    else
      var x :| x in b && i <= x;
      assert i < x;
      LeastFrom(b, i + 1)
  }

  /** No square of b at or above i comes before LeastFrom(b, i). */
  lemma {:induction false} LeastFromIsLowest(b: Bitboard, i: Square, x: Square)
    requires x in b && i <= x
    ensures LeastFrom(b, i) <= x
    decreases 64 - i
  {
    if i !in b {
      assert i < x;
      LeastFromIsLowest(b, i + 1, x);
    }
  }

  /** Least(b) is the lowest square of b. */
  lemma LeastIsLowest(b: Bitboard)
    requires b != {}
    ensures forall x :: x in b ==> Least(b) <= x
  {
    forall x | x in b
      ensures Least(b) <= x
    {
      LeastFromIsLowest(b, 0, x);
    }
  }

  /** Utilities::LSB_Pop of the src/ generation (its body is not part of this model): the
      lowest square, and the bitboard without it. */
  method LsbPop(b: Bitboard) returns (sq: Square, rest: Bitboard)
    requires b != {}
    ensures sq == Least(b) && rest == b - {sq} && |rest| < |b|
  {
    sq := Least(b);
    rest := b - {sq};
  }

  // ---------------------------------------------------------------------------
  // One slider walking in one direction

  /** What a call of GetSlidingMoves or GetSlidingAttacks is given: the board, the mover's
      colour and the opponent's, the direction, whether the king is known safe, and the
      squares the opponent attacks. */
  datatype Ray = Ray(board: Board, color: Color, oppColor: Color, d: Direction,
                     isKingSafe: bool, attacked: Bitboard)
  {
    predicate Valid() { d != Direction.None }
  }

  /** The queries the generator makes of a src/ Board: GetColorBB, GetOccupiedBB, GetType,
      and IsKingSafe with a simulated occupancy (and enemy set). The king-safety test is not
      part of this model: it is given as the occupancies (and occupancy and enemy pairs) in
      which the mover's king is safe. */
  datatype Board = Board(whiteBB: Bitboard, blackBB: Bitboard, occupied: Bitboard,
                         types: map<Square, PieceType>,
                         safeOccupancies: set<Bitboard>, safeAgainst: set<(Bitboard, Bitboard)>)
  {
    /** GetColorBB(color). */
    function ColorBB(c: Color): Bitboard
    {
      match c
      case White => whiteBB
      case Black => blackBB
      case None => {}
    }

    /** GetType(sq): the type of the piece on sq, None on an empty square. */
    function TypeAt(sq: Square): PieceType
    {
      if sq in types then types[sq] else PieceType.None
    }

    /** IsKingSafe(occupied). */
    predicate KingSafe(occ: Bitboard)
    {
      occ in safeOccupancies
    }

    /** IsKingSafe(occupied, enemies). */
    predicate KingSafeAgainst(occ: Bitboard, enemies: Bitboard)
    {
      (occ, enemies) in safeAgainst
    }
  }

  /** One round of the walk: shift the frontier one step (after the NotEdge mask) and drop
      the mover's own squares. */
  function Advance(r: Ray, p: Bitboard): Bitboard
    requires r.Valid()
  {
    Shift(p * NotEdge(r.d), r.d, 1) - r.board.ColorBB(r.color)
  }

  /** Every square of the frontier is at least `counter` - 1 steps from where it started:
      it can take at most 8 - counter more steps. */
  ghost predicate Within(p: Bitboard, d: Direction, counter: int)
    requires d != Direction.None
  {
    forall sq {:trigger Steps(sq, d)} :: sq in p ==> Steps(sq, d) + counter <= 8
  }

  /** Dist under its own name, so that Within is only unfolded where a proof asks for it. */
  ghost function Steps(sq: Square, d: Direction): nat
    requires d != Direction.None
  {
    Dist(sq, d)
  }

  /** A round moves every square one step nearer the edge. */
  lemma AdvanceWithin(r: Ray, p: Bitboard, counter: int)
    requires r.Valid() && Within(p, r.d, counter)
    ensures Within(Advance(r, p), r.d, counter + 1)
  {
    forall sq | sq in Advance(r, p)
      ensures Steps(sq, r.d) + counter + 1 <= 8
    {
      var s :| s in p * NotEdge(r.d) && sq == s + Offset(r.d);
      StepOnBoard(s, r.d);
      assert Steps(s, r.d) + counter <= 8;
    }
  }

  /** A non-empty frontier has not walked past the board. */
  lemma WithinBound(p: Bitboard, d: Direction, counter: int)
    requires d != Direction.None && Within(p, d, counter) && p != {}
    ensures counter <= 8
  {
    var sq :| sq in p;
    assert Steps(sq, d) + counter <= 8;
  }

  /** The square a move found after `counter` steps came from: the target shifted back,
      and the target index minus counter steps. */
  function Origin(r: Ray, sq: Square, counter: int): Bitboard
    requires r.Valid()
  {
    Shift({sq}, OppositeDirection(r.d), counter)
  }

  /** The simulated-board test a move must pass: the shortcut (the king is known safe and
      the moving piece is not attacked) or IsKingSafe on the board after the move. */
  predicate QuietSafe(r: Ray, ori: Bitboard, sq: Square)
  {
    (r.isKingSafe && ori * r.attacked == {}) || r.board.KingSafe(Xor(r.board.occupied, ori) + {sq})
  }

  predicate CaptureSafe(r: Ray, ori: Bitboard, sq: Square)
  {
    (r.isKingSafe && ori * r.attacked == {})
      || r.board.KingSafeAgainst(Xor(r.board.occupied, ori) + {sq}, Xor(r.board.ColorBB(r.oppColor), {sq}))
  }

  /** The inner loops' steps: a quiet move or a capture onto sq, found in round `counter`. */
  datatype Emitter = QuietTo(r: Ray, counter: int) | CaptureTo(r: Ray, counter: int)

  function Emit(e: Emitter, sq: Square): seq<Move>
    requires e.r.Valid()
  {
    var ori := Origin(e.r, sq, e.counter);
    var from := sq - Offset(e.r.d) * e.counter;
    match e
    case QuietTo(r, _) =>
      if QuietSafe(r, ori, sq) then [Move(MoveType.Quiet, from, sq, PieceType.None)] else []
    case CaptureTo(r, _) =>
      if CaptureSafe(r, ori, sq) then [Move(MoveType.Capture, from, sq, r.board.TypeAt(sq))] else []
  }

  /** GetSlidingMoves from the end of round `counter` on, p being the frontier that round
      left: the frontier takes a step and its empty squares are the next round's. */
  function Quiets(r: Ray, p: Bitboard, counter: int): seq<Move>
    requires r.Valid() && Within(p, r.d, counter + 1)
    decreases if p == {} then 0 else 9 - counter, 0, 0
  {
    if p == {} then []
    else
      WithinBound(p, r.d, counter + 1);
      AdvanceWithin(r, p, counter + 1);
      var next := Advance(r, p) - r.board.occupied;
      QuietsPopping(r, next, next, counter + 1)
  }

  /** GetSlidingMoves from inside round `counter`: the squares x still to pop, lowest first,
      then the rounds after it. */
  function QuietsPopping(r: Ray, p: Bitboard, x: Bitboard, counter: int): seq<Move>
    requires r.Valid() && Within(p, r.d, counter + 1)
    decreases if p == {} then 0 else 9 - counter, |x|, 1
  {
    if x != {} then
      var sq := Least(x);
      Emit(QuietTo(r, counter), sq) + QuietsPopping(r, p, x - {sq}, counter)
    else Quiets(r, p, counter)
  }

  /** GetSlidingAttacks from the end of round `counter` on, p being the empty squares that
      walk on: the frontier takes a step and splits into the next round's occupied squares,
      which are popped, and empty squares, which walk on. */
  function Takes(r: Ray, p: Bitboard, counter: int): seq<Move>
    requires r.Valid() && Within(p, r.d, counter + 1)
    decreases if p == {} then 0 else 9 - counter, 0, 0
  {
    if p == {} then []
    else
      WithinBound(p, r.d, counter + 1);
      AdvanceWithin(r, p, counter + 1);
      var next := Advance(r, p);
      TakesPopping(r, next - r.board.occupied, next * r.board.occupied, counter + 1)
  }

  /** GetSlidingAttacks from inside round `counter`: the occupied squares x still to pop,
      lowest first, then the rounds after it. */
  function TakesPopping(r: Ray, p: Bitboard, x: Bitboard, counter: int): seq<Move>
    requires r.Valid() && Within(p, r.d, counter + 1)
    decreases if p == {} then 0 else 9 - counter, |x|, 1
  {
    if x != {} then
      var sq := Least(x);
      Emit(CaptureTo(r, counter), sq) + TakesPopping(r, p, x - {sq}, counter)
    else Takes(r, p, counter)
  }

  // ---------------------------------------------------------------------------
  // Writing into the move array

  /** The array a after list has been written from index start on. */
  function Written(a: seq<Move>, start: int, list: seq<Move>): (r: seq<Move>)
    requires 0 <= start && start + |list| <= |a|
    ensures |r| == |a|
  {
    a[..start] + list + a[start + |list|..]
  }

  /** Writing one more move after a written list extends the list. */
  lemma WrittenAppend(a: seq<Move>, start: int, list: seq<Move>, m: Move)
    requires 0 <= start && start + |list| < |a|
    ensures Written(a, start, list)[start + |list| := m] == Written(a, start, list + [m])
  {
    var w := Written(a, start, list)[start + |list| := m];
    var v := Written(a, start, list + [m]);
    forall k | 0 <= k < |a|
      ensures w[k] == v[k]
    {
      if k < start {
      } else if k < start + |list| {
        assert v[k] == (list + [m])[k - start];
      } else if k == start + |list| {
      } else {
        assert v[k] == a[k];
      }
    }
  }

  /** The per-piece generator: the colour it generates for and its opponent's. Its
      GetAttackMoves and GetQuietMoves are overridden per piece type in files that are not
      part of this model, so they are carried as the move lists they produce. */
  class PieceGen {
    const color: Color
    const oppColor: Color
    const attackList: (Board, Bitboard, bool) -> seq<Move>
    const quietList: (Board, Bitboard, bool) -> seq<Move>

    constructor(color: Color, attackList: (Board, Bitboard, bool) -> seq<Move>,
                quietList: (Board, Bitboard, bool) -> seq<Move>)
      requires color != Color.None
      ensures this.color == color && this.oppColor == Opposite(color)
      ensures this.attackList == attackList && this.quietList == quietList
    {
      this.color := color;
      this.oppColor := Opposite(color);
      this.attackList := attackList;
      this.quietList := quietList;
    }

    /** The slide of one direction for this generator. */
    function RayOf(board: Board, d: Direction, isKingSafe: bool, attacked: Bitboard): (r: Ray)
      requires d != Direction.None
      ensures r.Valid()
    {
      Ray(board, color, oppColor, d, isKingSafe, attacked)
    }

    /** AppendMove(moves, index, &moveCount, move): the move goes to slot index and the
        count goes up by one. */
    static method AppendMove(moves: array<Move>, index: int, moveCount: nat, move: Move) returns (count: nat)
      requires 0 <= index < moves.Length
      modifies moves
      ensures moves[..] == old(moves[..])[index := move] && count == moveCount + 1
    {
      moves[index] := move;
      count := moveCount + 1;
    }

    /** GetSlidingMoves: the quiet moves of the pieces in direction d, written from
        startIndex on; the result is how many were written. */
    method GetSlidingMoves(moves: array<Move>, board: Board, pieces: Bitboard, d: Direction,
                           isKingSafe: bool, startIndex: nat, attacked: Bitboard) returns (moveCount: nat)
      requires d != Direction.None
      requires startIndex + |Quiets(RayOf(board, d, isKingSafe, attacked), pieces, 0)| <= moves.Length
      modifies moves
      ensures var list := Quiets(RayOf(board, d, isKingSafe, attacked), pieces, 0);
              moveCount == |list| && moves[..] == Written(old(moves[..]), startIndex, list)
    {
      var r := RayOf(board, d, isKingSafe, attacked);
      ghost var a := moves[..];
      ghost var total := Quiets(r, pieces, 0);
      ghost var done: seq<Move> := [];
      var pieces := pieces;
      moveCount := 0;
      var counter := 1;
      while pieces != {}
        invariant 1 <= counter && Within(pieces, d, counter) && (pieces != {} ==> counter <= 8)
        invariant done + Quiets(r, pieces, counter - 1) == total
        invariant moveCount == |done| && startIndex + |total| <= moves.Length
        invariant moves[..] == Written(a, startIndex, done)
        decreases if pieces == {} then 0 else 9 - counter
      {
        pieces, moveCount, done := QuietRound(moves, r, counter, pieces, startIndex, moveCount, a, done, total);
        counter := counter + 1;
      }
    }

    /** One pass of GetSlidingMoves' outer loop (piece_gen.cpp:18-29 without the counter):
        the frontier moves a step, and its empty squares are popped as quiet moves. */
    method QuietRound(moves: array<Move>, r: Ray, counter: int, pieces: Bitboard, startIndex: nat,
                      moveCount: nat, ghost a: seq<Move>, ghost done: seq<Move>, ghost total: seq<Move>)
      returns (next: Bitboard, count: nat, ghost done': seq<Move>)
      requires r.Valid() && r.color == color && pieces != {} && 1 <= counter && Within(pieces, r.d, counter)
      requires done + Quiets(r, pieces, counter - 1) == total
      requires moveCount == |done| && startIndex + |total| <= moves.Length
      requires |a| == moves.Length && moves[..] == Written(a, startIndex, done)
      modifies moves
      ensures Within(next, r.d, counter + 1) && (next != {} ==> counter + 1 <= 8)
      ensures done' + Quiets(r, next, counter) == total
      ensures count == |done'| && moves[..] == Written(a, startIndex, done')
    {
      var board, d := r.board, r.d;
      AdvanceWithin(r, pieces, counter);
      next := Shift(pieces * NotEdge(d), d, 1) - board.ColorBB(color);
      next := next - board.occupied;
      assert Quiets(r, pieces, counter - 1) == QuietsPopping(r, next, next, counter);
      var quietMoves := next;
      count, done' := QuietLoop(moves, r, counter, next, quietMoves, startIndex, moveCount, a, done, total);
      if next != {} {
        WithinBound(next, d, counter + 1);
      }
    }

    /** The inner loop of GetSlidingMoves (piece_gen.cpp:21-27): the empty squares reached in
        round `counter`, lowest first, each written if its move passes the king-safety
        test. `done` is what the call has written so far, `total` all it will write. */
    method QuietLoop(moves: array<Move>, r: Ray, counter: int, p: Bitboard, squares: Bitboard,
                     startIndex: nat, moveCount: nat, ghost a: seq<Move>, ghost done: seq<Move>,
                     ghost total: seq<Move>)
      returns (count: nat, ghost done': seq<Move>)
      requires r.Valid() && Within(p, r.d, counter + 1)
      requires done + QuietsPopping(r, p, squares, counter) == total
      requires moveCount == |done| && startIndex + |total| <= moves.Length
      requires |a| == moves.Length && moves[..] == Written(a, startIndex, done)
      modifies moves
      ensures done' + Quiets(r, p, counter) == total
      ensures count == |done'| && moves[..] == Written(a, startIndex, done')
    {
      ghost var e := QuietTo(r, counter);
      var quietMoves := squares;
      count, done' := moveCount, done;
      while quietMoves != {}
        invariant done' + QuietsPopping(r, p, quietMoves, counter) == total
        invariant count == |done'| && moves[..] == Written(a, startIndex, done')
        decreases |quietMoves|
      {
        var lsb;
        ghost var before, x := done', quietMoves;
        lsb, quietMoves := LsbPop(quietMoves);
        assert QuietsPopping(r, p, x, counter) == Emit(e, lsb) + QuietsPopping(r, p, quietMoves, counter);
        Assoc(before, Emit(e, lsb), QuietsPopping(r, p, quietMoves, counter));
        count, done' := QuietMove(moves, r, counter, lsb, startIndex, count, a, done');
      }
    }

    /** One pass of the inner loop of GetSlidingMoves (piece_gen.cpp:23-26): the origin is
        the target shifted back by `counter` steps, and the quiet move is written if it passes
        the king-safety test. */
    method QuietMove(moves: array<Move>, r: Ray, counter: int, lsb: Square, startIndex: nat,
                     moveCount: nat, ghost a: seq<Move>, ghost done: seq<Move>)
      returns (count: nat, ghost done': seq<Move>)
      requires r.Valid()
      requires moveCount == |done| && startIndex + |done| + |Emit(QuietTo(r, counter), lsb)| <= moves.Length
      requires |a| == moves.Length && moves[..] == Written(a, startIndex, done)
      modifies moves
      ensures done' == done + Emit(QuietTo(r, counter), lsb)
      ensures count == |done'| && moves[..] == Written(a, startIndex, done')
    {
      var board, d, isKingSafe, attacked := r.board, r.d, r.isKingSafe, r.attacked;
      count, done' := moveCount, done;
      var oriPiece := Shift({lsb}, OppositeDirection(d), counter);
      if (isKingSafe && oriPiece * attacked == {}) || board.KingSafe(Xor(board.occupied, oriPiece) + {lsb}) {
        var m := Move(MoveType.Quiet, lsb - Offset(d) * counter, lsb, PieceType.None);
        WrittenAppend(a, startIndex, done, m);
        count := AppendMove(moves, startIndex + count, count, m);
        done' := done + [m];
      }
    }

    /** GetSlidingAttacks: the captures of the pieces in direction d, written from startIndex
        on; the result is how many were written. */
    method GetSlidingAttacks(moves: array<Move>, board: Board, pieces: Bitboard, d: Direction,
                             isKingSafe: bool, startIndex: nat, attacked: Bitboard) returns (moveCount: nat)
      requires d != Direction.None
      requires startIndex + |Takes(RayOf(board, d, isKingSafe, attacked), pieces, 0)| <= moves.Length
      modifies moves
      ensures var list := Takes(RayOf(board, d, isKingSafe, attacked), pieces, 0);
              moveCount == |list| && moves[..] == Written(old(moves[..]), startIndex, list)
    {
      var r := RayOf(board, d, isKingSafe, attacked);
      ghost var a := moves[..];
      ghost var total := Takes(r, pieces, 0);
      ghost var done: seq<Move> := [];
      var pieces := pieces;
      moveCount := 0;
      var counter := 1;
      while pieces != {}
        invariant 1 <= counter && Within(pieces, d, counter) && (pieces != {} ==> counter <= 8)
        invariant done + Takes(r, pieces, counter - 1) == total
        invariant moveCount == |done| && startIndex + |total| <= moves.Length
        invariant moves[..] == Written(a, startIndex, done)
        decreases if pieces == {} then 0 else 9 - counter
      {
        pieces, moveCount, done := AttackRound(moves, r, counter, pieces, startIndex, moveCount, a, done, total);
        counter := counter + 1;
      }
    }

    /** One pass of GetSlidingAttacks' outer loop (piece_gen.cpp:41-50): the frontier moves a
        step, its occupied squares are popped as captures and its empty squares go on. */
    method AttackRound(moves: array<Move>, r: Ray, counter: int, pieces: Bitboard, startIndex: nat,
                       moveCount: nat, ghost a: seq<Move>, ghost done: seq<Move>, ghost total: seq<Move>)
      returns (next: Bitboard, count: nat, ghost done': seq<Move>)
      requires r.Valid() && r.color == color && pieces != {} && 1 <= counter && Within(pieces, r.d, counter)
      requires done + Takes(r, pieces, counter - 1) == total
      requires moveCount == |done| && startIndex + |total| <= moves.Length
      requires |a| == moves.Length && moves[..] == Written(a, startIndex, done)
      modifies moves
      ensures Within(next, r.d, counter + 1) && (next != {} ==> counter + 1 <= 8)
      ensures done' + Takes(r, next, counter) == total
      ensures count == |done'| && moves[..] == Written(a, startIndex, done')
    {
      var board, d := r.board, r.d;
      AdvanceWithin(r, pieces, counter);
      next := Shift(pieces * NotEdge(d), d, 1) - board.ColorBB(color);
      var attackMoves := next * board.occupied;
      next := next - board.occupied;
      assert Takes(r, pieces, counter - 1) == TakesPopping(r, next, attackMoves, counter);
      count, done' := AttackLoop(moves, r, counter, next, attackMoves, startIndex, moveCount, a, done, total);
      if next != {} {
        WithinBound(next, d, counter + 1);
      }
    }

    /** The inner loop of GetSlidingAttacks (piece_gen.cpp:45-50): the occupied squares
        reached in round `counter`, lowest first. */
    method AttackLoop(moves: array<Move>, r: Ray, counter: int, p: Bitboard, squares: Bitboard,
                      startIndex: nat, moveCount: nat, ghost a: seq<Move>, ghost done: seq<Move>,
                      ghost total: seq<Move>)
      returns (count: nat, ghost done': seq<Move>)
      requires r.Valid() && Within(p, r.d, counter + 1)
      requires done + TakesPopping(r, p, squares, counter) == total
      requires moveCount == |done| && startIndex + |total| <= moves.Length
      requires |a| == moves.Length && moves[..] == Written(a, startIndex, done)
      modifies moves
      ensures done' + Takes(r, p, counter) == total
      ensures count == |done'| && moves[..] == Written(a, startIndex, done')
    {
      ghost var e := CaptureTo(r, counter);
      var attackMoves := squares;
      count, done' := moveCount, done;
      while attackMoves != {}
        invariant done' + TakesPopping(r, p, attackMoves, counter) == total
        invariant count == |done'| && moves[..] == Written(a, startIndex, done')
        decreases |attackMoves|
      {
        var lsb;
        ghost var before, x := done', attackMoves;
        lsb, attackMoves := LsbPop(attackMoves);
        assert TakesPopping(r, p, x, counter) == Emit(e, lsb) + TakesPopping(r, p, attackMoves, counter);
        Assoc(before, Emit(e, lsb), TakesPopping(r, p, attackMoves, counter));
        count, done' := AttackMove(moves, r, counter, lsb, startIndex, count, a, done');
      }
    }

    /** One pass of the inner loop of GetSlidingAttacks (piece_gen.cpp:46-49): the capture
        records the captured piece's type. */
    method AttackMove(moves: array<Move>, r: Ray, counter: int, lsb: Square, startIndex: nat,
                      moveCount: nat, ghost a: seq<Move>, ghost done: seq<Move>)
      returns (count: nat, ghost done': seq<Move>)
      requires r.Valid()
      requires moveCount == |done| && startIndex + |done| + |Emit(CaptureTo(r, counter), lsb)| <= moves.Length
      requires |a| == moves.Length && moves[..] == Written(a, startIndex, done)
      modifies moves
      ensures done' == done + Emit(CaptureTo(r, counter), lsb)
      ensures count == |done'| && moves[..] == Written(a, startIndex, done')
    {
      var board, d, isKingSafe, attacked := r.board, r.d, r.isKingSafe, r.attacked;
      count, done' := moveCount, done;
      var oriPiece := Shift({lsb}, OppositeDirection(d), counter);
      if (isKingSafe && oriPiece * attacked == {})
         || board.KingSafeAgainst(Xor(board.occupied, oriPiece) + {lsb}, Xor(board.ColorBB(r.oppColor), {lsb})) {
        var m := Move(MoveType.Capture, lsb - Offset(d) * counter, lsb, board.TypeAt(lsb));
        WrittenAppend(a, startIndex, done, m);
        count := AppendMove(moves, startIndex + count, count, m);
        done' := done + [m];
      }
    }

    /** GetAttackMoves(moves, board, attackedSquares, isKingSafe, startIndex) of a piece
        type: its capture list written from startIndex on. */
    method GetAttackMoves(moves: array<Move>, board: Board, attacked: Bitboard, isKingSafe: bool, startIndex: nat)
      returns (count: nat)
      requires startIndex + |attackList(board, attacked, isKingSafe)| <= moves.Length
      modifies moves
      ensures var list := attackList(board, attacked, isKingSafe);
              count == |list| && moves[..] == Written(old(moves[..]), startIndex, list)
    {
      count := Place(moves, startIndex, attackList(board, attacked, isKingSafe));
    }

    /** GetQuietMoves: the quiet list written from startIndex on. */
    method GetQuietMoves(moves: array<Move>, board: Board, attacked: Bitboard, isKingSafe: bool, startIndex: nat)
      returns (count: nat)
      requires startIndex + |quietList(board, attacked, isKingSafe)| <= moves.Length
      modifies moves
      ensures var list := quietList(board, attacked, isKingSafe);
              count == |list| && moves[..] == Written(old(moves[..]), startIndex, list)
    {
      count := Place(moves, startIndex, quietList(board, attacked, isKingSafe));
    }

    /** GetALlMoves: the captures from startIndex on, then the quiet moves right after them;
        the result is the total. */
    method GetALlMoves(moves: array<Move>, board: Board, attacked: Bitboard, isKingSafe: bool, startIndex: nat)
      returns (moveCount: nat)
      requires startIndex + |attackList(board, attacked, isKingSafe)| + |quietList(board, attacked, isKingSafe)| <= moves.Length
      modifies moves
      ensures var attacks, quiets := attackList(board, attacked, isKingSafe), quietList(board, attacked, isKingSafe);
              moveCount == |attacks| + |quiets| && moves[..] == Written(old(moves[..]), startIndex, attacks + quiets)
    {
      ghost var a := moves[..];
      ghost var attacks, quiets := attackList(board, attacked, isKingSafe), quietList(board, attacked, isKingSafe);
      moveCount := 0;
      var n := GetAttackMoves(moves, board, attacked, isKingSafe, moveCount + startIndex);
      moveCount := moveCount + n;
      ghost var b := moves[..];
      assert b == Written(a, startIndex, attacks) && moveCount == |attacks|;
      n := GetQuietMoves(moves, board, attacked, isKingSafe, moveCount + startIndex);
      moveCount := moveCount + n;
      assert moves[..] == Written(b, startIndex + |attacks|, quiets);
      WrittenTwice(a, startIndex, attacks, quiets);
    }

  }

  /** A piece type's override writing its list from start on, slot by slot. */
  method Place(moves: array<Move>, start: nat, list: seq<Move>) returns (count: nat)
    requires start + |list| <= moves.Length
    modifies moves
    ensures count == |list| && moves[..] == Written(old(moves[..]), start, list)
  {
    forall k | start <= k < start + |list| {
      moves[k] := list[k - start];
    }
    count := |list|;
  }

  /** Writing one list and then another right after it writes their concatenation. */
  lemma WrittenTwice(a: seq<Move>, start: int, l1: seq<Move>, l2: seq<Move>)
    requires 0 <= start && start + |l1| + |l2| <= |a|
    ensures Written(Written(a, start, l1), start + |l1|, l2) == Written(a, start, l1 + l2)
  {
    var w := Written(Written(a, start, l1), start + |l1|, l2);
    var v := Written(a, start, l1 + l2);
    forall k | 0 <= k < |a|
      ensures w[k] == v[k]
    {
      if k < start {
      } else if k < start + |l1| {
        assert v[k] == (l1 + l2)[k - start];
      } else if k < start + |l1| + |l2| {
        assert v[k] == (l1 + l2)[k - start];
      } else {
      }
    }
  }

  lemma Assoc(a: seq<Move>, b: seq<Move>, c: seq<Move>)
    ensures (a + b) + c == a + (b + c)
  {}

  // ---------------------------------------------------------------------------
  // What the slides reach

  /** The index j steps from s in direction d. */
  function Ahead(s: int, d: Direction, j: int): int
    requires d != Direction.None
  {
    s + j * Offset(d)
  }

  /** Up to Dist(s, d) steps from s stay on the board and never wrap onto another row. */
  lemma {:induction false} AheadOnBoard(s: Square, d: Direction, j: nat)
    requires d != Direction.None && j <= Dist(s, d)
    ensures 0 <= Ahead(s, d, j) < 64 && Dist(Ahead(s, d, j) as Square, d) == Dist(s, d) - j
  {
    if j > 0 {
      AheadOnBoard(s, d, j - 1);
      var t := Ahead(s, d, j - 1) as Square;
      StepOnBoard(t, d);
      AheadStep(s, d, j - 1);
    }
  }

  /** One more step is one more offset. */
  lemma AheadStep(s: int, d: Direction, j: int)
    requires d != Direction.None
    ensures Ahead(s, d, j + 1) == Ahead(s, d, j) + Offset(d)
  {
    var o := Offset(d);
    assert (j + 1) * o == j * o + o;
  }

  /** The square k steps from s, for k within the board. */
  function Target(s: Square, d: Direction, k: nat): (t: Square)
    requires d != Direction.None && k <= Dist(s, d)
    ensures t == Ahead(s, d, k)
  {
    AheadOnBoard(s, d, k);
    Ahead(s, d, k) as Square
  }

  /** A square a slide may pass or stop on quietly: on the board, empty and not the mover's. */
  predicate OpenAt(r: Ray, x: int)
  {
    0 <= x < 64 && x as Square !in r.board.occupied && x as Square !in r.board.ColorBB(r.color)
  }

  /** The k squares after s in direction d are on the board, in a line, and open. */
  ghost predicate Clear(r: Ray, s: Square, k: nat)
    requires r.Valid()
  {
    k <= Dist(s, r.d) && (k == 0 || (Clear(r, s, k - 1) && OpenAt(r, Ahead(s, r.d, k))))
  }

  /** The frontier after k rounds: what `pieces` holds when the outer loop has run k times. */
  function Frontier(r: Ray, pieces: Bitboard, k: nat): Bitboard
    requires r.Valid()
  {
    if k == 0 then pieces else Advance(r, Frontier(r, pieces, k - 1)) - r.board.occupied
  }

  /** A one-square shift from t lands on t + Offset(d). */
  lemma ShiftOne(b: Bitboard, d: Direction, t: Square)
    requires d != Direction.None && t in b && 0 <= t + Offset(d) < 64
    ensures (t + Offset(d)) as Square in Shift(b, d, 1)
  {
  }

  /** Every square of round k + 1's shifted frontier is one step past a square of the frontier
      after k rounds, a square reached by a clear slide of k steps. */
  lemma {:induction false} AdvanceSound(r: Ray, pieces: Bitboard, k: nat, sq: Square)
    requires r.Valid() && sq in Advance(r, Frontier(r, pieces, k))
    ensures exists s :: s in pieces && Clear(r, s, k) && k + 1 <= Dist(s, r.d) && sq == Ahead(s, r.d, k + 1)
                        && sq !in r.board.ColorBB(r.color)
    decreases k, 1
  {
    var t :| t in Frontier(r, pieces, k) * NotEdge(r.d) && sq == t + Offset(r.d);
    FrontierSound(r, pieces, k, t);
    var s :| s in pieces && Clear(r, s, k) && t == Ahead(s, r.d, k);
    AheadOnBoard(s, r.d, k);
    AheadStep(s, r.d, k);
  }

  /** Every square of the frontier after k rounds is reached by a clear slide of k steps from
      a piece. */
  lemma {:induction false} FrontierSound(r: Ray, pieces: Bitboard, k: nat, sq: Square)
    requires r.Valid() && sq in Frontier(r, pieces, k)
    ensures exists s :: s in pieces && Clear(r, s, k) && sq == Ahead(s, r.d, k)
    decreases k, 0
  {
    if k == 0 {
      assert Clear(r, sq, 0) && sq == Ahead(sq, r.d, 0);
    } else {
      AdvanceSound(r, pieces, k - 1, sq);
      var s :| s in pieces && Clear(r, s, k - 1) && k <= Dist(s, r.d) && sq == Ahead(s, r.d, k)
               && sq !in r.board.ColorBB(r.color);
      assert OpenAt(r, Ahead(s, r.d, k));
      assert Clear(r, s, k);
    }
  }

  /** A clear slide of k steps from a piece ends on a square of the frontier after k rounds. */
  lemma {:induction false} FrontierComplete(r: Ray, pieces: Bitboard, k: nat, s: Square)
    requires r.Valid() && s in pieces && Clear(r, s, k)
    ensures Ahead(s, r.d, k) in Frontier(r, pieces, k)
    decreases k, 0
  {
    if k == 0 {
      assert Ahead(s, r.d, 0) == s;
    } else {
      AdvanceComplete(r, pieces, k - 1, s);
    }
  }

  /** One step past a clear slide of k steps, on the board and off the mover's squares, is a
      square of round k + 1's shifted frontier. */
  lemma {:induction false} AdvanceComplete(r: Ray, pieces: Bitboard, k: nat, s: Square)
    requires r.Valid() && s in pieces && Clear(r, s, k) && k + 1 <= Dist(s, r.d)
    requires Target(s, r.d, k + 1) !in r.board.ColorBB(r.color)
    ensures Ahead(s, r.d, k + 1) in Advance(r, Frontier(r, pieces, k))
    decreases k, 1
  {
    FrontierComplete(r, pieces, k, s);
    AheadOnBoard(s, r.d, k);
    var t := Ahead(s, r.d, k) as Square;
    AheadStep(s, r.d, k);
    assert t in NotEdge(r.d);
    ShiftOne(Frontier(r, pieces, k) * NotEdge(r.d), r.d, t);
  }

  /** The frontier after k rounds is k steps nearer the edge: it is within the bound the
      slide functions ask for. */
  lemma FrontierWithin(r: Ray, pieces: Bitboard, k: nat)
    requires r.Valid()
    ensures Within(Frontier(r, pieces, k), r.d, k + 1)
  {
    forall sq | sq in Frontier(r, pieces, k)
      ensures Steps(sq, r.d) + k + 1 <= 8
    {
      FrontierSound(r, pieces, k, sq);
      var s :| s in pieces && Clear(r, s, k) && sq == Ahead(s, r.d, k);
      AheadOnBoard(s, r.d, k);
    }
  }

  /** Once the frontier is empty it stays empty. */
  lemma {:induction false} FrontierEmpty(r: Ray, pieces: Bitboard, k: nat, j: nat)
    requires r.Valid() && Frontier(r, pieces, k) == {} && k <= j
    ensures Frontier(r, pieces, j) == {}
    decreases j - k
  {
    if k < j {
      assert Frontier(r, pieces, k + 1) == {};
      FrontierEmpty(r, pieces, k + 1, j);
    }
  }

  /** A shift of one square that stays in the word is that square moved. */
  lemma ShiftSingle(x: Square, d: Direction, n: int)
    requires d != Direction.None && 0 <= x + n * Offset(d) < 64
    ensures Shift({x}, d, n) == {(x + n * Offset(d)) as Square}
  {
  }

  /** k steps back undo k steps forward. */
  lemma StepsBack(s: int, d: Direction, k: int)
    requires d != Direction.None
    ensures Ahead(s, d, k) + k * Offset(OppositeDirection(d)) == s
  {
    var o := Offset(d);
    assert k * -o == -(k * o);
  }

  /** The origin a move of k steps computes (the target shifted back k steps) is the square
      the slide started from. */
  lemma OriginIsStart(r: Ray, s: Square, k: nat)
    requires r.Valid() && k <= Dist(s, r.d)
    ensures Origin(r, Target(s, r.d, k), k) == {s}
  {
    StepsBack(s, r.d, k);
    ShiftSingle(Target(s, r.d, k), OppositeDirection(r.d), k);
  }

  /** A quiet move onto the target of a k-step slide from s starts on s. */
  lemma QuietEmitOf(r: Ray, s: Square, k: nat)
    requires r.Valid() && k <= Dist(s, r.d)
    ensures var t := Target(s, r.d, k);
            Emit(QuietTo(r, k), t)
              == if QuietSafe(r, {s}, t) then [Move(MoveType.Quiet, s, t, PieceType.None)] else []
  {
    OriginIsStart(r, s, k);
  }

  /** A capture onto the target of a k-step slide from s starts on s. */
  lemma CaptureEmitOf(r: Ray, s: Square, k: nat)
    requires r.Valid() && k <= Dist(s, r.d)
    ensures var t := Target(s, r.d, k);
            Emit(CaptureTo(r, k), t)
              == if CaptureSafe(r, {s}, t) then [Move(MoveType.Capture, s, t, r.board.TypeAt(t))] else []
  {
    OriginIsStart(r, s, k);
  }

  /** The moves left in round c: those of the squares x still to pop, and those of the later
      rounds. */
  lemma {:induction false} QuietsPoppingMembers(r: Ray, p: Bitboard, x: Bitboard, c: int, m: Move)
    requires r.Valid() && Within(p, r.d, c + 1)
    ensures m in QuietsPopping(r, p, x, c)
        <==> (exists sq :: sq in x && m in Emit(QuietTo(r, c), sq)) || m in Quiets(r, p, c)
    decreases |x|
  {
    if x != {} {
      var sq := Least(x);
      QuietsPoppingMembers(r, p, x - {sq}, c, m);
      if m in QuietsPopping(r, p, x - {sq}, c) {
        if y :| y in x - {sq} && m in Emit(QuietTo(r, c), y) {
          assert y in x;
        }
      }
    }
  }

  /** The same for the captures left in round c. */
  lemma {:induction false} TakesPoppingMembers(r: Ray, p: Bitboard, x: Bitboard, c: int, m: Move)
    requires r.Valid() && Within(p, r.d, c + 1)
    ensures m in TakesPopping(r, p, x, c)
        <==> (exists sq :: sq in x && m in Emit(CaptureTo(r, c), sq)) || m in Takes(r, p, c)
    decreases |x|
  {
    if x != {} {
      var sq := Least(x);
      TakesPoppingMembers(r, p, x - {sq}, c, m);
      if m in TakesPopping(r, p, x - {sq}, c) {
        if y :| y in x - {sq} && m in Emit(CaptureTo(r, c), y) {
          assert y in x;
        }
      }
    }
  }

  /** Every quiet move of the rounds after k is that of a square of a later frontier. */
  lemma {:induction false} QuietsSound(r: Ray, pieces: Bitboard, k: nat, m: Move)
    requires r.Valid() && Within(Frontier(r, pieces, k), r.d, k + 1)
    requires m in Quiets(r, Frontier(r, pieces, k), k)
    ensures exists j: nat, sq :: k < j && sq in Frontier(r, pieces, j) && m in Emit(QuietTo(r, j), sq)
    decreases if Frontier(r, pieces, k) == {} then 0 else 9 - k
  {
    WithinBound(Frontier(r, pieces, k), r.d, k + 1);
    FrontierWithin(r, pieces, k + 1);
    var next := Frontier(r, pieces, k + 1);
    QuietsPoppingMembers(r, next, next, k + 1, m);
    if m in Quiets(r, next, k + 1) {
      QuietsSound(r, pieces, k + 1, m);
    }
  }

  /** The quiet move of a square of a later frontier is among those of the rounds after k. */
  lemma {:induction false} QuietsComplete(r: Ray, pieces: Bitboard, k: nat, j: nat, sq: Square, m: Move)
    requires r.Valid() && Within(Frontier(r, pieces, k), r.d, k + 1)
    requires k < j && sq in Frontier(r, pieces, j) && m in Emit(QuietTo(r, j), sq)
    ensures m in Quiets(r, Frontier(r, pieces, k), k)
    decreases j - k
  {
    if Frontier(r, pieces, k) == {} {
      FrontierEmpty(r, pieces, k, j);
    }
    WithinBound(Frontier(r, pieces, k), r.d, k + 1);
    FrontierWithin(r, pieces, k + 1);
    var next := Frontier(r, pieces, k + 1);
    if k + 1 < j {
      QuietsComplete(r, pieces, k + 1, j, sq, m);
    }
    QuietsPoppingMembers(r, next, next, k + 1, m);
  }

  /** Every capture of the rounds after k is that of an occupied square a later shifted
      frontier reaches. */
  lemma {:induction false} TakesSound(r: Ray, pieces: Bitboard, k: nat, m: Move)
    requires r.Valid() && Within(Frontier(r, pieces, k), r.d, k + 1)
    requires m in Takes(r, Frontier(r, pieces, k), k)
    ensures exists j: nat, sq :: k < j && sq in Advance(r, Frontier(r, pieces, j - 1)) * r.board.occupied
                                 && m in Emit(CaptureTo(r, j), sq)
    decreases if Frontier(r, pieces, k) == {} then 0 else 9 - k
  {
    TakesRound(r, pieces, k, m);
    FrontierWithin(r, pieces, k + 1);
    if m in Takes(r, Frontier(r, pieces, k + 1), k + 1) {
      TakesSound(r, pieces, k + 1, m);
    } else {
      var sq :| sq in Advance(r, Frontier(r, pieces, k)) * r.board.occupied && m in Emit(CaptureTo(r, k + 1), sq);
      assert k + 1 - 1 == k;
    }
  }

  /** A capture of the rounds after k is one of round k + 1 or one of the rounds after k + 1. */
  lemma TakesRound(r: Ray, pieces: Bitboard, k: nat, m: Move)
    requires r.Valid() && Within(Frontier(r, pieces, k), r.d, k + 1)
    requires m in Takes(r, Frontier(r, pieces, k), k)
    ensures Frontier(r, pieces, k) != {} && k < 8 && Within(Frontier(r, pieces, k + 1), r.d, k + 2)
    ensures (exists sq :: sq in Advance(r, Frontier(r, pieces, k)) * r.board.occupied
                          && m in Emit(CaptureTo(r, k + 1), sq))
            || m in Takes(r, Frontier(r, pieces, k + 1), k + 1)
  {
    var f := Frontier(r, pieces, k);
    WithinBound(f, r.d, k + 1);
    AdvanceWithin(r, f, k + 1);
    var next := Advance(r, f);
    TakesPoppingMembers(r, next - r.board.occupied, next * r.board.occupied, k + 1, m);
  }

  /** The capture of an occupied square a later shifted frontier reaches is among those of
      the rounds after k. */
  lemma {:induction false} TakesComplete(r: Ray, pieces: Bitboard, k: nat, j: nat, sq: Square, m: Move)
    requires r.Valid() && Within(Frontier(r, pieces, k), r.d, k + 1)
    requires k < j && sq in Advance(r, Frontier(r, pieces, j - 1)) * r.board.occupied
    requires m in Emit(CaptureTo(r, j), sq)
    ensures m in Takes(r, Frontier(r, pieces, k), k)
    decreases j - k
  {
    if Frontier(r, pieces, k) == {} {
      FrontierEmpty(r, pieces, k, j - 1);
    }
    if k + 1 < j {
      FrontierWithin(r, pieces, k + 1);
      TakesComplete(r, pieces, k + 1, j, sq, m);
      TakesFromLater(r, pieces, k, m);
    } else {
      TakesFromRound(r, pieces, k, sq, m);
    }
  }

  /** A capture on an occupied square the shift of frontier k reaches is a capture of round k + 1. */
  lemma TakesFromRound(r: Ray, pieces: Bitboard, k: nat, sq: Square, m: Move)
    requires r.Valid() && Frontier(r, pieces, k) != {} && Within(Frontier(r, pieces, k), r.d, k + 1)
    requires sq in Advance(r, Frontier(r, pieces, k)) * r.board.occupied
    requires m in Emit(CaptureTo(r, k + 1), sq)
    ensures m in Takes(r, Frontier(r, pieces, k), k)
  {
    var f := Frontier(r, pieces, k);
    WithinBound(f, r.d, k + 1);
    AdvanceWithin(r, f, k + 1);
    var next := Advance(r, f);
    TakesPoppingMembers(r, next - r.board.occupied, next * r.board.occupied, k + 1, m);
  }

  /** A capture of the rounds after k + 1 is one of the rounds after k. */
  lemma TakesFromLater(r: Ray, pieces: Bitboard, k: nat, m: Move)
    requires r.Valid() && Frontier(r, pieces, k) != {} && Within(Frontier(r, pieces, k), r.d, k + 1)
    requires Within(Frontier(r, pieces, k + 1), r.d, k + 2)
    requires m in Takes(r, Frontier(r, pieces, k + 1), k + 1)
    ensures m in Takes(r, Frontier(r, pieces, k), k)
  {
    var f := Frontier(r, pieces, k);
    WithinBound(f, r.d, k + 1);
    var next := Advance(r, f);
    TakesPoppingMembers(r, next - r.board.occupied, next * r.board.occupied, k + 1, m);
  }

  /** A quiet slide of a piece of `pieces`: k >= 1 open squares in a line from s, ending on the
      target, and the move passed the king-safety test with s as its origin. */
  ghost predicate QuietSlide(r: Ray, pieces: Bitboard, m: Move)
    requires r.Valid()
  {
    exists s: Square, k: nat :: s in pieces && 1 <= k && Clear(r, s, k)
      && m == Move(MoveType.Quiet, s, Ahead(s, r.d, k), PieceType.None) && QuietSafe(r, {s}, Target(s, r.d, k))
  }

  /** A capture by a slide of a piece of `pieces`: k - 1 open squares in a line from s, then an
      occupied square that is not the mover's, and the move passed the king-safety test with s
      as its origin and the captured piece's type recorded. */
  ghost predicate CaptureSlide(r: Ray, pieces: Bitboard, m: Move)
    requires r.Valid()
  {
    exists s: Square, k: nat :: s in pieces && 1 <= k && k <= Dist(s, r.d) && Clear(r, s, k - 1)
      && Target(s, r.d, k) in r.board.occupied && Target(s, r.d, k) !in r.board.ColorBB(r.color)
      && m == Move(MoveType.Capture, s, Ahead(s, r.d, k), r.board.TypeAt(Target(s, r.d, k)))
      && CaptureSafe(r, {s}, Target(s, r.d, k))
  }

  /** A quiet slide given by its start and length. */
  lemma QuietSlideOf(r: Ray, pieces: Bitboard, s: Square, k: nat, m: Move)
    requires r.Valid() && s in pieces && 1 <= k && Clear(r, s, k)
    requires m == Move(MoveType.Quiet, s, Ahead(s, r.d, k), PieceType.None) && QuietSafe(r, {s}, Target(s, r.d, k))
    ensures QuietSlide(r, pieces, m)
  {
  }

  /** A capturing slide given by its start and length. */
  lemma CaptureSlideOf(r: Ray, pieces: Bitboard, s: Square, k: nat, m: Move)
    requires r.Valid() && s in pieces && 1 <= k && k <= Dist(s, r.d) && Clear(r, s, k - 1)
    requires Target(s, r.d, k) in r.board.occupied && Target(s, r.d, k) !in r.board.ColorBB(r.color)
    requires m == Move(MoveType.Capture, s, Ahead(s, r.d, k), r.board.TypeAt(Target(s, r.d, k)))
    requires CaptureSafe(r, {s}, Target(s, r.d, k))
    ensures CaptureSlide(r, pieces, m)
  {
  }

  /** Every move GetSlidingMoves writes is a quiet slide of one of the pieces. */
  lemma QuietSlideSound(r: Ray, pieces: Bitboard, m: Move)
    requires r.Valid() && Within(pieces, r.d, 1) && m in Quiets(r, pieces, 0)
    ensures QuietSlide(r, pieces, m)
  {
    QuietsSound(r, pieces, 0, m);
    var j: nat, sq :| 0 < j && sq in Frontier(r, pieces, j) && m in Emit(QuietTo(r, j), sq);
    FrontierSound(r, pieces, j, sq);
    var s :| s in pieces && Clear(r, s, j) && sq == Ahead(s, r.d, j);
    QuietEmitOf(r, s, j);
    QuietSlideOf(r, pieces, s, j, m);
  }

  /** Every quiet slide of one of the pieces that passes the king-safety test is written. */
  lemma QuietSlideComplete(r: Ray, pieces: Bitboard, s: Square, k: nat)
    requires r.Valid() && s in pieces && 1 <= k && Clear(r, s, k) && QuietSafe(r, {s}, Target(s, r.d, k))
    ensures Within(pieces, r.d, 1)
    ensures Move(MoveType.Quiet, s, Ahead(s, r.d, k), PieceType.None) in Quiets(r, pieces, 0)
  {
    FrontierWithin(r, pieces, 0);
    FrontierComplete(r, pieces, k, s);
    QuietEmitOf(r, s, k);
    QuietsComplete(r, pieces, 0, k, Target(s, r.d, k), Move(MoveType.Quiet, s, Ahead(s, r.d, k), PieceType.None));
  }

  /** GetSlidingMoves writes exactly the quiet slides of the pieces in direction d. */
  lemma QuietsExactly(r: Ray, pieces: Bitboard, m: Move)
    requires r.Valid()
    ensures Within(pieces, r.d, 1)
    ensures m in Quiets(r, pieces, 0) <==> QuietSlide(r, pieces, m)
  {
    FrontierWithin(r, pieces, 0);
    if m in Quiets(r, pieces, 0) {
      QuietSlideSound(r, pieces, m);
    }
    if QuietSlide(r, pieces, m) {
      var s: Square, k: nat :| s in pieces && 1 <= k && Clear(r, s, k)
        && m == Move(MoveType.Quiet, s, Ahead(s, r.d, k), PieceType.None) && QuietSafe(r, {s}, Target(s, r.d, k));
      QuietSlideComplete(r, pieces, s, k);
    }
  }

  /** The capture of an occupied square round j's shifted frontier reaches is a capturing
      slide. */
  lemma CaptureOfRound(r: Ray, pieces: Bitboard, j: nat, sq: Square, m: Move)
    requires r.Valid() && 0 < j && sq in Advance(r, Frontier(r, pieces, j - 1)) && sq in r.board.occupied
    requires m in Emit(CaptureTo(r, j), sq)
    ensures CaptureSlide(r, pieces, m)
  {
    AdvanceSound(r, pieces, j - 1, sq);
    var s :| s in pieces && Clear(r, s, j - 1) && j <= Dist(s, r.d) && sq == Ahead(s, r.d, j)
             && sq !in r.board.ColorBB(r.color);
    CaptureEmitOf(r, s, j);
    CaptureSlideOf(r, pieces, s, j, m);
  }

  /** Every move GetSlidingAttacks writes is a capturing slide of one of the pieces. */
  lemma CaptureSlideSound(r: Ray, pieces: Bitboard, m: Move)
    requires r.Valid() && Within(pieces, r.d, 1) && m in Takes(r, pieces, 0)
    ensures CaptureSlide(r, pieces, m)
  {
    TakesSound(r, pieces, 0, m);
    var j: nat, sq :| 0 < j && sq in Advance(r, Frontier(r, pieces, j - 1)) * r.board.occupied
                      && m in Emit(CaptureTo(r, j), sq);
    CaptureOfRound(r, pieces, j, sq, m);
  }

  /** Every capturing slide of one of the pieces that passes the king-safety test is written. */
  lemma CaptureSlideComplete(r: Ray, pieces: Bitboard, s: Square, k: nat)
    requires r.Valid() && s in pieces && 1 <= k && k <= Dist(s, r.d) && Clear(r, s, k - 1)
    requires Target(s, r.d, k) in r.board.occupied && Target(s, r.d, k) !in r.board.ColorBB(r.color)
    requires CaptureSafe(r, {s}, Target(s, r.d, k))
    ensures Within(pieces, r.d, 1)
    ensures Move(MoveType.Capture, s, Ahead(s, r.d, k), r.board.TypeAt(Target(s, r.d, k))) in Takes(r, pieces, 0)
  {
    FrontierWithin(r, pieces, 0);
    AdvanceComplete(r, pieces, k - 1, s);
    CaptureEmitOf(r, s, k);
    TakesComplete(r, pieces, 0, k, Target(s, r.d, k),
                  Move(MoveType.Capture, s, Ahead(s, r.d, k), r.board.TypeAt(Target(s, r.d, k))));
  }

  /** GetSlidingAttacks writes exactly the capturing slides of the pieces in direction d. */
  lemma TakesExactly(r: Ray, pieces: Bitboard, m: Move)
    requires r.Valid()
    ensures Within(pieces, r.d, 1)
    ensures m in Takes(r, pieces, 0) <==> CaptureSlide(r, pieces, m)
  {
    FrontierWithin(r, pieces, 0);
    if m in Takes(r, pieces, 0) {
      CaptureSlideSound(r, pieces, m);
    }
    if CaptureSlide(r, pieces, m) {
      var s: Square, k: nat :| s in pieces && 1 <= k && k <= Dist(s, r.d) && Clear(r, s, k - 1)
        && Target(s, r.d, k) in r.board.occupied && Target(s, r.d, k) !in r.board.ColorBB(r.color)
        && m == Move(MoveType.Capture, s, Ahead(s, r.d, k), r.board.TypeAt(Target(s, r.d, k)))
        && CaptureSafe(r, {s}, Target(s, r.d, k));
      CaptureSlideComplete(r, pieces, s, k);
    }
  }
}
