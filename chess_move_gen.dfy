/** The third generation's move generator, chess/src/move_gen.cpp and
    chess/include/chess/move_gen.hpp. Bitboards are read as square sets (module SquareSets):
    every `while (x) { sq = lsb_pop(x); ... }` walks a set from its lowest square up, which
    Drain states as a function; each generator is a method with those loops, proved equal
    to a specification function, and the properties of the moves are lemmas about the
    specification functions. The position and the precomputed bitboard tables are not part
    of this model: they are the parameters Position and Geometry. */
module ChessMoveGen {
  import opened Bits
  import opened SquareSets
  import opened ChessConstants

  /** GenType: which moves a generator produces. */
  datatype GenType = Quiet | Attack | All

  /** A move: its type, its origin and its target (Square::None, 64, when lsb found nothing). */
  datatype Move = Move(kind: MoveType, from: Sq, to: bv8)

  /** The queries the generator makes of a Position: GetPieces(color, type), GetPieces(color),
      GetPieces(), GetTurn, GetEP, AllowsCastling, GenerateAttackSquares and the
      three-argument IsKingSafe(occupancy, enemies, king). */
  datatype Position = Position(
    pieces: (Color, PieceType) -> Squares,
    colorSet: Color -> Squares,
    occupied: Squares,
    turn: Color,
    ep: Column,
    allowsCastling: (Castling, Color) -> bool,
    attackSquares: Color -> Squares,
    kingSafe: (Squares, Squares, Squares) -> bool)

  /** The precomputed tables of the bitboard header: Ring(sq, offset), Ray(sq, dir),
      Ray(from, to), Attacks(sq, type), PawnAttacks(sq, color) and Shift(bb, dir). */
  datatype Geometry = Geometry(
    ring: (Sq, int) -> Squares,
    rayDir: (Sq, Direction) -> Squares,
    rayFrom: (Sq, Sq) -> Squares,
    attacks: (Sq, PieceType) -> Squares,
    pawnAttacks: (Sq, Color) -> Squares,
    shift: (Squares, Direction) -> Squares)

  /** IsKingSafe(occupancy, enemies): the side to move's king, as Board's overload does. */
  predicate SafeAgainst(pos: Position, occ: Squares, enemies: Squares)
  {
    pos.kingSafe(occ, enemies, pos.pieces(pos.turn, PieceType.King))
  }

  /** IsKingSafe(occupancy): against the pieces of the side not to move. */
  predicate SafeAfter(pos: Position, occ: Squares)
  {
    SafeAgainst(pos, occ, pos.colorSet(Opposite(pos.turn)))
  }

  /** The body of a `while (x) { sq = lsb_pop(x); ... }` loop, with the values it reads:
      what it appends for one square. */
  datatype Emitter =
    | KingStep(pos: Position, color: Color, k: Sq)
    | KingTake(pos: Position, color: Color, k: Sq)
    | PawnTake(pos: Position, color: Color, p: Sq)
    | SliderStep(pos: Position, p: Sq)
    | SliderTake(pos: Position, color: Color, p: Sq)

  /** The moves one loop step appends for square sq. */
  function Emit(e: Emitter, sq: Sq): seq<Move>
    requires e.PawnTake? ==> e.color != Color.None
  {
    match e
    case KingStep(pos, color, k) =>
      if pos.kingSafe(Flip(pos.occupied, k) + {sq}, pos.colorSet(Opposite(color)), {sq})
      then [Move(MoveType.Quiet, k, sq)] else []
    case KingTake(pos, color, k) =>
      if pos.kingSafe(Flip(pos.occupied, k), Flip(pos.colorSet(Opposite(color)), sq), {sq})
      then [Move(MoveType.Capture, k, sq)] else []
    case PawnTake(pos, color, p) =>
      if SafeAgainst(pos, Flip(pos.occupied, p) + {sq}, Flip(pos.colorSet(Opposite(color)), sq)) then
        if p in RowSet(PawnRow(Opposite(color))) then Promotions(PromotionCapturesMoves, p, sq)
        else [Move(MoveType.Capture, p, sq)]
      else []
    case SliderStep(pos, p) =>
      if SafeAfter(pos, Flip(pos.occupied, p) + {sq}) then [Move(MoveType.Quiet, p, sq)] else []
    case SliderTake(pos, color, p) =>
      if SafeAgainst(pos, Flip(pos.occupied, p) + {sq}, Flip(pos.colorSet(Opposite(color)), sq))
      then [Move(MoveType.Capture, p, sq)] else []
  }

  /** The moves a drain loop appends: Emit(e, sq) for each square of x, lowest first. */
  function Drain(x: Squares, e: Emitter): (r: seq<Move>)
    requires e.PawnTake? ==> e.color != Color.None
    ensures x == {} ==> r == []
    decreases |x|
  {
    if x == {} then [] else Emit(e, Lowest(x) as Sq) + Drain(PopLowest(x), e)
  }

  /** A move is drained exactly when some square of the set emits it. */
  lemma {:induction false} DrainMembers(x: Squares, e: Emitter, m: Move)
    requires e.PawnTake? ==> e.color != Color.None
    ensures m in Drain(x, e) <==> exists k :: k in x && m in Emit(e, k)
    decreases |x|
  {
    if x != {} {
      var low := Lowest(x) as Sq;
      DrainMembers(PopLowest(x), e, m);
      if m in Drain(x, e) {
        assert m in Emit(e, low) || m in Drain(PopLowest(x), e);
      }
      if k :| k in x && m in Emit(e, k) {
        if k != low {
          assert k in PopLowest(x);
        }
      }
    }
  }

  /** The square whose loop step produced a drained move. */
  lemma DrainSource(x: Squares, e: Emitter, m: Move) returns (k: Sq)
    requires e.PawnTake? ==> e.color != Color.None
    requires m in Drain(x, e)
    ensures k in x && m in Emit(e, k)
  {
    DrainMembers(x, e, m);
    k :| k in x && m in Emit(e, k);
  }

  /** The outer `while (pieces)` loops: what is generated for one piece. */
  datatype PieceEmitter =
    | Pawns(pos: Position, geo: Geometry, color: Color, g: GenType)
    | SliderSteps(pos: Position, geo: Geometry, t: PieceType)
    | SliderTakes(pos: Position, geo: Geometry, color: Color, t: PieceType)

  function PieceMoves(e: PieceEmitter, p: Sq): seq<Move>
    requires e.Pawns? ==> e.color != Color.None
  {
    match e
    case Pawns(pos, geo, color, g) => OnePawn(pos, geo, color, g, p)
    case SliderSteps(pos, geo, t) => QuietRings(pos, geo, p, geo.attacks(p, t), 1)
    case SliderTakes(pos, geo, color, t) => AttackRings(pos, geo, color, p, geo.attacks(p, t), 1)
  }

  /** The moves of the pieces of x, lowest square first. */
  function DrainPieces(x: Squares, e: PieceEmitter): (r: seq<Move>)
    requires e.Pawns? ==> e.color != Color.None
    ensures x == {} ==> r == []
    decreases |x|
  {
    if x == {} then [] else PieceMoves(e, Lowest(x) as Sq) + DrainPieces(PopLowest(x), e)
  }

  /** The piece whose moves include a given move of DrainPieces. */
  lemma {:induction false} DrainPiecesSource(x: Squares, e: PieceEmitter, m: Move) returns (k: Sq)
    requires e.Pawns? ==> e.color != Color.None
    requires m in DrainPieces(x, e)
    ensures k in x && m in PieceMoves(e, k)
    decreases |x|
  {
    var low := Lowest(x) as Sq;
    if m in PieceMoves(e, low) {
      k := low;
    } else {
      k := DrainPiecesSource(PopLowest(x), e, m);
    }
  }

  /** Bitboard constants read as squares. */
  function RowSet(r: Row): Squares { SquaresOf(RowBB(r)) }
  function ColumnSet(c: Column): Squares { SquaresOf(ColumnBB(c)) }

  /** The moves of the given types from one square to another, in order. */
  function Promotions(kinds: seq<MoveType>, from: Sq, to: bv8): (r: seq<Move>)
    ensures |r| == |kinds|
    ensures forall i :: 0 <= i < |r| ==> r[i] == Move(kinds[i], from, to)
  {
    if kinds == [] then [] else [Move(kinds[0], from, to)] + Promotions(kinds[1..], from, to)
  }

  /** Every move of Promotions has one of the given types, the origin and the target. */
  lemma {:induction false} PromotionsKinds(kinds: seq<MoveType>, from: Sq, to: bv8, m: Move)
    requires m in Promotions(kinds, from, to)
    ensures m.kind in kinds && m.from == from && m.to == to
    decreases |kinds|
  {
    if m != Move(kinds[0], from, to) {
      PromotionsKinds(kinds[1..], from, to, m);
    }
  }

  // ---------------------------------------------------------------------------
  // King (move_gen.cpp:12-52)

  /** The king's square: lsb of its bitboard. */
  function KingSquare(pos: Position, color: Color): Sq
    requires pos.pieces(color, PieceType.King) != {}
  {
    Lowest(pos.pieces(color, PieceType.King)) as Sq
  }

  /** Castling to one side (0 king side, 1 queen side) is allowed: the right is held, the
      squares between king and rook are empty and the squares the king crosses are not
      attacked. */
  predicate CastleAllowed(pos: Position, color: Color, side: Side, attacked: Squares)
    requires color != Color.None
  {
    pos.allowsCastling(if side == 0 then Castling.King else Castling.Queen, color)
      && pos.occupied * SquaresOf(CastlingBlockSquares(color, side)) == {}
      && attacked * SquaresOf(CastlingAttackSquares(color, side)) == {}
  }

  function CastleKind(side: Side): MoveType
  {
    if side == 0 then MoveType.KingCastle else MoveType.QueenCastle
  }

  /** The king's castling target: two steps east or west. */
  function CastleTarget(geo: Geometry, k: Sq, side: Side): bv8
  {
    var dir := if side == 0 then Direction.East else Direction.West;
    Lowest(geo.shift(geo.shift({k}, dir), dir))
  }

  function CastleMove(pos: Position, geo: Geometry, color: Color, k: Sq, side: Side, attacked: Squares): seq<Move>
    requires color != Color.None
  {
    if CastleAllowed(pos, color, side, attacked) then [Move(CastleKind(side), k, CastleTarget(geo, k, side))] else []
  }

  function KingQuiet(pos: Position, geo: Geometry, color: Color): seq<Move>
    requires color != Color.None && pos.pieces(color, PieceType.King) != {}
  {
    var attacked := pos.attackSquares(Opposite(color));
    var k := KingSquare(pos, color);
    Drain(geo.ring(k, 1) - pos.occupied - attacked, KingStep(pos, color, k))
      + CastleMove(pos, geo, color, k, 0, attacked) + CastleMove(pos, geo, color, k, 1, attacked)
  }

  function KingCaptures(pos: Position, geo: Geometry, color: Color): seq<Move>
    requires color != Color.None && pos.pieces(color, PieceType.King) != {}
  {
    var attacked := pos.attackSquares(Opposite(color));
    var k := KingSquare(pos, color);
    Drain(geo.ring(k, 1) * pos.colorSet(Opposite(color)) - attacked, KingTake(pos, color, k))
  }

  /** GenerateKingMoves<gType>: quiet moves and castles, then captures. */
  function KingMoves(pos: Position, geo: Geometry, color: Color, g: GenType): seq<Move>
    requires color != Color.None && pos.pieces(color, PieceType.King) != {}
  {
    (if g != GenType.Attack then KingQuiet(pos, geo, color) else [])
      + (if g != GenType.Quiet then KingCaptures(pos, geo, color) else [])
  }

  // ---------------------------------------------------------------------------
  // Pawns (move_gen.cpp:55-105)

  /** dirs[color]: White pawns go north, Black pawns south. */
  function PawnDir(c: Color): Direction
  {
    if c == White then Direction.North else Direction.South
  }

  /** The row an en-passant capture lands on: Row6 for White, Row3 for Black. */
  function EPRow(c: Color): Row
  {
    if c == White then Row6 else Row3
  }

  /** The square one pawn step ahead and two steps ahead. */
  function StepAhead(geo: Geometry, color: Color, p: Sq): Squares
  {
    geo.rayDir(p, PawnDir(color)) * geo.ring(p, 1)
  }

  function TwoAhead(geo: Geometry, color: Color, p: Sq): Squares
  {
    geo.rayDir(p, PawnDir(color)) * geo.ring(p, 2)
  }

  /** The one step forward, when it is free: a quiet move, or the four promotions from the
      row before the last. */
  function SinglePush(pos: Position, geo: Geometry, color: Color, p: Sq): seq<Move>
    requires color != Color.None
  {
    var to := StepAhead(geo, color, p);
    if SafeAfter(pos, Flip(pos.occupied, p) + to) then
      if p in RowSet(PawnRow(Opposite(color))) then Promotions(PromotionMoves, p, Lowest(to))
      else [Move(MoveType.Quiet, p, Lowest(to))]
    else []
  }

  /** The two steps forward from the pawn's home row. */
  function DoublePush(pos: Position, geo: Geometry, color: Color, p: Sq): seq<Move>
    requires color != Color.None
  {
    var to := TwoAhead(geo, color, p);
    if p in RowSet(PawnRow(color)) && to * pos.occupied == {} && SafeAfter(pos, Flip(pos.occupied, p) + to)
    then [Move(MoveType.DoublePawnPush, p, Lowest(to))]
    else []
  }

  /** Pushes: none when the square ahead is occupied. */
  function PawnPushes(pos: Position, geo: Geometry, color: Color, p: Sq): seq<Move>
    requires color != Color.None
  {
    if StepAhead(geo, color, p) * pos.occupied != {} then []
    else SinglePush(pos, geo, color, p) + DoublePush(pos, geo, color, p)
  }

  /** The en-passant capture onto the square in the en-passant column. */
  function EnPassant(pos: Position, geo: Geometry, color: Color, p: Sq): seq<Move>
    requires color != Color.None
  {
    var attack := geo.pawnAttacks(p, color) * RowSet(EPRow(color)) * ColumnSet(pos.ep);
    if attack == {} then []
    else
      var sq := Lowest(attack) as Sq;
      var captured := Single(Lowest(geo.shift({sq}, PawnDir(Opposite(color)))));
      if SafeAgainst(pos, Xor(Flip(pos.occupied, p), captured) + {sq},
                     Xor(pos.colorSet(Opposite(color)), captured) + {sq})
      then [Move(MoveType.EPCapture, p, sq)]
      else []
  }

  function PawnCaptures(pos: Position, geo: Geometry, color: Color, p: Sq): seq<Move>
    requires color != Color.None
  {
    Drain(geo.pawnAttacks(p, color) * pos.colorSet(Opposite(color)), PawnTake(pos, color, p))
      + EnPassant(pos, geo, color, p)
  }

  /** What one pawn contributes under a GenType: its pushes, then its captures. */
  function OnePawn(pos: Position, geo: Geometry, color: Color, g: GenType, p: Sq): seq<Move>
    requires color != Color.None
  {
    (if g != GenType.Attack then PawnPushes(pos, geo, color, p) else [])
      + (if g != GenType.Quiet then PawnCaptures(pos, geo, color, p) else [])
  }

  /** GeneratePawnMoves<gType>: pawn by pawn, lowest square first. */
  function PawnMoves(pos: Position, geo: Geometry, color: Color, g: GenType): seq<Move>
    requires color != Color.None
  {
    DrainPieces(pos.pieces(color, Pawn), Pawns(pos, geo, color, g))
  }

  // ---------------------------------------------------------------------------
  // Knights, bishops, rooks and queens (move_gen.cpp:108-157)

  /** The union of Ray(piece, b) over the blockers b: the squares behind them. */
  function RaysBehind(geo: Geometry, p: Sq, blockers: Squares): Squares
  {
    set b, x | b in blockers && x in geo.rayFrom(p, b) :: x
  }

  /** For each ring from `offset` outwards, the squares a slider on p may move to: the ring's
      squares that no nearer blocker hides, less the pieces standing on them
      (potMoves ^ blockers), with `unblocked` the squares no blocker hides so far. */
  function QuietTargets(pos: Position, geo: Geometry, p: Sq, unblocked: Squares, offset: int): (r: seq<Squares>)
    requires 1 <= offset <= 8
    ensures |r| == 8 - offset
    decreases 8 - offset
  {
    if offset == 8 then []
    else
      var potMoves := geo.ring(p, offset) * unblocked;
      var blockers := potMoves * pos.occupied;
      [Xor(potMoves, blockers)] + QuietTargets(pos, geo, p, unblocked - RaysBehind(geo, p, blockers), offset + 1)
  }

  /** The moves drained from each set in turn. */
  function DrainEach(ts: seq<Squares>, e: Emitter): (r: seq<Move>)
    requires e.PawnTake? ==> e.color != Color.None
    ensures ts == [] ==> r == []
    decreases |ts|
  {
    if ts == [] then [] else Drain(ts[0], e) + DrainEach(ts[1..], e)
  }

  /** The quiet moves of one piece from ring `offset` outwards. */
  function QuietRings(pos: Position, geo: Geometry, p: Sq, unblocked: Squares, offset: int): seq<Move>
    requires 1 <= offset <= 8
  {
    DrainEach(QuietTargets(pos, geo, p, unblocked, offset), SliderStep(pos, p))
  }

  /** GenerateQuiet<pType>. */
  function SliderQuiet(pos: Position, geo: Geometry, color: Color, t: PieceType): seq<Move>
  {
    DrainPieces(pos.pieces(color, t), SliderSteps(pos, geo, t))
  }

  /** For each ring from `offset` outwards, the enemy pieces a slider on p may capture: the
      ring's pieces that no nearer blocker hides. */
  function CaptureTargets(pos: Position, geo: Geometry, color: Color, p: Sq, unblocked: Squares, offset: int): (r: seq<Squares>)
    requires 1 <= offset <= 8
    ensures |r| == 8 - offset
    decreases 8 - offset
  {
    if offset == 8 then []
    else
      var blockers := geo.ring(p, offset) * unblocked * pos.occupied;
      [blockers * pos.colorSet(Opposite(color))]
        + CaptureTargets(pos, geo, color, p, unblocked - RaysBehind(geo, p, blockers), offset + 1)
  }

  /** The captures of one piece from ring `offset` outwards. */
  function AttackRings(pos: Position, geo: Geometry, color: Color, p: Sq, unblocked: Squares, offset: int): seq<Move>
    requires 1 <= offset <= 8
  {
    DrainEach(CaptureTargets(pos, geo, color, p, unblocked, offset), SliderTake(pos, color, p))
  }

  /** GenerateAttack<pType>. */
  function SliderAttack(pos: Position, geo: Geometry, color: Color, t: PieceType): seq<Move>
  {
    DrainPieces(pos.pieces(color, t), SliderTakes(pos, geo, color, t))
  }

  // ---------------------------------------------------------------------------
  // Dispatch (move_gen.cpp:160-187, move_gen.hpp:20-73)

  /** The side has a king whenever king moves are asked for. */
  predicate CanGenerate(pos: Position, color: Color, t: PieceType)
  {
    color != Color.None && (t == PieceType.King ==> pos.pieces(color, PieceType.King) != {})
  }

  /** Generate<gType, pType>. */
  function GenerateOf(g: GenType, t: PieceType, pos: Position, geo: Geometry, color: Color): seq<Move>
    requires t != PieceType.None && CanGenerate(pos, color, t)
  {
    if t == PieceType.King then KingMoves(pos, geo, color, g)
    else if t == Pawn then PawnMoves(pos, geo, color, g)
    else
      (if g != GenType.Quiet then SliderAttack(pos, geo, color, t) else [])
        + (if g != GenType.Attack then SliderQuiet(pos, geo, color, t) else [])
  }

  /** One phase of GenerateMoves: every piece type, Pawn to King. */
  function Phase(g: GenType, pos: Position, geo: Geometry, color: Color): seq<Move>
    requires CanGenerate(pos, color, PieceType.King)
  {
    GenerateOf(g, Pawn, pos, geo, color) + GenerateOf(g, Knight, pos, geo, color)
      + GenerateOf(g, Bishop, pos, geo, color) + GenerateOf(g, Rook, pos, geo, color)
      + GenerateOf(g, PieceType.Queen, pos, geo, color) + GenerateOf(g, PieceType.King, pos, geo, color)
  }

  /** GenerateMoves<gType>(pos, color): the attack phase, then the quiet phase. */
  function AllMoves(g: GenType, pos: Position, geo: Geometry, color: Color): seq<Move>
    requires CanGenerate(pos, color, PieceType.King)
  {
    (if g != GenType.Quiet then Phase(GenType.Attack, pos, geo, color) else [])
      + (if g != GenType.Attack then Phase(GenType.Quiet, pos, geo, color) else [])
  }

  /** GenerateMoves<gType>(pos, color, pType): nothing for PieceType::None. */
  function MovesOfType(g: GenType, pos: Position, geo: Geometry, color: Color, t: PieceType): seq<Move>
    requires CanGenerate(pos, color, t)
  {
    if t == PieceType.None then [] else GenerateOf(g, t, pos, geo, color)
  }

  // ---------------------------------------------------------------------------
  // What the generated moves satisfy

  /** What a slider loop step emits for one square. */
  lemma QuietEmitMove(pos: Position, p: Sq, k: Sq, m: Move)
    requires m in Emit(SliderStep(pos, p), k)
    ensures m == Move(MoveType.Quiet, p, k) && SafeAfter(pos, Flip(pos.occupied, p) + {k})
  {}

  lemma CaptureEmitMove(pos: Position, color: Color, p: Sq, k: Sq, m: Move)
    requires m in Emit(SliderTake(pos, color, p), k)
    ensures m == Move(MoveType.Capture, p, k)
    ensures SafeAgainst(pos, Flip(pos.occupied, p) + {k}, Flip(pos.colorSet(Opposite(color)), k))
  {}

  /** One ring of QuietRings: this ring's drain, then the rings beyond it with the squares
      behind this ring's blockers removed. */
  lemma QuietRingsStep(pos: Position, geo: Geometry, p: Sq, u: Squares, offset: int)
    requires 1 <= offset < 8
    ensures var potMoves := geo.ring(p, offset) * u;
            var blockers := potMoves * pos.occupied;
            QuietRings(pos, geo, p, u, offset)
              == Drain(Xor(potMoves, blockers), SliderStep(pos, p))
                 + QuietRings(pos, geo, p, u - RaysBehind(geo, p, blockers), offset + 1)
  {
    var potMoves := geo.ring(p, offset) * u;
    var blockers := potMoves * pos.occupied;
    var rest := QuietTargets(pos, geo, p, u - RaysBehind(geo, p, blockers), offset + 1);
    assert QuietTargets(pos, geo, p, u, offset) == [Xor(potMoves, blockers)] + rest;
    assert ([Xor(potMoves, blockers)] + rest)[1..] == rest;
  }

  /** One ring of AttackRings: this ring's drain, then the rings beyond it. */
  lemma AttackRingsStep(pos: Position, geo: Geometry, color: Color, p: Sq, u: Squares, offset: int)
    requires 1 <= offset < 8
    ensures var blockers := geo.ring(p, offset) * u * pos.occupied;
            AttackRings(pos, geo, color, p, u, offset)
              == Drain(blockers * pos.colorSet(Opposite(color)), SliderTake(pos, color, p))
                 + AttackRings(pos, geo, color, p, u - RaysBehind(geo, p, blockers), offset + 1)
  {
    var blockers := geo.ring(p, offset) * u * pos.occupied;
    var rest := CaptureTargets(pos, geo, color, p, u - RaysBehind(geo, p, blockers), offset + 1);
    assert CaptureTargets(pos, geo, color, p, u, offset) == [blockers * pos.colorSet(Opposite(color))] + rest;
    assert ([blockers * pos.colorSet(Opposite(color))] + rest)[1..] == rest;
  }

  /** The set, and the square of it, whose loop step emitted a move of DrainEach. */
  lemma {:induction false} DrainEachSource(ts: seq<Squares>, e: Emitter, m: Move) returns (i: int, k: Sq)
    requires e.PawnTake? ==> e.color != Color.None
    requires m in DrainEach(ts, e)
    ensures 0 <= i < |ts| && k in ts[i] && m in Emit(e, k)
    decreases |ts|
  {
    if m in Drain(ts[0], e) {
      i := 0;
      k := DrainSource(ts[0], e, m);
    } else {
      var j, k' := DrainEachSource(ts[1..], e, m);
      i, k := j + 1, k';
    }
  }

  /** A quiet target of the i-th ring from `offset` is an empty square of that ring that no
      nearer blocker hides. */
  lemma {:induction false} QuietTargetsIn(pos: Position, geo: Geometry, p: Sq, u: Squares, offset: int, i: int, k: Sq)
    requires 1 <= offset <= 8 && 0 <= i < 8 - offset
    requires k in QuietTargets(pos, geo, p, u, offset)[i]
    ensures k in u && k !in pos.occupied && k in geo.ring(p, offset + i)
    decreases i
  {
    var potMoves := geo.ring(p, offset) * u;
    var blockers := potMoves * pos.occupied;
    var later := u - RaysBehind(geo, p, blockers);
    assert QuietTargets(pos, geo, p, u, offset) == [Xor(potMoves, blockers)] + QuietTargets(pos, geo, p, later, offset + 1);
    if i > 0 {
      QuietTargetsIn(pos, geo, p, later, offset + 1, i - 1, k);
      assert offset + 1 + (i - 1) == offset + i;
    } else {
      assert offset + i == offset;
    }
  }

  /** A capture target of the i-th ring from `offset` is an enemy piece on that ring that no
      nearer blocker hides. */
  lemma {:induction false} CaptureTargetsIn(pos: Position, geo: Geometry, color: Color, p: Sq, u: Squares, offset: int, i: int, k: Sq)
    requires 1 <= offset <= 8 && 0 <= i < 8 - offset
    requires k in CaptureTargets(pos, geo, color, p, u, offset)[i]
    ensures k in u && k in pos.occupied && k in pos.colorSet(Opposite(color)) && k in geo.ring(p, offset + i)
    decreases i
  {
    var blockers := geo.ring(p, offset) * u * pos.occupied;
    var later := u - RaysBehind(geo, p, blockers);
    assert CaptureTargets(pos, geo, color, p, u, offset)
        == [blockers * pos.colorSet(Opposite(color))] + CaptureTargets(pos, geo, color, p, later, offset + 1);
    if i > 0 {
      CaptureTargetsIn(pos, geo, color, p, later, offset + 1, i - 1, k);
      assert offset + 1 + (i - 1) == offset + i;
    } else {
      assert offset + i == offset;
    }
  }

  /** The rings beyond a blocker's ring hold no quiet target on the ray behind it. */
  lemma QuietTargetsBehind(pos: Position, geo: Geometry, p: Sq, u: Squares, offset: int, b: Sq, i: int, k: Sq)
    requires 1 <= offset < 8 && 1 <= i < 8 - offset
    requires b in geo.ring(p, offset) * u * pos.occupied
    requires k in QuietTargets(pos, geo, p, u, offset)[i]
    ensures k !in geo.rayFrom(p, b)
  {
    var potMoves := geo.ring(p, offset) * u;
    var blockers := potMoves * pos.occupied;
    var later := u - RaysBehind(geo, p, blockers);
    assert QuietTargets(pos, geo, p, u, offset) == [Xor(potMoves, blockers)] + QuietTargets(pos, geo, p, later, offset + 1);
    QuietTargetsIn(pos, geo, p, later, offset + 1, i - 1, k);
  }

  /** The rings beyond a blocker's ring hold no capture target on the ray behind it. */
  lemma CaptureTargetsBehind(pos: Position, geo: Geometry, color: Color, p: Sq, u: Squares, offset: int, b: Sq, i: int, k: Sq)
    requires 1 <= offset < 8 && 1 <= i < 8 - offset
    requires b in geo.ring(p, offset) * u * pos.occupied
    requires k in CaptureTargets(pos, geo, color, p, u, offset)[i]
    ensures k !in geo.rayFrom(p, b)
  {
    var blockers := geo.ring(p, offset) * u * pos.occupied;
    var later := u - RaysBehind(geo, p, blockers);
    assert CaptureTargets(pos, geo, color, p, u, offset)
        == [blockers * pos.colorSet(Opposite(color))] + CaptureTargets(pos, geo, color, p, later, offset + 1);
    CaptureTargetsIn(pos, geo, color, p, later, offset + 1, i - 1, k);
  }

  /** A quiet move of the piece on p to an empty square that leaves the king safe. */
  predicate IsSliderStep(pos: Position, p: Sq, m: Move)
  {
    m.kind == MoveType.Quiet && m.from == p && m.to < 64
    && (m.to as Sq) !in pos.occupied && SafeAfter(pos, Flip(pos.occupied, p) + {m.to as Sq})
  }

  /** A capture by the piece on p of an enemy piece that leaves the king safe once that
      piece is gone. */
  predicate IsSliderTake(pos: Position, color: Color, p: Sq, m: Move)
  {
    m.kind == MoveType.Capture && m.from == p && m.to < 64
    && (m.to as Sq) in pos.colorSet(Opposite(color))
    && SafeAgainst(pos, Flip(pos.occupied, p) + {m.to as Sq}, Flip(pos.colorSet(Opposite(color)), m.to as Sq))
  }

  /** A quiet slider move goes to an empty square, still unblocked, on a ring at or beyond
      `offset`, and passed the king-safety check. */
  lemma QuietRingsMoves(pos: Position, geo: Geometry, p: Sq, u: Squares, offset: int, m: Move)
    requires 1 <= offset <= 8
    requires m in QuietRings(pos, geo, p, u, offset)
    ensures IsSliderStep(pos, p, m) && (m.to as Sq) in u
    ensures exists j :: offset <= j < 8 && (m.to as Sq) in geo.ring(p, j)
  {
    var i, k := DrainEachSource(QuietTargets(pos, geo, p, u, offset), SliderStep(pos, p), m);
    QuietEmitMove(pos, p, k, m);
    QuietTargetsIn(pos, geo, p, u, offset, i, k);
    assert offset <= offset + i < 8 && k in geo.ring(p, offset + i);
  }

  /** A slider capture takes an enemy piece, still unblocked, on a ring at or beyond `offset`,
      and passed the king-safety check with that piece removed. */
  lemma AttackRingsMoves(pos: Position, geo: Geometry, color: Color, p: Sq, u: Squares, offset: int, m: Move)
    requires 1 <= offset <= 8
    requires m in AttackRings(pos, geo, color, p, u, offset)
    ensures IsSliderTake(pos, color, p, m) && (m.to as Sq) in u && (m.to as Sq) in pos.occupied
    ensures exists j :: offset <= j < 8 && (m.to as Sq) in geo.ring(p, j)
  {
    var i, k := DrainEachSource(CaptureTargets(pos, geo, color, p, u, offset), SliderTake(pos, color, p), m);
    CaptureEmitMove(pos, color, p, k, m);
    CaptureTargetsIn(pos, geo, color, p, u, offset, i, k);
    assert offset <= offset + i < 8 && k in geo.ring(p, offset + i);
  }

  /** Once a piece stands on ring `offset`, no quiet move goes to a square behind it. */
  lemma QuietNotBehindBlocker(pos: Position, geo: Geometry, p: Sq, u: Squares, offset: int, b: Sq, m: Move)
    requires 1 <= offset < 8
    requires b in geo.ring(p, offset) * u * pos.occupied
    requires m in QuietRings(pos, geo, p, u, offset)
    ensures m.to < 64
    ensures (m.to as Sq) in geo.rayFrom(p, b) ==> (m.to as Sq) in geo.ring(p, offset)
  {
    var i, k := DrainEachSource(QuietTargets(pos, geo, p, u, offset), SliderStep(pos, p), m);
    QuietEmitMove(pos, p, k, m);
    if i == 0 {
      QuietTargetsIn(pos, geo, p, u, offset, 0, k);
    } else {
      QuietTargetsBehind(pos, geo, p, u, offset, b, i, k);
    }
  }

  /** Once a piece stands on ring `offset`, no capture takes a piece behind it. */
  lemma AttackNotBehindBlocker(pos: Position, geo: Geometry, color: Color, p: Sq, u: Squares, offset: int, b: Sq, m: Move)
    requires 1 <= offset < 8
    requires b in geo.ring(p, offset) * u * pos.occupied
    requires m in AttackRings(pos, geo, color, p, u, offset)
    ensures m.to < 64
    ensures (m.to as Sq) in geo.rayFrom(p, b) ==> (m.to as Sq) in geo.ring(p, offset)
  {
    var i, k := DrainEachSource(CaptureTargets(pos, geo, color, p, u, offset), SliderTake(pos, color, p), m);
    CaptureEmitMove(pos, color, p, k, m);
    if i == 0 {
      CaptureTargetsIn(pos, geo, color, p, u, offset, 0, k);
    } else {
      CaptureTargetsBehind(pos, geo, color, p, u, offset, b, i, k);
    }
  }

  /** GenerateQuiet<pType>: every move is a quiet move of one of the side's pieces of that
      type to an empty square it attacks, and leaves the king safe. */
  lemma SliderQuietMoves(pos: Position, geo: Geometry, color: Color, t: PieceType, m: Move)
    requires m in SliderQuiet(pos, geo, color, t)
    ensures m.kind == MoveType.Quiet && m.from in pos.pieces(color, t) && m.to < 64
    ensures (m.to as Sq) in geo.attacks(m.from, t) && (m.to as Sq) !in pos.occupied
    ensures SafeAfter(pos, Flip(pos.occupied, m.from) + {m.to as Sq})
  {
    var k := DrainPiecesSource(pos.pieces(color, t), SliderSteps(pos, geo, t), m);
    QuietRingsMoves(pos, geo, k, geo.attacks(k, t), 1, m);
  }

  /** GenerateAttack<pType>: every move captures an enemy piece on a square the piece
      attacks, and leaves the king safe. */
  lemma SliderAttackMoves(pos: Position, geo: Geometry, color: Color, t: PieceType, m: Move)
    requires m in SliderAttack(pos, geo, color, t)
    ensures m.kind == MoveType.Capture && m.from in pos.pieces(color, t) && m.to < 64
    ensures (m.to as Sq) in geo.attacks(m.from, t) && (m.to as Sq) in pos.colorSet(Opposite(color))
    ensures SafeAgainst(pos, Flip(pos.occupied, m.from) + {m.to as Sq}, Flip(pos.colorSet(Opposite(color)), m.to as Sq))
  {
    var k := DrainPiecesSource(pos.pieces(color, t), SliderTakes(pos, geo, color, t), m);
    AttackRingsMoves(pos, geo, color, k, geo.attacks(k, t), 1, m);
  }

  /** What a king loop step emits for one square. */
  lemma KingQuietEmitMove(pos: Position, color: Color, k: Sq, sq: Sq, m: Move)
    requires m in Emit(KingStep(pos, color, k), sq)
    ensures m == Move(MoveType.Quiet, k, sq)
    ensures pos.kingSafe(Flip(pos.occupied, k) + {sq}, pos.colorSet(Opposite(color)), {sq})
  {}

  lemma KingCaptureEmitMove(pos: Position, color: Color, k: Sq, sq: Sq, m: Move)
    requires m in Emit(KingTake(pos, color, k), sq)
    ensures m == Move(MoveType.Capture, k, sq)
    ensures pos.kingSafe(Flip(pos.occupied, k), Flip(pos.colorSet(Opposite(color)), sq), {sq})
  {}

  /** The quiet half of GenerateKingMoves: steps to empty neighbours the opponent does not
      attack that pass the safety check, and allowed castles two steps over. */
  lemma KingQuietShape(pos: Position, geo: Geometry, color: Color, m: Move)
    requires color != Color.None && pos.pieces(color, PieceType.King) != {}
    requires m in KingQuiet(pos, geo, color)
    ensures m.from == KingSquare(pos, color)
    ensures m.kind in {MoveType.Quiet, MoveType.KingCastle, MoveType.QueenCastle}
    ensures m.kind == MoveType.Quiet ==>
      m.to < 64 && (m.to as Sq) in geo.ring(m.from, 1)
      && (m.to as Sq) !in pos.occupied && (m.to as Sq) !in pos.attackSquares(Opposite(color))
      && pos.kingSafe(Flip(pos.occupied, m.from) + {m.to as Sq}, pos.colorSet(Opposite(color)), {m.to as Sq})
    ensures m.kind == MoveType.KingCastle ==>
      CastleAllowed(pos, color, 0, pos.attackSquares(Opposite(color))) && m.to == CastleTarget(geo, m.from, 0)
    ensures m.kind == MoveType.QueenCastle ==>
      CastleAllowed(pos, color, 1, pos.attackSquares(Opposite(color))) && m.to == CastleTarget(geo, m.from, 1)
  {
    var k := KingSquare(pos, color);
    var attacked := pos.attackSquares(Opposite(color));
    var steps := geo.ring(k, 1) - pos.occupied - attacked;
    if m in Drain(steps, KingStep(pos, color, k)) {
      var sq := DrainSource(steps, KingStep(pos, color, k), m);
      KingQuietEmitMove(pos, color, k, sq, m);
    } else if m in CastleMove(pos, geo, color, k, 0, attacked) {
      CastleMoveShape(pos, geo, color, k, 0, attacked, m);
    } else {
      CastleMoveShape(pos, geo, color, k, 1, attacked, m);
    }
  }

  /** A castling move is the one its side allows, to the square two steps along the row. */
  lemma CastleMoveShape(pos: Position, geo: Geometry, color: Color, k: Sq, side: Side, attacked: Squares, m: Move)
    requires color != Color.None
    requires m in CastleMove(pos, geo, color, k, side, attacked)
    ensures CastleAllowed(pos, color, side, attacked)
    ensures m == Move(CastleKind(side), k, CastleTarget(geo, k, side))
  {}

  /** The capture half of GenerateKingMoves: unattacked enemy neighbours, taken only when the
      safety check passes with that piece removed. */
  lemma KingCaptureShape(pos: Position, geo: Geometry, color: Color, m: Move)
    requires color != Color.None && pos.pieces(color, PieceType.King) != {}
    requires m in KingCaptures(pos, geo, color)
    ensures m.from == KingSquare(pos, color) && m.kind == MoveType.Capture
    ensures m.to < 64 && (m.to as Sq) in geo.ring(m.from, 1)
      && (m.to as Sq) in pos.colorSet(Opposite(color)) && (m.to as Sq) !in pos.attackSquares(Opposite(color))
      && pos.kingSafe(Flip(pos.occupied, m.from), Flip(pos.colorSet(Opposite(color)), m.to as Sq), {m.to as Sq})
  {
    var k := KingSquare(pos, color);
    var takes := geo.ring(k, 1) * pos.colorSet(Opposite(color)) - pos.attackSquares(Opposite(color));
    var sq := DrainSource(takes, KingTake(pos, color, k), m);
    KingCaptureEmitMove(pos, color, k, sq, m);
  }

  /** GenerateKingMoves<gType>: quiet steps and castles only outside attack mode, captures
      only outside quiet mode, all from the king's square. */
  lemma KingMovesShape(pos: Position, geo: Geometry, color: Color, g: GenType, m: Move)
    requires color != Color.None && pos.pieces(color, PieceType.King) != {}
    requires m in KingMoves(pos, geo, color, g)
    ensures m.from == KingSquare(pos, color)
    ensures m.kind == MoveType.Capture ==> g != GenType.Quiet && m in KingCaptures(pos, geo, color)
    ensures m.kind != MoveType.Capture ==> g != GenType.Attack && m in KingQuiet(pos, geo, color)
  {
    if g != GenType.Attack && m in KingQuiet(pos, geo, color) {
      KingQuietShape(pos, geo, color, m);
    } else {
      KingCaptureShape(pos, geo, color, m);
    }
  }

  /** Conversely, outside attack mode every safe step to an empty, unattacked neighbour is
      generated. */
  lemma KingStepGenerated(pos: Position, geo: Geometry, color: Color, g: GenType, sq: Sq)
    requires color != Color.None && pos.pieces(color, PieceType.King) != {}
    requires g != GenType.Attack
    requires sq in geo.ring(KingSquare(pos, color), 1) && sq !in pos.occupied
    requires sq !in pos.attackSquares(Opposite(color))
    requires pos.kingSafe(Flip(pos.occupied, KingSquare(pos, color)) + {sq}, pos.colorSet(Opposite(color)), {sq})
    ensures Move(MoveType.Quiet, KingSquare(pos, color), sq) in KingMoves(pos, geo, color, g)
  {
    var k := KingSquare(pos, color);
    var steps := geo.ring(k, 1) - pos.occupied - pos.attackSquares(Opposite(color));
    assert Move(MoveType.Quiet, k, sq) in Emit(KingStep(pos, color, k), sq);
    DrainMembers(steps, KingStep(pos, color, k), Move(MoveType.Quiet, k, sq));
  }

  /** Outside quiet mode every safe capture of an unattacked enemy neighbour is generated. */
  lemma KingCaptureGenerated(pos: Position, geo: Geometry, color: Color, g: GenType, sq: Sq)
    requires color != Color.None && pos.pieces(color, PieceType.King) != {}
    requires g != GenType.Quiet
    requires sq in geo.ring(KingSquare(pos, color), 1) && sq in pos.colorSet(Opposite(color))
    requires sq !in pos.attackSquares(Opposite(color))
    requires pos.kingSafe(Flip(pos.occupied, KingSquare(pos, color)), Flip(pos.colorSet(Opposite(color)), sq), {sq})
    ensures Move(MoveType.Capture, KingSquare(pos, color), sq) in KingMoves(pos, geo, color, g)
  {
    var k := KingSquare(pos, color);
    var takes := geo.ring(k, 1) * pos.colorSet(Opposite(color)) - pos.attackSquares(Opposite(color));
    assert Move(MoveType.Capture, k, sq) in Emit(KingTake(pos, color, k), sq);
    DrainMembers(takes, KingTake(pos, color, k), Move(MoveType.Capture, k, sq));
  }

  /** Outside attack mode an allowed castle is generated. */
  lemma CastleGenerated(pos: Position, geo: Geometry, color: Color, g: GenType, side: Side)
    requires color != Color.None && pos.pieces(color, PieceType.King) != {}
    requires g != GenType.Attack
    requires CastleAllowed(pos, color, side, pos.attackSquares(Opposite(color)))
    ensures Move(CastleKind(side), KingSquare(pos, color), CastleTarget(geo, KingSquare(pos, color), side))
              in KingMoves(pos, geo, color, g)
  {
    var k := KingSquare(pos, color);
    var attacked := pos.attackSquares(Opposite(color));
    var mv := Move(CastleKind(side), k, CastleTarget(geo, k, side));
    assert mv in CastleMove(pos, geo, color, k, side, attacked);
    var steps := Drain(geo.ring(k, 1) - pos.occupied - attacked, KingStep(pos, color, k));
    assert KingQuiet(pos, geo, color)
      == steps + CastleMove(pos, geo, color, k, 0, attacked) + CastleMove(pos, geo, color, k, 1, attacked);
  }

  /** The one-step push: a quiet move, or from the row before the last a promotion, to the
      square ahead, after the safety check. */
  lemma SinglePushMove(pos: Position, geo: Geometry, color: Color, p: Sq, m: Move)
    requires color != Color.None
    requires m in SinglePush(pos, geo, color, p)
    ensures m.from == p && m.to == Lowest(StepAhead(geo, color, p))
    ensures SafeAfter(pos, Flip(pos.occupied, p) + StepAhead(geo, color, p))
    ensures p in RowSet(PawnRow(Opposite(color))) ==> m.kind in PromotionMoves
    ensures p !in RowSet(PawnRow(Opposite(color))) ==> m.kind == MoveType.Quiet
  {
    if p in RowSet(PawnRow(Opposite(color))) {
      PromotionsKinds(PromotionMoves, p, Lowest(StepAhead(geo, color, p)), m);
    }
  }

  /** The two-step push: from the home row, both squares ahead empty, after the safety
      check. */
  lemma DoublePushMove(pos: Position, geo: Geometry, color: Color, p: Sq, m: Move)
    requires color != Color.None
    requires m in DoublePush(pos, geo, color, p)
    ensures m == Move(MoveType.DoublePawnPush, p, Lowest(TwoAhead(geo, color, p)))
    ensures p in RowSet(PawnRow(color)) && TwoAhead(geo, color, p) * pos.occupied == {}
    ensures SafeAfter(pos, Flip(pos.occupied, p) + TwoAhead(geo, color, p))
  {}

  /** A pawn's pushes: the square ahead is empty; a quiet step or a promotion goes there and
      passes the safety check, promotions exactly from the row before the last; a double push
      starts on the home row with both squares ahead empty. */
  lemma PawnPushShape(pos: Position, geo: Geometry, color: Color, p: Sq, m: Move)
    requires color != Color.None
    requires m in PawnPushes(pos, geo, color, p)
    ensures m.from == p && StepAhead(geo, color, p) * pos.occupied == {}
    ensures m.kind == MoveType.Quiet || m.kind == MoveType.DoublePawnPush || m.kind in PromotionMoves
    ensures m.kind == MoveType.Quiet ==>
      p !in RowSet(PawnRow(Opposite(color))) && m.to == Lowest(StepAhead(geo, color, p))
      && SafeAfter(pos, Flip(pos.occupied, p) + StepAhead(geo, color, p))
    ensures m.kind in PromotionMoves ==>
      p in RowSet(PawnRow(Opposite(color))) && m.to == Lowest(StepAhead(geo, color, p))
      && SafeAfter(pos, Flip(pos.occupied, p) + StepAhead(geo, color, p))
    ensures m.kind == MoveType.DoublePawnPush ==>
      p in RowSet(PawnRow(color)) && TwoAhead(geo, color, p) * pos.occupied == {}
      && m.to == Lowest(TwoAhead(geo, color, p)) && SafeAfter(pos, Flip(pos.occupied, p) + TwoAhead(geo, color, p))
  {
    if m in SinglePush(pos, geo, color, p) {
      SinglePushMove(pos, geo, color, p, m);
    } else {
      DoublePushMove(pos, geo, color, p, m);
    }
  }

  /** From the row before the last, a free and safe step gives the four promotions, in the
      order N, B, R, Q, and no quiet move. */
  lemma PromotionPushes(pos: Position, geo: Geometry, color: Color, p: Sq)
    requires color != Color.None
    requires p in RowSet(PawnRow(Opposite(color)))
    requires StepAhead(geo, color, p) * pos.occupied == {}
    requires SafeAfter(pos, Flip(pos.occupied, p) + StepAhead(geo, color, p))
    ensures |PawnPushes(pos, geo, color, p)| >= 4
    ensures forall i :: 0 <= i < 4 ==>
      PawnPushes(pos, geo, color, p)[i] == Move(PromotionMoves[i], p, Lowest(StepAhead(geo, color, p)))
    ensures forall m :: m in PawnPushes(pos, geo, color, p) ==> m.kind != MoveType.Quiet
  {
    var to := Lowest(StepAhead(geo, color, p));
    var single := Promotions(PromotionMoves, p, to);
    var double := DoublePush(pos, geo, color, p);
    SinglePushPromotes(pos, geo, color, p);
    var pushes := PawnPushes(pos, geo, color, p);
    assert pushes == single + double;
    forall i | 0 <= i < 4
      ensures pushes[i] == Move(PromotionMoves[i], p, to)
    {
      assert pushes[i] == single[i];
    }
    forall m: Move | m in pushes
      ensures m.kind != MoveType.Quiet
    {
      if m in single {
        PromotionsKinds(PromotionMoves, p, to, m);
      } else {
        DoublePushKind(pos, geo, color, p, m);
      }
    }
  }

  /** From the row before the last, a safe step forward is the four promotions. */
  lemma SinglePushPromotes(pos: Position, geo: Geometry, color: Color, p: Sq)
    requires color != Color.None
    requires p in RowSet(PawnRow(Opposite(color)))
    requires SafeAfter(pos, Flip(pos.occupied, p) + StepAhead(geo, color, p))
    ensures SinglePush(pos, geo, color, p) == Promotions(PromotionMoves, p, Lowest(StepAhead(geo, color, p)))
  {}

  /** The two-step push is a double pawn push. */
  lemma DoublePushKind(pos: Position, geo: Geometry, color: Color, p: Sq, m: Move)
    requires color != Color.None
    requires m in DoublePush(pos, geo, color, p)
    ensures m.kind == MoveType.DoublePawnPush && m.from == p
  {}

  /** What a pawn capture loop step emits for one attacked square. */
  lemma PawnCaptureEmitMove(pos: Position, color: Color, p: Sq, a: Sq, m: Move)
    requires color != Color.None
    requires m in Emit(PawnTake(pos, color, p), a)
    ensures m.from == p && m.to == a && IsCaptureType(m.kind) && m.kind != MoveType.EPCapture
    ensures m.kind == MoveType.Capture <==> p !in RowSet(PawnRow(Opposite(color)))
    ensures m.kind != MoveType.Capture ==> m.kind in PromotionCapturesMoves
    ensures SafeAgainst(pos, Flip(pos.occupied, p) + {a}, Flip(pos.colorSet(Opposite(color)), a))
  {
    if p in RowSet(PawnRow(Opposite(color))) {
      PromotionsKinds(PromotionCapturesMoves, p, a, m);
    }
  }

  /** A pawn's captures: promotion-captures exactly from the row before the last, plain
      captures otherwise, both onto an attacked enemy square after the safety check with
      that piece removed; en passant lands on the en-passant row within the en-passant
      column, with the pawn one step behind it removed. */
  lemma PawnCaptureShape(pos: Position, geo: Geometry, color: Color, p: Sq, m: Move)
    requires color != Color.None
    requires m in PawnCaptures(pos, geo, color, p)
    ensures m.from == p && m.to < 64 && IsCaptureType(m.kind)
    ensures m.kind == MoveType.EPCapture ==>
      (m.to as Sq) in geo.pawnAttacks(p, color) * RowSet(EPRow(color)) * ColumnSet(pos.ep)
      && var captured := Single(Lowest(geo.shift({m.to as Sq}, PawnDir(Opposite(color)))));
         SafeAgainst(pos, Xor(Flip(pos.occupied, p), captured) + {m.to as Sq},
                     Xor(pos.colorSet(Opposite(color)), captured) + {m.to as Sq})
    ensures m.kind != MoveType.EPCapture ==>
      (m.to as Sq) in geo.pawnAttacks(p, color) * pos.colorSet(Opposite(color))
      && (m.kind == MoveType.Capture <==> p !in RowSet(PawnRow(Opposite(color))))
      && (m.kind != MoveType.Capture ==> m.kind in PromotionCapturesMoves)
      && SafeAgainst(pos, Flip(pos.occupied, p) + {m.to as Sq}, Flip(pos.colorSet(Opposite(color)), m.to as Sq))
  {
    var targets := geo.pawnAttacks(p, color) * pos.colorSet(Opposite(color));
    if m in Drain(targets, PawnTake(pos, color, p)) {
      var a := DrainSource(targets, PawnTake(pos, color, p), m);
      PawnCaptureEmitMove(pos, color, p, a, m);
    }
  }

  /** One pawn's moves: a capture-type move is one of its captures, generated outside quiet
      mode, and any other move one of its pushes, generated outside attack mode. */
  lemma OnePawnKinds(pos: Position, geo: Geometry, color: Color, g: GenType, p: Sq, m: Move)
    requires color != Color.None
    requires m in OnePawn(pos, geo, color, g, p)
    ensures m.from == p
    ensures IsCaptureType(m.kind) ==> g != GenType.Quiet && m in PawnCaptures(pos, geo, color, p)
    ensures !IsCaptureType(m.kind) ==> g != GenType.Attack && m in PawnPushes(pos, geo, color, p)
  {
    if g != GenType.Attack && m in PawnPushes(pos, geo, color, p) {
      PawnPushKinds(pos, geo, color, p, m);
    } else {
      PawnCaptureKinds(pos, geo, color, p, m);
    }
  }

  /** A push is never a capture. */
  lemma PawnPushKinds(pos: Position, geo: Geometry, color: Color, p: Sq, m: Move)
    requires color != Color.None
    requires m in PawnPushes(pos, geo, color, p)
    ensures m.from == p && !IsCaptureType(m.kind)
  {
    if m in SinglePush(pos, geo, color, p) {
      SinglePushMove(pos, geo, color, p, m);
    } else {
      DoublePushMove(pos, geo, color, p, m);
    }
  }

  /** A pawn capture, en passant or not, is a capture. */
  lemma PawnCaptureKinds(pos: Position, geo: Geometry, color: Color, p: Sq, m: Move)
    requires color != Color.None
    requires m in PawnCaptures(pos, geo, color, p)
    ensures m.from == p && IsCaptureType(m.kind)
  {
    var targets := geo.pawnAttacks(p, color) * pos.colorSet(Opposite(color));
    if m in Drain(targets, PawnTake(pos, color, p)) {
      var a := DrainSource(targets, PawnTake(pos, color, p), m);
      PawnCaptureEmitMove(pos, color, p, a, m);
    }
  }

  /** GeneratePawnMoves: every move comes from one of the side's pawns and is split by kind
      as OnePawnKinds says. */
  lemma PawnMovesShape(pos: Position, geo: Geometry, color: Color, g: GenType, m: Move)
    requires color != Color.None
    requires m in PawnMoves(pos, geo, color, g)
    ensures m.from in pos.pieces(color, Pawn)
    ensures IsCaptureType(m.kind) ==> g != GenType.Quiet && m in PawnCaptures(pos, geo, color, m.from)
    ensures !IsCaptureType(m.kind) ==> g != GenType.Attack && m in PawnPushes(pos, geo, color, m.from)
  {
    var p := DrainPiecesSource(pos.pieces(color, Pawn), Pawns(pos, geo, color, g), m);
    OnePawnKinds(pos, geo, color, g, p, m);
  }

  /** Generate<Attack, t> yields only capture-type moves and Generate<Quiet, t> none. */
  lemma GenerateOfKinds(g: GenType, t: PieceType, pos: Position, geo: Geometry, color: Color, m: Move)
    requires t != PieceType.None && CanGenerate(pos, color, t)
    requires m in GenerateOf(g, t, pos, geo, color)
    ensures g == GenType.Attack ==> IsCaptureType(m.kind)
    ensures g == GenType.Quiet ==> !IsCaptureType(m.kind)
  {
    if t == PieceType.King {
      KingMovesShape(pos, geo, color, g, m);
      if m.kind != MoveType.Capture {
        assert !IsCaptureType(m.kind) by {
          KingQuietShape(pos, geo, color, m);
        }
      }
    } else if t == Pawn {
      PawnMovesShape(pos, geo, color, g, m);
    } else if g != GenType.Quiet && m in SliderAttack(pos, geo, color, t) {
      assert g != GenType.Quiet && IsCaptureType(m.kind) by {
        SliderAttackMoves(pos, geo, color, t, m);
      }
    } else {
      assert g != GenType.Attack && !IsCaptureType(m.kind) by {
        SliderQuietMoves(pos, geo, color, t, m);
      }
    }
  }

  /** The attack phase yields only capture-type moves, the quiet phase none. */
  lemma PhaseKinds(g: GenType, pos: Position, geo: Geometry, color: Color, m: Move)
    requires CanGenerate(pos, color, PieceType.King)
    requires m in Phase(g, pos, geo, color)
    ensures g == GenType.Attack ==> IsCaptureType(m.kind)
    ensures g == GenType.Quiet ==> !IsCaptureType(m.kind)
  {
    if m in GenerateOf(g, Pawn, pos, geo, color) {
      GenerateOfKinds(g, Pawn, pos, geo, color, m);
    } else if m in GenerateOf(g, Knight, pos, geo, color) {
      GenerateOfKinds(g, Knight, pos, geo, color, m);
    } else if m in GenerateOf(g, Bishop, pos, geo, color) {
      GenerateOfKinds(g, Bishop, pos, geo, color, m);
    } else if m in GenerateOf(g, Rook, pos, geo, color) {
      GenerateOfKinds(g, Rook, pos, geo, color, m);
    } else if m in GenerateOf(g, PieceType.Queen, pos, geo, color) {
      GenerateOfKinds(g, PieceType.Queen, pos, geo, color, m);
    } else {
      GenerateOfKinds(g, PieceType.King, pos, geo, color, m);
    }
  }

  /** A list of captures followed by a list of non-captures has every capture before every
      non-capture. */
  lemma CapturesBeforeOthers(a: seq<Move>, b: seq<Move>)
    requires forall m :: m in a ==> IsCaptureType(m.kind)
    requires forall m :: m in b ==> !IsCaptureType(m.kind)
    ensures forall i, j :: 0 <= i < j < |a + b| && IsCaptureType((a + b)[j].kind) ==> IsCaptureType((a + b)[i].kind)
  {
    forall i, j | 0 <= i < j < |a + b| && IsCaptureType((a + b)[j].kind)
      ensures IsCaptureType((a + b)[i].kind)
    {
      if j < |a| {
        assert (a + b)[i] in a;
      } else {
        assert false;
      }
    }
  }

  /** GenerateMoves<All>: every capture comes before every non-capture. */
  lemma CapturesFirst(pos: Position, geo: Geometry, color: Color)
    requires CanGenerate(pos, color, PieceType.King)
    ensures var r := AllMoves(GenType.All, pos, geo, color);
            forall i, j :: 0 <= i < j < |r| && IsCaptureType(r[j].kind) ==> IsCaptureType(r[i].kind)
  {
    var attacks := Phase(GenType.Attack, pos, geo, color);
    var quiets := Phase(GenType.Quiet, pos, geo, color);
    forall m | m in attacks
      ensures IsCaptureType(m.kind)
    {
      PhaseKinds(GenType.Attack, pos, geo, color, m);
    }
    forall m | m in quiets
      ensures !IsCaptureType(m.kind)
    {
      PhaseKinds(GenType.Quiet, pos, geo, color, m);
    }
    CapturesBeforeOthers(attacks, quiets);
    assert AllMoves(GenType.All, pos, geo, color) == attacks + quiets;
  }

  /** GenerateMoves<Attack> yields only capture-type moves, GenerateMoves<Quiet> none. */
  lemma AllMovesKinds(g: GenType, pos: Position, geo: Geometry, color: Color, m: Move)
    requires CanGenerate(pos, color, PieceType.King)
    requires m in AllMoves(g, pos, geo, color)
    ensures g == GenType.Attack ==> IsCaptureType(m.kind)
    ensures g == GenType.Quiet ==> !IsCaptureType(m.kind)
  {
    if g == GenType.Attack {
      PhaseKinds(GenType.Attack, pos, geo, color, m);
    } else if g == GenType.Quiet {
      PhaseKinds(GenType.Quiet, pos, geo, color, m);
    }
  }

  // ---------------------------------------------------------------------------
  // The generators as the source runs them: loops that pop the lowest square and append to
  // the move list.

  /** Appending is associative; the drain loops rebracket their invariant with it. */
  lemma Assoc(a: seq<Move>, b: seq<Move>, c: seq<Move>)
    ensures (a + b) + c == a + (b + c)
  {}

  /** lsb_pop: the lowest square and the set without it, which is one step of Drain. */
  method LsbPop(x: Squares, ghost e: Emitter) returns (sq: Sq, rest: Squares)
    requires e.PawnTake? ==> e.color != Color.None
    requires x != {}
    ensures sq in x && rest == x - {sq} && |rest| < |x|
    ensures Drain(x, e) == Emit(e, sq) + Drain(rest, e)
  {
    sq := Lowest(x) as Sq;
    rest := PopLowest(x);
  }

  /** lsb_pop in the outer loops over pieces: one step of DrainPieces. */
  method LsbPopPiece(x: Squares, ghost e: PieceEmitter) returns (sq: Sq, rest: Squares)
    requires e.Pawns? ==> e.color != Color.None
    requires x != {}
    ensures sq in x && rest == x - {sq} && |rest| < |x|
    ensures DrainPieces(x, e) == PieceMoves(e, sq) + DrainPieces(rest, e)
  {
    sq := Lowest(x) as Sq;
    rest := PopLowest(x);
  }

  /** lsb_pop inside the blocker loops: one step of RaysBehind. */
  method LsbPopRay(geo: Geometry, piece: Sq, x: Squares) returns (sq: Sq, rest: Squares)
    requires x != {}
    ensures sq in x && rest == x - {sq} && |rest| < |x|
    ensures RaysBehind(geo, piece, x) == geo.rayFrom(piece, sq) + RaysBehind(geo, piece, rest)
  {
    sq := Lowest(x) as Sq;
    rest := PopLowest(x);
    assert x == rest + {sq};
  }

  /** `for (const auto prom : kinds) moves << Move(prom, from, to)`. */
  method AppendPromotions(kinds: seq<MoveType>, from: Sq, to: bv8, moves: seq<Move>) returns (out: seq<Move>)
    ensures out == moves + Promotions(kinds, from, to)
  {
    out := moves;
    for i := 0 to |kinds|
      invariant out == moves + Promotions(kinds[..i], from, to)
    {
      assert Promotions(kinds[..i + 1], from, to) == Promotions(kinds[..i], from, to) + [Move(kinds[i], from, to)];
      out := out + [Move(kinds[i], from, to)];
    }
    assert kinds[..|kinds|] == kinds;
  }

  /** The king's quiet-move loop (move_gen.cpp:23-29). */
  method KingQuietLoop(pos: Position, color: Color, kingPos: Sq, qMoves: Squares, moves: seq<Move>) returns (out: seq<Move>)
    ensures out == moves + Drain(qMoves, KingStep(pos, color, kingPos))
  {
    out := moves;
    var rest := qMoves;
    while rest != {}
      invariant out + Drain(rest, KingStep(pos, color, kingPos)) == moves + Drain(qMoves, KingStep(pos, color, kingPos))
      decreases |rest|
    {
      var move;
      ghost var before := out;
      move, rest := LsbPop(rest, KingStep(pos, color, kingPos));
      if pos.kingSafe(Flip(pos.occupied, kingPos) + {move}, pos.colorSet(Opposite(color)), {move}) {
        out := out + [Move(MoveType.Quiet, kingPos, move)];
      }
      assert out == before + Emit(KingStep(pos, color, kingPos), move);
      Assoc(before, Emit(KingStep(pos, color, kingPos), move), Drain(rest, KingStep(pos, color, kingPos)));
    }
  }

  /** The king's capture loop (move_gen.cpp:44-50). */
  method KingCaptureLoop(pos: Position, color: Color, kingPos: Sq, aMoves: Squares, moves: seq<Move>) returns (out: seq<Move>)
    ensures out == moves + Drain(aMoves, KingTake(pos, color, kingPos))
  {
    out := moves;
    var rest := aMoves;
    while rest != {}
      invariant out + Drain(rest, KingTake(pos, color, kingPos)) == moves + Drain(aMoves, KingTake(pos, color, kingPos))
      decreases |rest|
    {
      var move;
      ghost var before := out;
      move, rest := LsbPop(rest, KingTake(pos, color, kingPos));
      if pos.kingSafe(Flip(pos.occupied, kingPos), Flip(pos.colorSet(Opposite(color)), move), {move}) {
        out := out + [Move(MoveType.Capture, kingPos, move)];
      }
      assert out == before + Emit(KingTake(pos, color, kingPos), move);
      Assoc(before, Emit(KingTake(pos, color, kingPos), move), Drain(rest, KingTake(pos, color, kingPos)));
    }
  }

  /** One castling move (move_gen.cpp:30-35 for side 0, 36-41 for side 1). */
  method AppendCastle(pos: Position, geo: Geometry, color: Color, kingPos: Sq, side: Side, attackedSquares: Squares, moves: seq<Move>)
    returns (out: seq<Move>)
    requires color != Color.None
    ensures out == moves + CastleMove(pos, geo, color, kingPos, side, attackedSquares)
  {
    out := moves;
    var dir := if side == 0 then Direction.East else Direction.West;
    if pos.allowsCastling(if side == 0 then Castling.King else Castling.Queen, color)
       && pos.occupied * SquaresOf(CastlingBlockSquares(color, side)) == {}
       && attackedSquares * SquaresOf(CastlingAttackSquares(color, side)) == {}
    {
      out := out + [Move(if side == 0 then MoveType.KingCastle else MoveType.QueenCastle, kingPos,
                         Lowest(geo.shift(geo.shift({kingPos}, dir), dir)))];
    }
  }

  /** GenerateKingMoves<gType>. */
  method GenerateKingMoves(g: GenType, pos: Position, geo: Geometry, color: Color, moves: seq<Move>) returns (out: seq<Move>)
    requires color != Color.None && pos.pieces(color, PieceType.King) != {}
    ensures out == moves + KingMoves(pos, geo, color, g)
  {
    out := moves;
    if g == GenType.Quiet || g == GenType.All {
      out := AppendKingQuiet(pos, geo, color, out);
    }
    ghost var quiet := out;
    assert quiet == moves + (if g != GenType.Attack then KingQuiet(pos, geo, color) else []);
    if g == GenType.Attack || g == GenType.All {
      var oppColor := Opposite(color);
      var kingPos := Lowest(pos.pieces(color, PieceType.King)) as Sq;
      var aMoves := geo.ring(kingPos, 1) * pos.colorSet(oppColor) - pos.attackSquares(oppColor);
      out := KingCaptureLoop(pos, color, kingPos, aMoves, out);
    }
    assert out == quiet + (if g != GenType.Quiet then KingCaptures(pos, geo, color) else []);
    Assoc(moves, if g != GenType.Attack then KingQuiet(pos, geo, color) else [],
          if g != GenType.Quiet then KingCaptures(pos, geo, color) else []);
  }

  /** The king's quiet steps followed by its two castles (move_gen.cpp:22-41). */
  method AppendKingQuiet(pos: Position, geo: Geometry, color: Color, moves: seq<Move>) returns (out: seq<Move>)
    requires color != Color.None && pos.pieces(color, PieceType.King) != {}
    ensures out == moves + KingQuiet(pos, geo, color)
  {
    var attackedSquares := pos.attackSquares(Opposite(color));
    var kingPos := Lowest(pos.pieces(color, PieceType.King)) as Sq;
    var qMoves := geo.ring(kingPos, 1) - pos.occupied - attackedSquares;
    out := KingQuietLoop(pos, color, kingPos, qMoves, moves);
    out := AppendCastle(pos, geo, color, kingPos, 0, attackedSquares, out);
    out := AppendCastle(pos, geo, color, kingPos, 1, attackedSquares, out);
    Assoc(moves, Drain(qMoves, KingStep(pos, color, kingPos)), CastleMove(pos, geo, color, kingPos, 0, attackedSquares));
    Assoc(moves, Drain(qMoves, KingStep(pos, color, kingPos)) + CastleMove(pos, geo, color, kingPos, 0, attackedSquares),
          CastleMove(pos, geo, color, kingPos, 1, attackedSquares));
  }

  /** One pawn's pushes (move_gen.cpp:63-77). */
  method PawnPushMoves(pos: Position, geo: Geometry, color: Color, piece: Sq, moves: seq<Move>) returns (out: seq<Move>)
    requires color != Color.None
    ensures out == moves + PawnPushes(pos, geo, color, piece)
  {
    out := moves;
    var to := StepAhead(geo, color, piece);
    if to * pos.occupied == {} {
      out := AppendSinglePush(pos, geo, color, piece, out);
      ghost var single := out;
      to := TwoAhead(geo, color, piece);
      if piece in RowSet(PawnRow(color)) && to * pos.occupied == {} {
        if SafeAfter(pos, Flip(pos.occupied, piece) + to) {
          out := out + [Move(MoveType.DoublePawnPush, piece, Lowest(to))];
        }
      }
      assert out == single + DoublePush(pos, geo, color, piece);
      Assoc(moves, SinglePush(pos, geo, color, piece), DoublePush(pos, geo, color, piece));
    }
  }

  /** The single step forward of one pawn, with its promotions (move_gen.cpp:65-70). */
  method AppendSinglePush(pos: Position, geo: Geometry, color: Color, piece: Sq, moves: seq<Move>) returns (out: seq<Move>)
    requires color != Color.None
    ensures out == moves + SinglePush(pos, geo, color, piece)
  {
    out := moves;
    var to := StepAhead(geo, color, piece);
    if SafeAfter(pos, Flip(pos.occupied, piece) + to) {
      if piece in RowSet(PawnRow(Opposite(color))) {
        out := AppendPromotions(PromotionMoves, piece, Lowest(to), out);
      } else {
        out := out + [Move(MoveType.Quiet, piece, Lowest(to))];
      }
    }
  }

  /** One pawn's capture loop (move_gen.cpp:80-92). */
  method PawnCaptureLoop(pos: Position, geo: Geometry, color: Color, piece: Sq, moves: seq<Move>) returns (out: seq<Move>)
    requires color != Color.None
    ensures out == moves + Drain(geo.pawnAttacks(piece, color) * pos.colorSet(Opposite(color)), PawnTake(pos, color, piece))
  {
    out := moves;
    var oppColor := Opposite(color);
    var attacks := geo.pawnAttacks(piece, color) * pos.colorSet(oppColor);
    ghost var emit := PawnTake(pos, color, piece);
    while attacks != {}
      invariant out + Drain(attacks, emit) == moves + Drain(geo.pawnAttacks(piece, color) * pos.colorSet(oppColor), emit)
      decreases |attacks|
    {
      var attack;
      ghost var before := out;
      attack, attacks := LsbPop(attacks, emit);
      if SafeAgainst(pos, Flip(pos.occupied, piece) + {attack}, Flip(pos.colorSet(oppColor), attack)) {
        if piece in RowSet(PawnRow(oppColor)) {
          out := AppendPromotions(PromotionCapturesMoves, piece, attack, out);
        } else {
          out := out + [Move(MoveType.Capture, piece, attack)];
        }
      }
      assert out == before + Emit(emit, attack);
      Assoc(before, Emit(emit, attack), Drain(attacks, emit));
    }
  }

  /** One pawn's en-passant capture (move_gen.cpp:93-102). */
  method EnPassantMove(pos: Position, geo: Geometry, color: Color, piece: Sq, moves: seq<Move>) returns (out: seq<Move>)
    requires color != Color.None
    ensures out == moves + EnPassant(pos, geo, color, piece)
  {
    out := moves;
    var oppColor := Opposite(color);
    var attack := geo.pawnAttacks(piece, color) * RowSet(EPRow(color)) * ColumnSet(pos.ep);
    if attack != {} {
      var sq := Lowest(attack) as Sq;
      attack := PopLowest(attack);
      var captured := Single(Lowest(geo.shift({sq}, PawnDir(oppColor))));
      if SafeAgainst(pos, Xor(Flip(pos.occupied, piece), captured) + {sq}, Xor(pos.colorSet(oppColor), captured) + {sq}) {
        out := out + [Move(MoveType.EPCapture, piece, sq)];
      }
    }
  }

  /** The captures of one pawn: the capture loop, then en passant (move_gen.cpp:80-102). */
  method PawnAttackMoves(pos: Position, geo: Geometry, color: Color, piece: Sq, moves: seq<Move>) returns (out: seq<Move>)
    requires color != Color.None
    ensures out == moves + PawnCaptures(pos, geo, color, piece)
  {
    out := PawnCaptureLoop(pos, geo, color, piece, moves);
    out := EnPassantMove(pos, geo, color, piece, out);
    Assoc(moves, Drain(geo.pawnAttacks(piece, color) * pos.colorSet(Opposite(color)), PawnTake(pos, color, piece)),
          EnPassant(pos, geo, color, piece));
  }

  /** The body of GeneratePawnMoves' loop for one pawn (move_gen.cpp:62-103). */
  method OnePawnMoves(g: GenType, pos: Position, geo: Geometry, color: Color, piece: Sq, moves: seq<Move>) returns (out: seq<Move>)
    requires color != Color.None
    ensures out == moves + OnePawn(pos, geo, color, g, piece)
  {
    out := moves;
    if g == GenType.Quiet || g == GenType.All {
      out := PawnPushMoves(pos, geo, color, piece, out);
    }
    ghost var pushes := if g != GenType.Attack then PawnPushes(pos, geo, color, piece) else [];
    assert out == moves + pushes;
    ghost var mid := out;
    if g == GenType.Attack || g == GenType.All {
      out := PawnAttackMoves(pos, geo, color, piece, out);
    }
    ghost var captures := if g != GenType.Quiet then PawnCaptures(pos, geo, color, piece) else [];
    assert out == mid + captures;
    Assoc(moves, pushes, captures);
  }

  /** GeneratePawnMoves<gType>. */
  method GeneratePawnMoves(g: GenType, pos: Position, geo: Geometry, color: Color, moves: seq<Move>) returns (out: seq<Move>)
    requires color != Color.None
    ensures out == moves + PawnMoves(pos, geo, color, g)
  {
    out := moves;
    var pieces := pos.pieces(color, Pawn);
    while pieces != {}
      invariant out + DrainPieces(pieces, Pawns(pos, geo, color, g)) == moves + PawnMoves(pos, geo, color, g)
      decreases |pieces|
    {
      var piece;
      ghost var before := out;
      piece, pieces := LsbPopPiece(pieces, Pawns(pos, geo, color, g));
      out := OnePawnMoves(g, pos, geo, color, piece, out);
      Assoc(before, PieceMoves(Pawns(pos, geo, color, g), piece), DrainPieces(pieces, Pawns(pos, geo, color, g)));
    }
  }

  /** `while (blockers) unblocked &= ~Ray(piece, lsb_pop(blockers))`. */
  method RemoveRays(geo: Geometry, piece: Sq, unblocked: Squares, blockers: Squares) returns (r: Squares)
    ensures r == unblocked - RaysBehind(geo, piece, blockers)
  {
    r := unblocked;
    var rest := blockers;
    while rest != {}
      invariant r - RaysBehind(geo, piece, rest) == unblocked - RaysBehind(geo, piece, blockers)
      decreases |rest|
    {
      var b;
      b, rest := LsbPopRay(geo, piece, rest);
      r := r - geo.rayFrom(piece, b);
    }
  }

  /** The quiet-move loop of one ring (move_gen.cpp:124-128). */
  method QuietLoop(pos: Position, piece: Sq, potMoves: Squares, moves: seq<Move>) returns (out: seq<Move>)
    ensures out == moves + Drain(potMoves, SliderStep(pos, piece))
  {
    out := moves;
    var rest := potMoves;
    while rest != {}
      invariant out + Drain(rest, SliderStep(pos, piece)) == moves + Drain(potMoves, SliderStep(pos, piece))
      decreases |rest|
    {
      var sq;
      ghost var before := out;
      sq, rest := LsbPop(rest, SliderStep(pos, piece));
      if SafeAfter(pos, Flip(pos.occupied, piece) + {sq}) {
        out := out + [Move(MoveType.Quiet, piece, sq)];
      }
      assert out == before + Emit(SliderStep(pos, piece), sq);
      Assoc(before, Emit(SliderStep(pos, piece), sq), Drain(rest, SliderStep(pos, piece)));
    }
  }

  /** The capture loop of one ring (move_gen.cpp:149-154). */
  method CaptureLoop(pos: Position, color: Color, piece: Sq, blockers: Squares, moves: seq<Move>) returns (out: seq<Move>)
    ensures out == moves + Drain(blockers, SliderTake(pos, color, piece))
  {
    out := moves;
    var rest := blockers;
    while rest != {}
      invariant out + Drain(rest, SliderTake(pos, color, piece)) == moves + Drain(blockers, SliderTake(pos, color, piece))
      decreases |rest|
    {
      var blocker;
      ghost var before := out;
      blocker, rest := LsbPop(rest, SliderTake(pos, color, piece));
      if SafeAgainst(pos, Flip(pos.occupied, piece) + {blocker}, Flip(pos.colorSet(Opposite(color)), blocker)) {
        out := out + [Move(MoveType.Capture, piece, blocker)];
      }
      assert out == before + Emit(SliderTake(pos, color, piece), blocker);
      Assoc(before, Emit(SliderTake(pos, color, piece), blocker), Drain(rest, SliderTake(pos, color, piece)));
    }
  }

  /** The ring loop of GenerateQuiet for one piece (move_gen.cpp:114-129). */
  method QuietPieceMoves(pos: Position, geo: Geometry, t: PieceType, piece: Sq, moves: seq<Move>) returns (out: seq<Move>)
    ensures out == moves + QuietRings(pos, geo, piece, geo.attacks(piece, t), 1)
  {
    out := moves;
    var unblocked := geo.attacks(piece, t);
    for offset := 1 to 8
      invariant out + QuietRings(pos, geo, piece, unblocked, offset) == moves + QuietRings(pos, geo, piece, geo.attacks(piece, t), 1)
    {
      ghost var ringStart := out;
      ghost var u0 := unblocked;
      var potMoves := geo.ring(piece, offset) * unblocked;
      var blockers := potMoves * pos.occupied;
      potMoves := Xor(potMoves, blockers);
      unblocked := RemoveRays(geo, piece, unblocked, blockers);
      QuietRingsStep(pos, geo, piece, u0, offset);
      out := QuietLoop(pos, piece, potMoves, out);
      Assoc(ringStart, Drain(potMoves, SliderStep(pos, piece)), QuietRings(pos, geo, piece, unblocked, offset + 1));
    }
  }

  /** GenerateQuiet<pType>. */
  method GenerateQuiet(t: PieceType, pos: Position, geo: Geometry, color: Color, moves: seq<Move>) returns (out: seq<Move>)
    ensures out == moves + SliderQuiet(pos, geo, color, t)
  {
    out := moves;
    var pieces := pos.pieces(color, t);
    while pieces != {}
      invariant out + DrainPieces(pieces, SliderSteps(pos, geo, t)) == moves + SliderQuiet(pos, geo, color, t)
      decreases |pieces|
    {
      var piece;
      ghost var before := out;
      piece, pieces := LsbPopPiece(pieces, SliderSteps(pos, geo, t));
      out := QuietPieceMoves(pos, geo, t, piece, out);
      assert out == before + PieceMoves(SliderSteps(pos, geo, t), piece);
      Assoc(before, PieceMoves(SliderSteps(pos, geo, t), piece), DrainPieces(pieces, SliderSteps(pos, geo, t)));
    }
  }

  /** The ring loop of GenerateAttack for one piece (move_gen.cpp:141-155). */
  method AttackPieceMoves(pos: Position, geo: Geometry, color: Color, t: PieceType, piece: Sq, moves: seq<Move>) returns (out: seq<Move>)
    ensures out == moves + AttackRings(pos, geo, color, piece, geo.attacks(piece, t), 1)
  {
    out := moves;
    var oppColor := Opposite(color);
    var unblocked := geo.attacks(piece, t);
    for offset := 1 to 8
      invariant out + AttackRings(pos, geo, color, piece, unblocked, offset) == moves + AttackRings(pos, geo, color, piece, geo.attacks(piece, t), 1)
    {
      ghost var ringStart := out;
      ghost var u0 := unblocked;
      var blockers := geo.ring(piece, offset) * unblocked * pos.occupied;
      unblocked := RemoveRays(geo, piece, unblocked, blockers);
      blockers := blockers * pos.colorSet(oppColor);
      AttackRingsStep(pos, geo, color, piece, u0, offset);
      out := CaptureLoop(pos, color, piece, blockers, out);
      Assoc(ringStart, Drain(blockers, SliderTake(pos, color, piece)), AttackRings(pos, geo, color, piece, unblocked, offset + 1));
    }
  }

  /** GenerateAttack<pType>. */
  method GenerateAttack(t: PieceType, pos: Position, geo: Geometry, color: Color, moves: seq<Move>) returns (out: seq<Move>)
    ensures out == moves + SliderAttack(pos, geo, color, t)
  {
    out := moves;
    var pieces := pos.pieces(color, t);
    while pieces != {}
      invariant out + DrainPieces(pieces, SliderTakes(pos, geo, color, t)) == moves + SliderAttack(pos, geo, color, t)
      decreases |pieces|
    {
      var piece;
      ghost var before := out;
      piece, pieces := LsbPopPiece(pieces, SliderTakes(pos, geo, color, t));
      out := AttackPieceMoves(pos, geo, color, t, piece, out);
      assert out == before + PieceMoves(SliderTakes(pos, geo, color, t), piece);
      Assoc(before, PieceMoves(SliderTakes(pos, geo, color, t), piece), DrainPieces(pieces, SliderTakes(pos, geo, color, t)));
    }
  }

  /** Generate<gType, pType>. */
  method Generate(g: GenType, t: PieceType, pos: Position, geo: Geometry, color: Color, moves: seq<Move>) returns (out: seq<Move>)
    requires t != PieceType.None && CanGenerate(pos, color, t)
    ensures out == moves + GenerateOf(g, t, pos, geo, color)
  {
    if t == PieceType.King {
      out := GenerateKingMoves(g, pos, geo, color, moves);
    } else if t == Pawn {
      out := GeneratePawnMoves(g, pos, geo, color, moves);
    } else {
      out := moves;
      if g != GenType.Quiet {
        out := GenerateAttack(t, pos, geo, color, out);
      }
      ghost var attacks := if g != GenType.Quiet then SliderAttack(pos, geo, color, t) else [];
      assert out == moves + attacks;
      ghost var mid := out;
      if g != GenType.Attack {
        out := GenerateQuiet(t, pos, geo, color, out);
      }
      ghost var quiets := if g != GenType.Attack then SliderQuiet(pos, geo, color, t) else [];
      assert out == mid + quiets;
      Assoc(moves, attacks, quiets);
    }
  }

  /** The six Generate calls of one phase, Pawn to King. */
  method GeneratePhase(g: GenType, pos: Position, geo: Geometry, color: Color, moves: seq<Move>) returns (out: seq<Move>)
    requires CanGenerate(pos, color, PieceType.King)
    ensures out == moves + Phase(g, pos, geo, color)
  {
    out := Generate(g, Pawn, pos, geo, color, moves);
    ghost var done := GenerateOf(g, Pawn, pos, geo, color);
    out := Generate(g, Knight, pos, geo, color, out);
    Assoc(moves, done, GenerateOf(g, Knight, pos, geo, color));
    done := done + GenerateOf(g, Knight, pos, geo, color);
    out := Generate(g, Bishop, pos, geo, color, out);
    Assoc(moves, done, GenerateOf(g, Bishop, pos, geo, color));
    done := done + GenerateOf(g, Bishop, pos, geo, color);
    out := Generate(g, Rook, pos, geo, color, out);
    Assoc(moves, done, GenerateOf(g, Rook, pos, geo, color));
    done := done + GenerateOf(g, Rook, pos, geo, color);
    out := Generate(g, PieceType.Queen, pos, geo, color, out);
    Assoc(moves, done, GenerateOf(g, PieceType.Queen, pos, geo, color));
    done := done + GenerateOf(g, PieceType.Queen, pos, geo, color);
    out := Generate(g, PieceType.King, pos, geo, color, out);
    Assoc(moves, done, GenerateOf(g, PieceType.King, pos, geo, color));
    done := done + GenerateOf(g, PieceType.King, pos, geo, color);
  }

  /** GenerateMoves<gType>(pos, color). */
  method GenerateMoves(g: GenType, pos: Position, geo: Geometry, color: Color) returns (moves: seq<Move>)
    requires CanGenerate(pos, color, PieceType.King)
    ensures moves == AllMoves(g, pos, geo, color)
  {
    moves := [];
    if g == GenType.All || g == GenType.Attack {
      moves := GeneratePhase(GenType.Attack, pos, geo, color, moves);
    }
    ghost var attacks := if g != GenType.Quiet then Phase(GenType.Attack, pos, geo, color) else [];
    assert moves == attacks;
    if g == GenType.All || g == GenType.Quiet {
      moves := GeneratePhase(GenType.Quiet, pos, geo, color, moves);
    }
    ghost var quiets := if g != GenType.Attack then Phase(GenType.Quiet, pos, geo, color) else [];
    assert moves == attacks + quiets;
  }

  /** GenerateMoves<gType>(pos): for the side to move. */
  method GenerateMovesForTurn(g: GenType, pos: Position, geo: Geometry) returns (moves: seq<Move>)
    requires CanGenerate(pos, pos.turn, PieceType.King)
    ensures moves == AllMoves(g, pos, geo, pos.turn)
  {
    moves := GenerateMoves(g, pos, geo, pos.turn);
  }

  /** GenerateMoves<gType>(pos, color, pType). */
  method GenerateMovesOfType(g: GenType, pos: Position, geo: Geometry, color: Color, t: PieceType) returns (moves: seq<Move>)
    requires CanGenerate(pos, color, t)
    ensures moves == MovesOfType(g, pos, geo, color, t)
  {
    moves := [];
    match t {
      case Pawn => moves := Generate(g, Pawn, pos, geo, color, moves);
      case Knight => moves := Generate(g, Knight, pos, geo, color, moves);
      case Bishop => moves := Generate(g, Bishop, pos, geo, color, moves);
      case Rook => moves := Generate(g, Rook, pos, geo, color, moves);
      case Queen => moves := Generate(g, PieceType.Queen, pos, geo, color, moves);
      case King => moves := Generate(g, PieceType.King, pos, geo, color, moves);
      case None =>
    }
  }
}
