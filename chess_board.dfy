/** chess/include/chess/board.hpp: the third generation's board. Bitboards, the square-to-type
    table and the Zobrist hash are updated in place; the en-passant and castling histories are
    fixed-capacity stacks whose top is the current state. Bitboards are read as square sets
    (module SquareSets): x |= square is x + {square}, x ^= square is Flip(x, square). */
module ChessBoard {
  import opened Bits
  import opened SquareSets
  import opened ChessConstants
  import ClassesUtilities

  /** One key of the Zobrist scheme: a (square, type, colour) placement, a (colour, side)
      castling right, or an en-passant column. */
  datatype ZobristKey =
    | SquareKey(sq: Sq, t: PieceType, c: Color)
    | CastlingKey(c: Color, side: Castling)
    | EPKey(col: Column)

  /** The Zobrist object board.hpp flips (its class is not part of this model: zobrist.hpp
      declares only the flip functions): every flip toggles one key, so the hash is modelled
      by the set of keys it currently carries, and its 64-bit value by a parameter function
      of that set. */
  type Hash = set<ZobristKey>

  /** std::array<Castling, 2>: the rights of White and of Black. */
  type CastlingRights = s: seq<Castling> | |s| == 2 witness [Castling.None, Castling.None]

  /** A snapshot of every field a Board holds. */
  datatype BoardState = BoardState(
    pieceBB: seq<Squares>,
    colorBB: seq<Squares>,
    occupiedBB: Squares,
    pieceBoard: seq<PieceType>,
    zobrist: Hash,
    turn: Color,
    oppColor: Color,
    ply: int,
    ep: seq<Column>,
    castling: seq<CastlingRights>)

  /** The board invariant: array sizes, stacks non-empty and within MAX_PLY, and the
      occupancy is the union of the two colours (the assert closing PlacePiece and RemovePiece). */
  predicate ValidState(s: BoardState)
  {
    |s.pieceBB| == PieceCount && |s.colorBB| == ColorCount && |s.pieceBoard| == SquareCount &&
    1 <= |s.ep| <= MaxPly && 1 <= |s.castling| <= MaxPly &&
    s.occupiedBB == s.colorBB[0] + s.colorBB[1]
  }

  // ---------------------------------------------------------------------------
  // The effect of each mutator on a snapshot

  /** What PlacePiece(square, type, color) does. */
  function Placed(s: BoardState, sq: Sq, t: PieceType, c: Color): BoardState
    requires ValidState(s) && t != PieceType.None && c != Color.None
  {
    var ti := TypeIndex(t);
    var ci := ColorIndex(c);
    s.(pieceBB := s.pieceBB[ti := s.pieceBB[ti] + {sq}],
       colorBB := s.colorBB[ci := s.colorBB[ci] + {sq}],
       occupiedBB := s.occupiedBB + {sq},
       pieceBoard := s.pieceBoard[sq as int := t],
       zobrist := Flip(s.zobrist, SquareKey(sq, t, c)))
  }

  /** What RemovePiece(square, type, color) does: the same square and key flipped. */
  function Removed(s: BoardState, sq: Sq, t: PieceType, c: Color): BoardState
    requires ValidState(s) && t != PieceType.None && c != Color.None
  {
    var ti := TypeIndex(t);
    var ci := ColorIndex(c);
    s.(pieceBB := s.pieceBB[ti := Flip(s.pieceBB[ti], sq)],
       colorBB := s.colorBB[ci := Flip(s.colorBB[ci], sq)],
       occupiedBB := Flip(s.occupiedBB, sq),
       pieceBoard := s.pieceBoard[sq as int := PieceType.None],
       zobrist := Flip(s.zobrist, SquareKey(sq, t, c)))
  }

  /** One of PushCastling's and PopCastling's conditional flips: FlipCastling(color, side)
      when the two rights differ on side. */
  function FlipSide(h: Hash, c: Color, side: Castling, now: Castling, before: Castling): Hash
  {
    if CastlingAnd(now, side) != CastlingAnd(before, side) then Flip(h, CastlingKey(c, side)) else h
  }

  /** Iteration i of their loop: the king side, then the queen side, of colour i. */
  function FlipColor(h: Hash, i: int, now: CastlingRights, before: CastlingRights): Hash
    requires 0 <= i < 2
  {
    var c := if i == 0 then White else Black;
    FlipSide(FlipSide(h, c, Castling.King, now[i], before[i]), c, Castling.Queen, now[i], before[i])
  }

  /** The whole loop. */
  function FlipCastling(h: Hash, now: CastlingRights, before: CastlingRights): Hash
  {
    FlipColor(FlipColor(h, 0, now, before), 1, now, before)
  }

  /** The conditional FlipEnPassant(col) of PushEP and PopEP. */
  function FlipEP(h: Hash, col: Column): Hash
  {
    if col != Column.None then Flip(h, EPKey(col)) else h
  }

  /** The castling keys a set of rights calls for: one per (colour, side) held. */
  function RightsKeys(r: CastlingRights): set<ZobristKey>
  {
    (if CastlingAnd(r[0], Castling.King) then {CastlingKey(White, Castling.King)} else {}) +
    (if CastlingAnd(r[0], Castling.Queen) then {CastlingKey(White, Castling.Queen)} else {}) +
    (if CastlingAnd(r[1], Castling.King) then {CastlingKey(Black, Castling.King)} else {}) +
    (if CastlingAnd(r[1], Castling.Queen) then {CastlingKey(Black, Castling.Queen)} else {})
  }

  /** The en-passant keys a column calls for: none for Column::None. */
  function ColumnKeys(col: Column): set<ZobristKey>
  {
    if col != Column.None then {EPKey(col)} else {}
  }

  /** The four castling keys a hash can carry. */
  const AllCastlingKeys: set<ZobristKey> :=
    {CastlingKey(White, Castling.King), CastlingKey(White, Castling.Queen),
     CastlingKey(Black, Castling.King), CastlingKey(Black, Castling.Queen)}

  // ---------------------------------------------------------------------------
  // Properties of the effects

  /** Placing keeps the invariant. */
  lemma PlaceKeepsInvariant(s: BoardState, sq: Sq, t: PieceType, c: Color)
    requires ValidState(s) && t != PieceType.None && c != Color.None
    ensures ValidState(Placed(s, sq, t, c))
  {}

  /** After placing, the square is in the type's, the colour's and the occupied set, the
      square-to-type table names the type, the placement's key has been flipped, and every
      other type's and colour's set is as it was. */
  lemma PlacePutsPiece(s: BoardState, sq: Sq, t: PieceType, c: Color)
    requires ValidState(s) && t != PieceType.None && c != Color.None
    ensures var s' := Placed(s, sq, t, c);
      sq in s'.pieceBB[TypeIndex(t)] && sq in s'.colorBB[ColorIndex(c)] && sq in s'.occupiedBB &&
      s'.pieceBoard[sq] == t && (SquareKey(sq, t, c) in s'.zobrist <==> SquareKey(sq, t, c) !in s.zobrist) &&
      (forall i :: 0 <= i < PieceCount && i != TypeIndex(t) ==> s'.pieceBB[i] == s.pieceBB[i]) &&
      s'.colorBB[1 - ColorIndex(c)] == s.colorBB[1 - ColorIndex(c)]
  {}

  /** Removing keeps the invariant exactly when the square is not held by the other colour
      (the condition under which the source's closing assert holds). */
  lemma RemoveKeepsInvariant(s: BoardState, sq: Sq, t: PieceType, c: Color)
    requires ValidState(s) && t != PieceType.None && c != Color.None
    ensures ValidState(Removed(s, sq, t, c)) <==> sq !in s.colorBB[1 - ColorIndex(c)]
  {
    var s' := Removed(s, sq, t, c);
    if sq in s.colorBB[1 - ColorIndex(c)] {
      assert sq in s'.colorBB[1 - ColorIndex(c)] && sq !in s'.occupiedBB;
    }
  }

  /** Removing a piece just placed on an empty square restores every field, the hash
      included: both flip the same key. */
  lemma RemoveUndoesPlace(s: BoardState, sq: Sq, t: PieceType, c: Color)
    requires ValidState(s) && t != PieceType.None && c != Color.None
    requires sq !in s.occupiedBB && sq !in s.pieceBB[TypeIndex(t)] && s.pieceBoard[sq] == PieceType.None
    ensures ValidState(Placed(s, sq, t, c))
    ensures Removed(Placed(s, sq, t, c), sq, t, c) == s
  {
    var r := Removed(Placed(s, sq, t, c), sq, t, c);
    FlipTwice(s.zobrist, SquareKey(sq, t, c));
    assert r.pieceBB == s.pieceBB;
    assert r.colorBB == s.colorBB;
    assert r.pieceBoard == s.pieceBoard;
  }

  /** Flipping the same key twice restores the hash. */
  lemma FlipTwice(h: Hash, k: ZobristKey)
    ensures Flip(Flip(h, k), k) == h
  {}

  /** A key is in the hash after the castling flips exactly when it was in before or when
      the two sets of rights disagree on it, but not both. */
  lemma FlipCastlingMembers(h: Hash, now: CastlingRights, before: CastlingRights, k: ZobristKey)
    ensures k in FlipCastling(h, now, before) <==> ((k in h) != ((k in RightsKeys(now)) != (k in RightsKeys(before))))
  {}

  /** Pushing the rights already on top flips nothing. */
  lemma PushSameRightsKeepsHash(h: Hash, r: CastlingRights)
    ensures FlipCastling(h, r, r) == h
  {
    forall k ensures k in FlipCastling(h, r, r) <==> k in h {
      FlipCastlingMembers(h, r, r, k);
    }
  }

  /** PopCastling's flips undo the matching PushCastling's: the two loops flip the same keys. */
  lemma PopCastlingUndoesPush(h: Hash, top: CastlingRights, cast: CastlingRights)
    ensures FlipCastling(FlipCastling(h, cast, top), cast, top) == h
  {
    forall k ensures k in FlipCastling(FlipCastling(h, cast, top), cast, top) <==> k in h {
      FlipCastlingMembers(h, cast, top, k);
      FlipCastlingMembers(FlipCastling(h, cast, top), cast, top, k);
    }
  }

  /** If the hash carries exactly the castling keys of the rights on top, it carries exactly
      those of the new rights after the flips. */
  lemma CastlingHashTracksRights(h: Hash, before: CastlingRights, now: CastlingRights)
    requires h * AllCastlingKeys == RightsKeys(before)
    ensures FlipCastling(h, now, before) * AllCastlingKeys == RightsKeys(now)
  {
    forall k ensures k in FlipCastling(h, now, before) * AllCastlingKeys <==> k in RightsKeys(now) {
      FlipCastlingMembers(h, now, before, k);
      assert k in h * AllCastlingKeys <==> k in RightsKeys(before);
    }
  }

  /** The en-passant keys the hash carries are those of the column on top. */
  predicate CarriesColumn(h: Hash, col: Column)
  {
    forall c: Column :: EPKey(c) in h <==> EPKey(c) in ColumnKeys(col)
  }

  /** PushEP's flips move the hash from the old top's key to the new column's, and PopEP's
      flips (the same two, in the other order) bring it back. */
  lemma EPHashTracksTop(h: Hash, top: Column, col: Column)
    requires CarriesColumn(h, top)
    ensures CarriesColumn(FlipEP(FlipEP(h, top), col), col)
    ensures FlipEP(FlipEP(FlipEP(FlipEP(h, top), col), col), top) == h
  {}

  class Board {
    /** The four-argument IsKingSafe(occupancy, enemy, king) is defined in board.cpp, which is
        not part of this model: a parameter of the board. */
    const kingSafety: (BoardState, Squares, Squares, Squares) -> bool
    /** The 64-bit value Zobrist::GetHash reports for the keys carried. */
    const hashValue: Hash -> bv64
    const pieceBB: array<Squares>
    const colorBB: array<Squares>
    var occupiedBB: Squares
    const pieceBoard: array<PieceType>
    var zobrist: Hash
    var turn: Color
    var oppColor: Color
    var ply: int
    var moveCount: nat
    var ep: seq<Column>
    var castling: seq<CastlingRights>

    ghost predicate Valid()
      reads this, pieceBB, colorBB, pieceBoard
    {
      pieceBB != colorBB && ValidState(State())
    }

    /** The fields as a value. */
    function State(): BoardState
      reads this, pieceBB, colorBB, pieceBoard
    {
      BoardState(pieceBB[..], colorBB[..], occupiedBB, pieceBoard[..], zobrist, turn, oppColor, ply, ep, castling)
    }

    /** Board(): empty bitboards, every square None, no turn, and the two stacks holding one
        entry each: Column::None and {None, None}. The Zobrist object starts with no key. */
    constructor(kingSafety: (BoardState, Squares, Squares, Squares) -> bool, hashValue: Hash -> bv64)
      ensures Valid() && fresh(pieceBB) && fresh(colorBB) && fresh(pieceBoard)
      ensures this.kingSafety == kingSafety && this.hashValue == hashValue && moveCount == 0
      ensures State() == BoardState([{}, {}, {}, {}, {}, {}], [{}, {}], {}, seq(64, _ => PieceType.None),
                                    {}, Color.None, Color.None, 0,
                                    [Column.None], [[Castling.None, Castling.None]])
    {
      this.kingSafety := kingSafety;
      this.hashValue := hashValue;
      pieceBB := new Squares[6](_ => {});
      colorBB := new Squares[2](_ => {});
      pieceBoard := new PieceType[64](_ => PieceType.None);
      occupiedBB := {};
      zobrist := {};
      turn := Color.None;
      oppColor := Color.None;
      ply := 0;
      moveCount := 0;
      ep := [Column.None];
      castling := [[Castling.None, Castling.None]];
      new;
      assert pieceBB[..] == [{}, {}, {}, {}, {}, {}];
      assert colorBB[..] == [{}, {}];
    }

    /** GetType(square); the type excludes Square::None, which the source asserts against. */
    function GetType(sq: Sq): (t: PieceType)
      reads this, pieceBB, colorBB, pieceBoard
      requires Valid()
      ensures t == State().pieceBoard[sq]
    {
      pieceBoard[sq]
    }

    /** GetPiecePos(type). */
    function GetPiecePosOfType(t: PieceType): (b: Squares)
      reads this, pieceBB, colorBB, pieceBoard
      requires Valid() && t != PieceType.None
      ensures b == State().pieceBB[TypeIndex(t)]
    {
      pieceBB[TypeIndex(t)]
    }

    /** GetPiecePos(color, type): the squares in both the type's and the colour's set. */
    function GetPiecePos(c: Color, t: PieceType): (b: Squares)
      reads this, pieceBB, colorBB, pieceBoard
      requires Valid() && c != Color.None && t != PieceType.None
      ensures forall sq :: sq in b <==> sq in pieceBB[TypeIndex(t)] && sq in colorBB[ColorIndex(c)]
      ensures b <= occupiedBB
    {
      pieceBB[TypeIndex(t)] * colorBB[ColorIndex(c)]
    }

    /** GetPieceCount(color, type): the popcount of GetPiecePos (PopCountIsSize); zero exactly
        when there is no such piece. */
    function GetPieceCount(c: Color, t: PieceType): (n: nat)
      reads this, pieceBB, colorBB, pieceBoard
      requires Valid() && c != Color.None && t != PieceType.None
      ensures n == 0 <==> GetPiecePos(c, t) == {}
      ensures n <= |occupiedBB|
    {
      SubsetSize(GetPiecePos(c, t), occupiedBB);
      |GetPiecePos(c, t)|
    }

    function GetOccupiedBB(): Squares reads this { occupiedBB }

    function GetColorBB(c: Color): (b: Squares)
      reads this, pieceBB, colorBB, pieceBoard
      requires Valid() && c != Color.None
      ensures b <= occupiedBB
    {
      colorBB[ColorIndex(c)]
    }

    function GetPly(): int reads this { ply }

    /** GetColor(): the side to move. */
    function GetTurn(): Color reads this { turn }

    function GetOppColor(): Color reads this { oppColor }

    function GetHash(): bv64 reads this { hashValue(zobrist) }

    function GetMoveCount(): nat reads this { moveCount }

    method ResetMoveCount()
      requires Valid()
      modifies this
      ensures Valid() && moveCount == 0
      ensures State() == old(State())
    {
      moveCount := 0;
    }

    /** GetEP(): the top of the en-passant stack. */
    function GetEP(): Column
      reads this, pieceBB, colorBB, pieceBoard
      requires Valid()
    {
      ep[|ep| - 1]
    }

    /** IsCastlingAllowed(color, side): the current rights of that colour share a bit with side. */
    function IsCastlingAllowed(c: Color, side: Castling): bool
      reads this, pieceBB, colorBB, pieceBoard
      requires Valid() && c != Color.None
    {
      CastlingAnd(castling[|castling| - 1][ColorIndex(c)], side)
    }

    /** GetColor(sq): White if White holds the square, else Black if Black does, else None;
        None exactly on the unoccupied squares. */
    function GetColorAt(sq: Sq): (c: Color)
      reads this, pieceBB, colorBB, pieceBoard
      requires Valid()
      ensures c == White <==> sq in colorBB[0]
      ensures c == Black <==> sq !in colorBB[0] && sq in colorBB[1]
      ensures c == Color.None <==> sq !in occupiedBB
    {
      if sq in colorBB[0] then White
      else if sq in colorBB[1] then Black
      else Color.None
    }

    /** IsKingSafe(occ, enemy): the side to move's king. */
    function IsKingSafeWithEnemy(occ: Squares, enemy: Squares): (r: bool)
      reads this, pieceBB, colorBB, pieceBoard
      requires Valid() && turn != Color.None
      ensures r == kingSafety(State(), occ, enemy, GetPiecePos(turn, PieceType.King))
    {
      kingSafety(State(), occ, enemy, GetPiecePos(turn, PieceType.King))
    }

    /** IsKingSafe(occ): the opponent's pieces as the enemy. */
    function IsKingSafeWithOccupancy(occ: Squares): (r: bool)
      reads this, pieceBB, colorBB, pieceBoard
      requires Valid() && turn != Color.None && oppColor != Color.None
      ensures r == kingSafety(State(), occ, colorBB[ColorIndex(oppColor)], GetPiecePos(turn, PieceType.King))
    {
      IsKingSafeWithEnemy(occ, GetColorBB(oppColor))
    }

    /** IsKingSafe(): the current occupancy. */
    function IsKingSafe(): (r: bool)
      reads this, pieceBB, colorBB, pieceBoard
      requires Valid() && turn != Color.None && oppColor != Color.None
      ensures r == kingSafety(State(), occupiedBB, colorBB[ColorIndex(oppColor)], GetPiecePos(turn, PieceType.King))
    {
      IsKingSafeWithOccupancy(GetOccupiedBB())
    }

    /** PlacePiece(square, type, color). */
    method PlacePiece(sq: Sq, t: PieceType, c: Color)
      requires Valid() && t != PieceType.None && c != Color.None
      modifies this, pieceBB, colorBB, pieceBoard
      ensures Valid()
      ensures State() == Placed(old(State()), sq, t, c)
    {
      var ti := TypeIndex(t);
      var ci := ColorIndex(c);
      pieceBB[ti] := pieceBB[ti] + {sq};
      colorBB[ci] := colorBB[ci] + {sq};
      occupiedBB := occupiedBB + {sq};
      pieceBoard[sq] := t;
      zobrist := Flip(zobrist, SquareKey(sq, t, c));
    }

    /** PlacePiece(square, pieceChar): through GetPieceType and GetPieceColor, whose
        third-generation copies are taken to be those of classes/utilities.cpp. */
    method PlacePieceChar(sq: Sq, ch: char)
      requires Valid() && ClassesUtilities.GetPieceType(ch) != PieceType.None
      modifies this, pieceBB, colorBB, pieceBoard
      ensures Valid()
      ensures State() == Placed(old(State()), sq, ClassesUtilities.GetPieceType(ch), ClassesUtilities.GetPieceColor(ch))
    {
      PlacePiece(sq, ClassesUtilities.GetPieceType(ch), ClassesUtilities.GetPieceColor(ch));
    }

    /** RemovePiece(square, type, color): flips the square in the three sets; the source's
        closing assert holds exactly when the other colour does not hold the square
        (RemoveKeepsInvariant). */
    method RemovePiece(sq: Sq, t: PieceType, c: Color)
      requires Valid() && t != PieceType.None && c != Color.None
      requires sq !in colorBB[1 - ColorIndex(c)]
      modifies this, pieceBB, colorBB, pieceBoard
      ensures Valid()
      ensures State() == Removed(old(State()), sq, t, c)
    {
      RemoveKeepsInvariant(State(), sq, t, c);
      var ti := TypeIndex(t);
      var ci := ColorIndex(c);
      pieceBB[ti] := Flip(pieceBB[ti], sq);
      colorBB[ci] := Flip(colorBB[ci], sq);
      occupiedBB := Flip(occupiedBB, sq);
      pieceBoard[sq] := PieceType.None;
      zobrist := Flip(zobrist, SquareKey(sq, t, c));
    }
    /** PushCastling(cast): flips one key per (colour, side) whose right differs from the
        current top, then pushes. */
    method PushCastling(cast: CastlingRights)
      requires Valid() && |castling| < MaxPly
      modifies this
      ensures Valid()
      ensures castling == old(castling) + [cast]
      ensures zobrist == FlipCastling(old(zobrist), cast, old(castling[|castling| - 1]))
      ensures State() == old(State()).(zobrist := zobrist, castling := castling)
    {
      var top := castling[|castling| - 1];
      var i := 0;
      while i < 2
        invariant 0 <= i <= 2
        invariant zobrist == if i == 0 then old(zobrist) else if i == 1 then FlipColor(old(zobrist), 0, cast, top)
                             else FlipCastling(old(zobrist), cast, top)
        invariant State() == old(State()).(zobrist := zobrist)
      {
        var c := if i == 0 then White else Black;
        zobrist := FlipSide(zobrist, c, Castling.King, cast[i], top[i]);
        zobrist := FlipSide(zobrist, c, Castling.Queen, cast[i], top[i]);
        i := i + 1;
      }
      castling := castling + [cast];
    }

    /** PopCastling(): pops, then flips one key per (colour, side) that differs between the
        popped rights and the new top. The stack must keep an entry for top() afterwards. */
    method PopCastling()
      requires Valid() && |castling| >= 2
      modifies this
      ensures Valid()
      ensures castling == old(castling[..|castling| - 1])
      ensures zobrist == FlipCastling(old(zobrist), old(castling[|castling| - 1]), castling[|castling| - 1])
      ensures State() == old(State()).(zobrist := zobrist, castling := castling)
    {
      var cast := castling[|castling| - 1];
      castling := castling[..|castling| - 1];
      var top := castling[|castling| - 1];
      var i := 0;
      while i < 2
        invariant 0 <= i <= 2
        invariant zobrist == if i == 0 then old(zobrist) else if i == 1 then FlipColor(old(zobrist), 0, cast, top)
                             else FlipCastling(old(zobrist), cast, top)
        invariant castling == old(castling[..|castling| - 1])
        invariant State() == old(State()).(zobrist := zobrist, castling := castling)
      {
        var c := if i == 0 then White else Black;
        zobrist := FlipSide(zobrist, c, Castling.King, cast[i], top[i]);
        zobrist := FlipSide(zobrist, c, Castling.Queen, cast[i], top[i]);
        i := i + 1;
      }
    }

    /** PushEP(col): flips the old top's key and the new column's, then pushes. */
    method PushEP(col: Column)
      requires Valid() && |ep| < MaxPly
      modifies this
      ensures Valid()
      ensures ep == old(ep) + [col]
      ensures zobrist == FlipEP(FlipEP(old(zobrist), old(ep[|ep| - 1])), col)
      ensures State() == old(State()).(zobrist := zobrist, ep := ep)
    {
      zobrist := FlipEP(zobrist, ep[|ep| - 1]);
      zobrist := FlipEP(zobrist, col);
      ep := ep + [col];
    }

    /** PopEP(): flips the top's key, pops, flips the new top's key. */
    method PopEP()
      requires Valid() && |ep| >= 2
      modifies this
      ensures Valid()
      ensures ep == old(ep[..|ep| - 1])
      ensures zobrist == FlipEP(FlipEP(old(zobrist), old(ep[|ep| - 1])), ep[|ep| - 1])
      ensures State() == old(State()).(zobrist := zobrist, ep := ep)
    {
      zobrist := FlipEP(zobrist, ep[|ep| - 1]);
      ep := ep[..|ep| - 1];
      zobrist := FlipEP(zobrist, ep[|ep| - 1]);
    }

    /** SetTurn(color). */
    method SetTurn(c: Color)
      requires Valid()
      modifies this
      ensures Valid()
      ensures turn == c && oppColor == Opposite(c)
      ensures State() == old(State()).(turn := turn, oppColor := oppColor)
    {
      turn := c;
      oppColor := Opposite(c);
    }

    /** SwitchTurn(). */
    method SwitchTurn()
      requires Valid()
      modifies this
      ensures Valid()
      ensures turn == Opposite(old(turn)) && oppColor == Opposite(turn)
      ensures State() == old(State()).(turn := turn, oppColor := oppColor)
    {
      turn := Opposite(turn);
      oppColor := Opposite(turn);
    }
  }

  /** A subset is no larger. */
  lemma SubsetSize(a: Squares, b: Squares)
    requires a <= b
    ensures |a| <= |b|
  {
    if a != {} {
      var x :| x in a;
      SubsetSize(a - {x}, b - {x});
    }
  }
}
