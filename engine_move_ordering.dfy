/** engine/src/move_ordering.cpp: the engine's move ordering. A MoveList is a fixed-capacity
    buffer of moves whose first `size` slots hold the list and whose first `attacks` slots
    hold the captures. MVVLVA sorts the capture prefix in place; TTPrioity and PVPrioity move
    one move to the front with two overlapping memmoves and a slot write. Each operation is a
    method proved equal to a function of the old contents, and the properties of the
    ordering (a permutation, the chosen move first) are lemmas about those functions. */
module EngineMoveOrdering {
  import opened ChessConstants
  import opened ChessMoveGen

  /** The list the generator fills: `buf[..size]` are the moves, `buf[..attacks]` the captures.
      A full list fills the whole buffer. */
  class MoveList {
    var buf: array<Move>
    var size: nat
    var attacks: nat

    ghost predicate Valid()
      reads this
    {
      attacks <= size <= buf.Length
    }
  }

  /** Move::GetValue() == 0: the all-zero move, the engine's "no move". */
  predicate IsNull(m: Move)
  {
    m == Move(MoveType.Quiet, 0, 0)
  }

  // ---------------------------------------------------------------------------
  // MVVLVA: most valuable victim, least valuable attacker

  /** Position::GetType(square) for a table of the 64 squares; an off-board square holds None. */
  function TypeOn(types: seq<PieceType>, sq: bv8): PieceType
  {
    if sq as int < |types| then types[sq as int] else PieceType.None
  }

  /** The comparator of MVVLVA: a greater captured type first, then a lesser moving type. */
  predicate Before(types: seq<PieceType>, lhs: Move, rhs: Move)
  {
    var leftCapture := TypeIndex(TypeOn(types, lhs.to));
    var rightCapture := TypeIndex(TypeOn(types, rhs.to));
    var leftPiece := TypeIndex(TypeOn(types, lhs.from));
    var rightPiece := TypeIndex(TypeOn(types, rhs.from));
    leftCapture > rightCapture || (leftCapture == rightCapture && leftPiece < rightPiece)
  }

  /** The comparator as one number: captured type in the high digit, 7 - mover in the low. */
  function Key(types: seq<PieceType>, m: Move): (k: int)
    ensures 1 <= k <= 55
  {
    8 * TypeIndex(TypeOn(types, m.to)) + 7 - TypeIndex(TypeOn(types, m.from))
  }

  /** The comparator orders moves exactly as their keys do, descending; so it is a strict
      weak order, which std::sort requires. */
  lemma BeforeIsKeyOrder(types: seq<PieceType>, a: Move, b: Move)
    ensures Before(types, a, b) <==> Key(types, a) > Key(types, b)
  {
    var ac, bc := TypeIndex(TypeOn(types, a.to)), TypeIndex(TypeOn(types, b.to));
    var ap, bp := TypeIndex(TypeOn(types, a.from)), TypeIndex(TypeOn(types, b.from));
    if ac > bc {
      assert 8 * ac >= 8 * bc + 8;
    } else if ac < bc {
      assert 8 * bc >= 8 * ac + 8;
    }
  }

  /** No move of `s` is placed after one the comparator puts behind it. */
  ghost predicate Ordered(types: seq<PieceType>, s: seq<Move>)
  {
    forall i, j :: 0 <= i < j < |s| ==> !Before(types, s[j], s[i])
  }

  /** The keys of `s` never increase. */
  ghost predicate KeysDescend(types: seq<PieceType>, s: seq<Move>)
  {
    forall i, j :: 0 <= i < j < |s| ==> Key(types, s[i]) >= Key(types, s[j])
  }

  /** `x` put into the descending `s` before the first move of a lower key. */
  function Insert(types: seq<PieceType>, x: Move, s: seq<Move>): (r: seq<Move>)
    ensures |r| == |s| + 1
  {
    if s == [] || Key(types, x) >= Key(types, s[0]) then [x] + s
    else [s[0]] + Insert(types, x, s[1..])
  }

  /** std::sort over [begin, begin + attacks) with the MVVLVA comparator, as an insertion
      sort (which of two equally ranked moves comes first is std::sort's choice). */
  function SortCaptures(types: seq<PieceType>, s: seq<Move>): (r: seq<Move>)
    ensures |r| == |s|
  {
    if s == [] then [] else Insert(types, s[0], SortCaptures(types, s[1..]))
  }

  lemma {:induction false} InsertPermutes(types: seq<PieceType>, x: Move, s: seq<Move>)
    ensures multiset(Insert(types, x, s)) == multiset(s) + multiset{x}
  {
    if s != [] && Key(types, x) < Key(types, s[0]) {
      InsertPermutes(types, x, s[1..]);
      assert s == [s[0]] + s[1..];
    }
  }

  lemma {:induction false} InsertDescends(types: seq<PieceType>, x: Move, s: seq<Move>)
    requires KeysDescend(types, s)
    ensures KeysDescend(types, Insert(types, x, s))
  {
    if s != [] && Key(types, x) < Key(types, s[0]) {
      InsertDescends(types, x, s[1..]);
      InsertPermutes(types, x, s[1..]);
      var r := Insert(types, x, s);
      forall i, j | 0 <= i < j < |r|
        ensures Key(types, r[i]) >= Key(types, r[j])
      {
        if i == 0 {
          assert r[j] in multiset(Insert(types, x, s[1..]));
          assert r[j] == x || r[j] in multiset(s[1..]);
          if r[j] != x {
            var k :| 0 <= k < |s[1..]| && s[1..][k] == r[j];
            assert s[k + 1] == r[j];
          }
        }
      }
    }
  }

  /** std::sort's promise: the capture prefix is rearranged, not changed, and comes out in
      comparator order. */
  lemma {:induction false} SortCapturesSorts(types: seq<PieceType>, s: seq<Move>)
    ensures multiset(SortCaptures(types, s)) == multiset(s)
    ensures Ordered(types, SortCaptures(types, s))
  {
    if s == [] {
    } else {
      SortCapturesSorts(types, s[1..]);
      SortDescends(types, s[1..]);
      InsertPermutes(types, s[0], SortCaptures(types, s[1..]));
      InsertDescends(types, s[0], SortCaptures(types, s[1..]));
      assert s == [s[0]] + s[1..];
      var r := SortCaptures(types, s);
      forall i, j | 0 <= i < j < |r|
        ensures !Before(types, r[j], r[i])
      {
        BeforeIsKeyOrder(types, r[j], r[i]);
      }
    }
  }

  lemma {:induction false} SortDescends(types: seq<PieceType>, s: seq<Move>)
    ensures KeysDescend(types, SortCaptures(types, s))
  {
    if s != [] {
      SortDescends(types, s[1..]);
      InsertDescends(types, s[0], SortCaptures(types, s[1..]));
    }
  }

  /** MVVLVA: the capture prefix is sorted in place; the quiet moves after it are untouched. */
  method MVVLVA(types: seq<PieceType>, moves: MoveList)
    requires moves.Valid()
    modifies moves.buf
    ensures moves.buf[..moves.attacks] == SortCaptures(types, old(moves.buf[..moves.attacks]))
    ensures moves.buf[moves.attacks..] == old(moves.buf[moves.attacks..])
  {
    var sorted := SortCaptures(types, moves.buf[..moves.attacks]);
    forall i | 0 <= i < moves.attacks {
      moves.buf[i] := sorted[i];
    }
  }

  // ---------------------------------------------------------------------------
  // Move to front

  /** std::memmove(&a[dst], &a[src], n * sizeof(Move)): the n moves at src, as they were
      before the call, now also stand at dst; the ranges may overlap. */
  method Memmove(a: array<Move>, dst: nat, src: nat, n: nat)
    requires dst + n <= a.Length && src + n <= a.Length
    modifies a
    ensures a[..] == old(a[..dst]) + old(a[src..src + n]) + old(a[dst + n..])
  {
    forall k | dst <= k < dst + n {
      a[k] := a[k - dst + src];
    }
  }

  /** The index of the first occurrence of m. */
  function FirstIndex(s: seq<Move>, m: Move): (i: nat)
    requires m in s
    ensures i < |s| && s[i] == m && m !in s[..i]
  {
    if s[0] == m then 0 else FirstIndex(s[1..], m) + 1
  }

  /** The list after its first occurrence of m is taken out and put at the front; a list
      without m is left as it is. */
  function MoveToFront(s: seq<Move>, m: Move): (r: seq<Move>)
    ensures |r| == |s|
  {
    if m in s then
      var i := FirstIndex(s, m);
      [m] + s[..i] + s[i + 1..]
    else s
  }

  /** No move is dropped or duplicated. */
  lemma MoveToFrontPermutes(s: seq<Move>, m: Move)
    ensures multiset(MoveToFront(s, m)) == multiset(s)
  {
    if m in s {
      var i := FirstIndex(s, m);
      assert s == s[..i] + [m] + s[i + 1..];
    }
  }

  /** A present move ends at index 0, the moves before it move up one place, those after it
      keep their places; an absent move changes nothing. */
  lemma MoveToFrontPlaces(s: seq<Move>, m: Move)
    ensures |MoveToFront(s, m)| == |s|
    ensures m in s ==> MoveToFront(s, m)[0] == m
    ensures m in s ==> forall j :: 0 <= j < FirstIndex(s, m) ==> MoveToFront(s, m)[j + 1] == s[j]
    ensures m in s ==> forall j :: FirstIndex(s, m) < j < |s| ==> MoveToFront(s, m)[j] == s[j]
    ensures m !in s ==> MoveToFront(s, m) == s
  {
    if m in s {
      var i := FirstIndex(s, m);
      var r := MoveToFront(s, m);
      assert r == [m] + s[..i] + s[i + 1..];
      forall j | 0 <= j < i
        ensures r[j + 1] == s[j]
      {
        assert r[j + 1] == s[..i][j];
      }
      forall j | i < j < |s|
        ensures r[j] == s[j]
      {
        assert r[j] == s[i + 1..][j - i - 1];
      }
    }
  }

  /** Moving the same move to the front twice is moving it once. */
  lemma MoveToFrontIdempotent(s: seq<Move>, m: Move)
    ensures MoveToFront(MoveToFront(s, m), m) == MoveToFront(s, m)
  {
    if m in s {
      var r := MoveToFront(s, m);
      assert r[0] == m;
      assert FirstIndex(r, m) == 0;
      assert r[1..] == s[..FirstIndex(s, m)] + s[FirstIndex(s, m) + 1..];
    }
  }

  /** The two memmoves and the slot write of a found move, as a state of the buffer, where
      the first memmove copied `n` moves: the size - i the source copies, reading the slot just
      past the list, or the size - i - 1 that stay inside it. */
  lemma FrontShape(b0: seq<Move>, b1: seq<Move>, b2: seq<Move>, size: nat, i: nat, n: nat, m: Move)
    requires i < size <= |b0| && b0[i] == m && m !in b0[..i]
    requires n == size - i || n == size - i - 1
    requires i + 1 + n <= |b0|
    requires b1 == b0[..i] + b0[i + 1..i + 1 + n] + b0[i + n..]
    requires b2 == b1[..1] + b1[..size - 1] + b1[size..]
    ensures b2[0 := m][..size] == MoveToFront(b0[..size], m)
    ensures b2[0 := m][size..] == b0[size..]
  {
    var s := b0[..size];
    assert s[i] == m && s[..i] == b0[..i];
    assert FirstIndex(s, m) == i;
    assert b1[..size - 1] == b0[..i] + b0[i + 1..size];
    assert b2[0 := m][..size] == [m] + b1[..size - 1];
    assert b1[size..] == b0[size..];
  }

  /** The loop of TTPrioity and PVPrioity as written: find the move, and if it is there,
      memmove the size - i moves from slot i + 1 down one slot, which reads slot `size`, one
      past the list; then shift the moves before it up one slot and write it at slot 0. The
      read needs a slot past the list, so a full list is excluded; `readsPastList` reports the
      read, which happens exactly when the move is found. */
  method MoveToFrontOfAsWritten(m: Move, moves: MoveList) returns (readsPastList: bool)
    requires moves.Valid() && moves.size < moves.buf.Length
    modifies moves.buf
    ensures readsPastList <==> m in old(moves.buf[..moves.size])
    ensures moves.buf[..moves.size] == MoveToFront(old(moves.buf[..moves.size]), m)
    ensures moves.buf[moves.size..] == old(moves.buf[moves.size..])
  {
    var i := 0;
    while i < moves.size
      invariant 0 <= i <= moves.size
      invariant m !in moves.buf[..i]
      invariant moves.buf[..] == old(moves.buf[..])
    {
      if moves.buf[i] == m {
        ghost var b0 := moves.buf[..];
        Memmove(moves.buf, i, i + 1, moves.size - i);
        ghost var b1 := moves.buf[..];
        Memmove(moves.buf, 1, 0, moves.size - 1);
        ghost var b2 := moves.buf[..];
        moves.buf[0] := m;
        assert moves.buf[..] == b2[0 := m];
        FrontShape(b0, b1, b2, moves.size, i, moves.size - i, m);
        assert b0[..moves.size] == old(moves.buf[..moves.size]);
        assert b0[..moves.size][i] == m;
        return true;
      }
      assert moves.buf[..i + 1] == moves.buf[..i] + [moves.buf[i]];
      i := i + 1;
    }
    assert moves.buf[..moves.size] == moves.buf[..i];
    return false;
  }

  /** The loop of TTPrioity and PVPrioity with the first memmove copying the size - i - 1
      moves after the found one, so that nothing past the list is read and a full list is
      handled as well. */
  method MoveToFrontOf(m: Move, moves: MoveList)
    requires moves.Valid()
    modifies moves.buf
    ensures moves.buf[..moves.size] == MoveToFront(old(moves.buf[..moves.size]), m)
    ensures moves.buf[moves.size..] == old(moves.buf[moves.size..])
  {
    var i := 0;
    while i < moves.size
      invariant 0 <= i <= moves.size
      invariant m !in moves.buf[..i]
      invariant moves.buf[..] == old(moves.buf[..])
    {
      if moves.buf[i] == m {
        ghost var b0 := moves.buf[..];
        Memmove(moves.buf, i, i + 1, moves.size - i - 1);
        ghost var b1 := moves.buf[..];
        Memmove(moves.buf, 1, 0, moves.size - 1);
        ghost var b2 := moves.buf[..];
        moves.buf[0] := m;
        assert moves.buf[..] == b2[0 := m];
        FrontShape(b0, b1, b2, moves.size, i, moves.size - i - 1, m);
        assert b0[..moves.size] == old(moves.buf[..moves.size]);
        return;
      }
      assert moves.buf[..i + 1] == moves.buf[..i] + [moves.buf[i]];
      i := i + 1;
    }
    assert moves.buf[..moves.size] == moves.buf[..i];
  }

  /** TTPrioity: the null move leaves the list alone; any other move is moved to the front. */
  method TTPrioity(m: Move, moves: MoveList)
    requires moves.Valid()
    modifies moves.buf
    ensures moves.buf[..moves.size] ==
      (if IsNull(m) then old(moves.buf[..moves.size]) else MoveToFront(old(moves.buf[..moves.size]), m))
    ensures moves.buf[moves.size..] == old(moves.buf[moves.size..])
  {
    if IsNull(m) {
      return;
    }
    MoveToFrontOf(m, moves);
  }

  // ---------------------------------------------------------------------------
  // PVPrioity

  /** The principal variation: its moves from the ply it was found at. */
  datatype PV = PV(moves: seq<Move>, ply: nat)

  /** size_t pvIndex = board.Ply() - pv.ply: an unsigned difference, wrapping below zero. */
  function PvIndex(ply: nat, pv: PV): (i: nat)
    ensures i < 0x1_0000_0000_0000_0000
    ensures pv.ply <= ply < 0x1_0000_0000_0000_0000 ==> i == ply - pv.ply
  {
    (ply - pv.ply) % 0x1_0000_0000_0000_0000
  }

  /** The guard of PVPrioity as written: go on unless pvIndex > size or the PV is empty. */
  predicate ProceedsAsWritten(pvIndex: nat, pv: PV)
  {
    !(pvIndex > |pv.moves| || |pv.moves| == 0)
  }

  /** The guard as written lets through exactly one index the PV does not hold: pvIndex ==
      size of a non-empty PV, where pv.moves[pvIndex] is one past the last move. */
  lemma ProceedsAsWrittenPastEnd(pvIndex: nat, pv: PV)
    ensures (ProceedsAsWritten(pvIndex, pv) && !(pvIndex < |pv.moves|)) <==> 0 < |pv.moves| == pvIndex
  {
  }

  /** The guard as intended: go on only when pv.moves[pvIndex] is a move of the PV. */
  predicate Proceeds(pvIndex: nat, pv: PV)
  {
    !(pvIndex >= |pv.moves| || |pv.moves| == 0)
  }

  /** The intended guard admits exactly the indices the PV holds, one fewer than as written. */
  lemma ProceedsIsInRange(pvIndex: nat, pv: PV)
    ensures Proceeds(pvIndex, pv) <==> pvIndex < |pv.moves|
    ensures Proceeds(pvIndex, pv) <==> ProceedsAsWritten(pvIndex, pv) && pvIndex != |pv.moves|
  {
  }

  /** The move PVPrioity looks for, when its guard lets it through. */
  function PvMove(ply: nat, pv: PV): (m: Move)
    requires Proceeds(PvIndex(ply, pv), pv)
    ensures m in pv.moves
  {
    pv.moves[PvIndex(ply, pv)]
  }

  /** PVPrioity with the corrected guard: the PV's move for this ply is moved to the front. */
  method PVPrioity(ply: nat, pv: PV, moves: MoveList)
    requires moves.Valid()
    modifies moves.buf
    ensures moves.buf[..moves.size] ==
      (if Proceeds(PvIndex(ply, pv), pv) then MoveToFront(old(moves.buf[..moves.size]), PvMove(ply, pv))
       else old(moves.buf[..moves.size]))
    ensures moves.buf[moves.size..] == old(moves.buf[moves.size..])
  {
    var pvIndex := PvIndex(ply, pv);
    if pvIndex >= |pv.moves| || |pv.moves| == 0 {
      return;
    }
    var pvMove := pv.moves[pvIndex];
    MoveToFrontOf(pvMove, moves);
  }

  /** PVPrioity with the guard as written. When the guard lets pvIndex == size through, the
      read of pv.moves[pvIndex] is out of range: `outOfRange` reports it, and since the move
      read there is unknown the list is left as it is. Otherwise it is the corrected PVPrioity. */
  method PVPrioityAsWritten(ply: nat, pv: PV, moves: MoveList) returns (outOfRange: bool)
    requires moves.Valid()
    modifies moves.buf
    ensures outOfRange <==> 0 < |pv.moves| == PvIndex(ply, pv)
    ensures moves.buf[..moves.size] ==
      (if Proceeds(PvIndex(ply, pv), pv) then MoveToFront(old(moves.buf[..moves.size]), PvMove(ply, pv))
       else old(moves.buf[..moves.size]))
    ensures moves.buf[moves.size..] == old(moves.buf[moves.size..])
  {
    outOfRange := false;
    var pvIndex := PvIndex(ply, pv);
    if pvIndex > |pv.moves| || |pv.moves| == 0 {
      return;
    }
    if pvIndex == |pv.moves| {
      outOfRange := true;
      return;
    }
    var pvMove := pv.moves[pvIndex];
    MoveToFrontOf(pvMove, moves);
  }

  // ---------------------------------------------------------------------------
  // All

  /** The list after MVVLVA, TTPrioity and PVPrioity, as a function of the list before. */
  function Ordering(types: seq<PieceType>, ply: nat, tt: Move, pv: PV, s: seq<Move>, attacks: nat): (r: seq<Move>)
    requires attacks <= |s|
    ensures |r| == |s|
  {
    var sorted := SortCaptures(types, s[..attacks]) + s[attacks..];
    var afterTT := if IsNull(tt) then sorted else MoveToFront(sorted, tt);
    if Proceeds(PvIndex(ply, pv), pv) then MoveToFront(afterTT, PvMove(ply, pv)) else afterTT
  }

  /** All: the three orderings in turn. */
  method All(types: seq<PieceType>, ply: nat, tt: Move, pv: PV, moves: MoveList)
    requires moves.Valid()
    modifies moves.buf
    ensures moves.buf[..moves.size] ==
      Ordering(types, ply, tt, pv, old(moves.buf[..moves.size]), moves.attacks)
    ensures moves.buf[moves.size..] == old(moves.buf[moves.size..])
  {
    ghost var s := moves.buf[..moves.size];
    MVVLVA(types, moves);
    ghost var b := moves.buf[..];
    assert b[..moves.size] == SortCaptures(types, s[..moves.attacks]) + s[moves.attacks..] by {
      assert old(moves.buf[..moves.attacks]) == s[..moves.attacks];
      assert b[..moves.size] == b[..moves.attacks] + b[moves.attacks..moves.size];
    }
    TTPrioity(tt, moves);
    PVPrioity(ply, pv, moves);
  }

  /** All rearranges the list: no move is dropped or duplicated. */
  lemma OrderingPermutes(types: seq<PieceType>, ply: nat, tt: Move, pv: PV, s: seq<Move>, attacks: nat)
    requires attacks <= |s|
    ensures multiset(Ordering(types, ply, tt, pv, s, attacks)) == multiset(s)
  {
    SortCapturesSorts(types, s[..attacks]);
    assert s == s[..attacks] + s[attacks..];
    var sorted := SortCaptures(types, s[..attacks]) + s[attacks..];
    MoveToFrontPermutes(sorted, tt);
    var afterTT := if IsNull(tt) then sorted else MoveToFront(sorted, tt);
    if Proceeds(PvIndex(ply, pv), pv) {
      MoveToFrontPermutes(afterTT, PvMove(ply, pv));
    }
  }

  /** A PV move present in the list ends at index 0; with no PV move, a present TT move does. */
  lemma OrderingFront(types: seq<PieceType>, ply: nat, tt: Move, pv: PV, s: seq<Move>, attacks: nat)
    requires attacks <= |s|
    ensures Proceeds(PvIndex(ply, pv), pv) && PvMove(ply, pv) in s ==>
              Ordering(types, ply, tt, pv, s, attacks)[0] == PvMove(ply, pv)
    ensures !Proceeds(PvIndex(ply, pv), pv) && !IsNull(tt) && tt in s ==>
              Ordering(types, ply, tt, pv, s, attacks)[0] == tt
  {
    OrderingPermutes(types, ply, tt, pv, s, attacks);
    SortCapturesSorts(types, s[..attacks]);
    assert s == s[..attacks] + s[attacks..];
    var sorted := SortCaptures(types, s[..attacks]) + s[attacks..];
    assert multiset(sorted) == multiset(s);
    MoveToFrontPermutes(sorted, tt);
    var afterTT := if IsNull(tt) then sorted else MoveToFront(sorted, tt);
    assert multiset(afterTT) == multiset(s);
    if Proceeds(PvIndex(ply, pv), pv) && PvMove(ply, pv) in s {
      assert PvMove(ply, pv) in multiset(afterTT);
      MoveToFrontPlaces(afterTT, PvMove(ply, pv));
    }
    if !Proceeds(PvIndex(ply, pv), pv) && !IsNull(tt) && tt in s {
      assert tt in multiset(sorted);
      MoveToFrontPlaces(sorted, tt);
    }
  }
}
