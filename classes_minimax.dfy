/** classes/minimax.cpp: the first engine's MiniMax player. It runs a fail-hard negamax
    over reordered moves with a capture-only quiescence search beneath it. A root search
    scores every root move with the full window, and GetBestMove deepens from depth 1
    while a timing rule on the last two iterations allows it. As in the other search
    generations, the board is a node of an abstract game tree (Game). DoMove is the step
    to a child and UndoMove the step back. GetAllMoves, ReOrderMoves (a permutation),
    Move::IsCapture, IsKingSafe, IsThreefoldRep, Evaluate and MoveVals::Sort (a
    permutation that orders the scores from highest to lowest) are fields of Game.
    EvaluateNoMoves is the one of src/headers/evaluator.hh, whose two-argument form this
    file calls. The clock is an oracle giving each iteration's time by its working depth.

    As written, Quiesce stands pat before it looks for a checkmate, a stalemate or a
    repetition (QuiesceAsWritten). The search here uses the corrected order (Quiesce),
    which agrees with the full-width reference value (QValue) through its window.
    StandPatHidesMate exhibits a position where the two differ. */
module ClassesMiniMax {
  import opened SearchWindow
  import SrcEvaluator

  /** A position of the game tree. */
  type Node = nat

  /** A move by its packed value. */
  datatype Move = Move(value: nat)

  /** Move(0), the null move, which a MoveVals slot holds before any move is written. */
  const NullMove: Move := Move(0)

  /** One root move and its score. */
  datatype Scored = Scored(move: Move, score: int)

  /** MoveVals: the root moves with their scores and their count, -1 until the root moves
      are generated. */
  datatype MoveVals = MoveVals(entries: seq<Scored>, moveCount: int)

  /** The projected time, in milliseconds, past which GetBestMove stops deepening. */
  const TimeLimit: nat := 5000

  /** 2^64: U64 arithmetic wraps modulo this. */
  const U64Modulus: nat := 0x1_0000_0000_0000_0000

  /** The game as the search sees it. moves is GetAllMoves for the side to move, reorder is
      ReOrderMoves, isCapture is Move::IsCapture, kingSafe is IsKingSafe(board), inf is
      PieceValue::Inf, sort is MoveVals::Sort, and rank is a measure that every move lowers
      (the tree is finite). */
  datatype Game = Game(
    moves: Node -> seq<Move>,
    reorder: (Node, seq<Move>) -> seq<Move>,
    play: (Node, Move) -> Node,
    isCapture: Move -> bool,
    kingSafe: Node -> bool,
    repetition: Node -> bool,
    eval: Node -> int,
    inf: int,
    sort: seq<Scored> -> seq<Scored>,
    rank: Node -> nat)

  /** Every move leads to a lower-ranked position. */
  ghost predicate ValidGame(g: Game)
  {
    forall n: Node, m: Move :: m in g.moves(n) ==> g.rank(g.play(n, m)) < g.rank(n)
  }

  /** ReOrderMoves keeps the moves it is given. */
  ghost predicate Permutes(g: Game)
  {
    forall n: Node, s: seq<Move> :: multiset(g.reorder(n, s)) == multiset(s)
  }

  /** Scores from highest to lowest. */
  predicate Descending(s: seq<Scored>)
  {
    forall i, j :: 0 <= i < j < |s| ==> s[i].score >= s[j].score
  }

  /** MoveVals::Sort keeps the entries and puts the highest score first. */
  ghost predicate Sorts(g: Game)
  {
    forall s: seq<Scored> :: multiset(g.sort(s)) == multiset(s) && Descending(g.sort(s))
  }

  /** Inf is positive and the evaluation never leaves [-Inf, Inf]. */
  ghost predicate Bounded(g: Game)
  {
    g.inf > 0 && forall n: Node :: -g.inf <= g.eval(n) <= g.inf
  }

  /** Every move of ms is a move of n. */
  ghost predicate MovesOf(g: Game, n: Node, ms: seq<Move>)
  {
    forall m: Move :: m in ms ==> m in g.moves(n)
  }

  /** EvaluateNoMoves(board, isKingSafe) with this game's Inf. */
  function NoMoves(g: Game, isKingSafe: bool): int
  {
    SrcEvaluator.EvaluateNoMoves(isKingSafe, g.inf)
  }

  /** The moves of n in the order ReOrderMoves gives them. */
  function Ordered(g: Game, n: Node): seq<Move>
  {
    g.reorder(n, g.moves(n))
  }

  /** ReOrderMoves neither adds nor drops a move. */
  lemma OrderedPermutes(g: Game, n: Node)
    requires Permutes(g)
    ensures |Ordered(g, n)| == |g.moves(n)|
    ensures MovesOf(g, n, Ordered(g, n))
    ensures forall m: Move :: m in g.moves(n) ==> m in Ordered(g, n)
  {
    var r := Ordered(g, n);
    assert multiset(r) == multiset(g.moves(n));
    assert forall m: Move :: m in r ==> m in multiset(g.moves(n));
    assert forall m: Move :: m in g.moves(n) ==> m in multiset(r);
  }

  // ---------------------------------------------------------------------------
  // Reference values

  /** The quiescence value with the terminal tests first: EvaluateNoMoves with no moves, a
      draw on repetition, and otherwise the best of standing pat and the negated quiescence
      values after the captures. A quiet move contributes the stand-pat score, which is what
      skipping it leaves. */
  ghost function QValue(g: Game, n: Node): int
    requires ValidGame(g)
    decreases g.rank(n), 1
  {
    if g.moves(n) == [] then NoMoves(g, g.kingSafe(n))
    else if g.repetition(n) then 0
    else MaxFrom(g.eval(n), QChildren(g, n, g.moves(n)))
  }

  ghost function QChildren(g: Game, n: Node, ms: seq<Move>): (r: seq<int>)
    requires ValidGame(g) && MovesOf(g, n, ms)
    ensures |r| == |ms|
    decreases g.rank(n), 0, |ms|
  {
    if ms == [] then []
    else [if g.isCapture(ms[0]) then -QValue(g, g.play(n, ms[0])) else g.eval(n)] + QChildren(g, n, ms[1..])
  }

  /** The negamax value to depth: quiescence at depth 0; with no moves, EvaluateNoMoves of
      whether the king is safe; a repetition is a draw; otherwise the best negated child
      value one ply shallower. */
  ghost function Value(g: Game, n: Node, depth: int): int
    requires ValidGame(g)
    decreases g.rank(n), 2
  {
    if depth == 0 then QValue(g, n)
    else if g.moves(n) == [] then NoMoves(g, g.kingSafe(n))
    else if g.repetition(n) then 0
    else Top(Children(g, n, g.moves(n), depth - 1))
  }

  ghost function Children(g: Game, n: Node, ms: seq<Move>, d: int): (r: seq<int>)
    requires ValidGame(g) && MovesOf(g, n, ms)
    ensures |r| == |ms|
    decreases g.rank(n), 1, |ms|
  {
    if ms == [] then [] else [-Value(g, g.play(n, ms[0]), d)] + Children(g, n, ms[1..], d)
  }

  lemma {:induction false} QChildrenAt(g: Game, n: Node, ms: seq<Move>, i: nat)
    requires ValidGame(g) && MovesOf(g, n, ms) && i < |ms|
    ensures QChildren(g, n, ms)[i] ==
              if g.isCapture(ms[i]) then -QValue(g, g.play(n, ms[i])) else g.eval(n)
    decreases |ms|
  {
    if i > 0 {
      QChildrenAt(g, n, ms[1..], i - 1);
    }
  }

  lemma {:induction false} ChildrenAt(g: Game, n: Node, ms: seq<Move>, d: int, i: nat)
    requires ValidGame(g) && MovesOf(g, n, ms) && i < |ms|
    ensures Children(g, n, ms, d)[i] == -Value(g, g.play(n, ms[i]), d)
    decreases |ms|
  {
    if i > 0 {
      ChildrenAt(g, n, ms[1..], d, i - 1);
    }
  }

  /** Reordering the moves does not change which quiescence values occur. */
  lemma QChildrenReordered(g: Game, n: Node, a: seq<Move>, b: seq<Move>)
    requires ValidGame(g) && MovesOf(g, n, a) && MovesOf(g, n, b)
    requires forall m: Move :: m in a ==> m in b
    ensures forall x :: x in QChildren(g, n, a) ==> x in QChildren(g, n, b)
  {
    forall x | x in QChildren(g, n, a)
      ensures x in QChildren(g, n, b)
    {
      var i :| 0 <= i < |a| && QChildren(g, n, a)[i] == x;
      assert a[i] in a;
      var j :| 0 <= j < |b| && b[j] == a[i];
      QChildrenAt(g, n, a, i);
      QChildrenAt(g, n, b, j);
    }
  }

  /** Reordering the moves does not change which values occur. */
  lemma ChildrenReordered(g: Game, n: Node, a: seq<Move>, b: seq<Move>, d: int)
    requires ValidGame(g) && MovesOf(g, n, a) && MovesOf(g, n, b)
    requires forall m: Move :: m in a ==> m in b
    ensures forall x :: x in Children(g, n, a, d) ==> x in Children(g, n, b, d)
  {
    forall x | x in Children(g, n, a, d)
      ensures x in Children(g, n, b, d)
    {
      var i :| 0 <= i < |a| && Children(g, n, a, d)[i] == x;
      assert a[i] in a;
      var j :| 0 <= j < |b| && b[j] == a[i];
      ChildrenAt(g, n, a, d, i);
      ChildrenAt(g, n, b, d, j);
    }
  }

  /** With the evaluation inside [-Inf, Inf], so is every quiescence value. */
  lemma {:induction false} QValueBounded(g: Game, n: Node)
    requires ValidGame(g) && Bounded(g)
    ensures -g.inf <= QValue(g, n) <= g.inf
    decreases g.rank(n), 1
  {
    if g.moves(n) != [] && !g.repetition(n) {
      QChildrenBounded(g, n, g.moves(n));
      MaxFromBounds(g.eval(n), QChildren(g, n, g.moves(n)));
    }
  }

  lemma {:induction false} QChildrenBounded(g: Game, n: Node, ms: seq<Move>)
    requires ValidGame(g) && Bounded(g) && MovesOf(g, n, ms)
    ensures forall x :: x in QChildren(g, n, ms) ==> -g.inf <= x <= g.inf
    decreases g.rank(n), 0, |ms|
  {
    if ms != [] {
      if g.isCapture(ms[0]) {
        QValueBounded(g, g.play(n, ms[0]));
      }
      QChildrenBounded(g, n, ms[1..]);
    }
  }

  /** With the evaluation inside [-Inf, Inf], so is every negamax value. */
  lemma {:induction false} ValueBounded(g: Game, n: Node, depth: int)
    requires ValidGame(g) && Bounded(g)
    ensures -g.inf <= Value(g, n, depth) <= g.inf
    decreases g.rank(n), 2
  {
    if depth == 0 {
      QValueBounded(g, n);
    } else if g.moves(n) != [] && !g.repetition(n) {
      var cs := Children(g, n, g.moves(n), depth - 1);
      ChildrenBounded(g, n, g.moves(n), depth - 1);
      MaxFromBounds(cs[0], cs[1..]);
      assert cs[0] in cs;
      assert forall x :: x in cs[1..] ==> x in cs;
      assert Value(g, n, depth) == MaxFrom(cs[0], cs[1..]);
    }
  }

  lemma {:induction false} ChildrenBounded(g: Game, n: Node, ms: seq<Move>, d: int)
    requires ValidGame(g) && Bounded(g) && MovesOf(g, n, ms)
    ensures forall x :: x in Children(g, n, ms, d) ==> -g.inf <= x <= g.inf
    decreases g.rank(n), 1, |ms|
  {
    if ms != [] {
      ValueBounded(g, g.play(n, ms[0]), d);
      ChildrenBounded(g, n, ms[1..], d);
    }
  }

  // ---------------------------------------------------------------------------
  // Quiesce

  /** Quiesce as written: stand pat and cut at beta first, then ReOrderMoves, then
      EvaluateNoMoves with no moves and a draw on repetition, then the fail-hard loop over
      the captures (quiet moves are skipped). A stand pat of at least beta returns beta
      whether or not the mover has a move. */
  method QuiesceAsWritten(g: Game, n: Node, alpha: int, beta: int) returns (score: int)
    requires ValidGame(g) && Permutes(g)
    ensures g.eval(n) >= beta ==> score == beta
    ensures g.eval(n) < beta && g.moves(n) == [] ==> score == NoMoves(g, g.kingSafe(n))
    ensures g.eval(n) < beta && g.moves(n) != [] && g.repetition(n) ==> score == 0
    ensures g.eval(n) < beta && g.moves(n) != [] && !g.repetition(n) && alpha <= beta ==>
              Max(alpha, g.eval(n)) <= score <= beta
    decreases g.rank(n)
  {
    var standPat := g.eval(n);
    if standPat >= beta {
      return beta;
    }
    var a := alpha;
    if a < standPat {
      a := standPat;
    }
    var moves := Ordered(g, n);
    OrderedPermutes(g, n);
    if |moves| == 0 {
      return NoMoves(g, g.kingSafe(n));
    }
    if g.repetition(n) {
      return 0;
    }
    var i := 0;
    while i < |moves|
      invariant 0 <= i <= |moves|
      invariant Max(alpha, standPat) <= a && (alpha <= beta ==> a <= beta)
    {
      if !g.isCapture(moves[i]) {
        i := i + 1;
        continue;
      }
      assert moves[i] in moves;
      var r := QuiesceAsWritten(g, g.play(n, moves[i]), -beta, -a);
      if -r >= beta {
        return beta;
      }
      if -r > a {
        a := -r;
      }
      i := i + 1;
    }
    return a;
  }

  /** A position where the written order and the reference value part: the mover is
      checkmated, Inf is 100 and the stand pat is 5. With the window (-10, 0) the written
      Quiesce cuts off at 0, while the position's quiescence value is -100, which the window
      clamps to -10. */
  method StandPatHidesMate() returns (g: Game, written: int, corrected: int)
    ensures ValidGame(g) && Permutes(g)
    ensures QValue(g, 0) == -100
    ensures written == 0 && corrected == -100
    ensures !Agrees(written, QValue(g, 0), -10, 0) && Agrees(corrected, QValue(g, 0), -10, 0)
  {
    g := Game(n => [], (n, s) => s, (n, m) => n, m => false, n => false, n => false, n => 5, 100,
              s => s, n => 0);
    written := QuiesceAsWritten(g, 0, -10, 0);
    corrected := Quiesce(g, 0, -10, 0);
  }

  /** Quiesce with the terminal tests first: EvaluateNoMoves with no moves, a draw on
      repetition, then stand pat and cut at beta, then the fail-hard loop over the captures
      in ReOrderMoves order. */
  method Quiesce(g: Game, n: Node, alpha: int, beta: int) returns (score: int)
    requires ValidGame(g) && Permutes(g)
    ensures g.moves(n) == [] ==> score == NoMoves(g, g.kingSafe(n))
    ensures g.moves(n) != [] && g.repetition(n) ==> score == 0
    ensures g.moves(n) != [] && !g.repetition(n) ==>
              (g.eval(n) >= beta ==> score == beta) &&
              (alpha <= beta ==> alpha <= score <= beta)
    ensures alpha < beta ==> Agrees(score, QValue(g, n), alpha, beta)
    decreases g.rank(n), 1
  {
    var moves := Ordered(g, n);
    OrderedPermutes(g, n);
    if |moves| == 0 {
      return NoMoves(g, g.kingSafe(n));
    }
    if g.repetition(n) {
      return 0;
    }
    var standPat := g.eval(n);
    if standPat >= beta {
      MaxFromBounds(standPat, QChildren(g, n, g.moves(n)));
      return beta;
    }
    var a := alpha;
    if a < standPat {
      a := standPat;
    }
    score := QuiesceCaptures(g, n, moves, a, beta);
    if alpha < beta {
      QChildrenReordered(g, n, moves, g.moves(n));
      QChildrenReordered(g, n, g.moves(n), moves);
      MaxFromSameScores(standPat, QChildren(g, n, moves), QChildren(g, n, g.moves(n)));
      StandPatFromAlpha(alpha, beta, standPat, QChildren(g, n, moves));
      ClampInWindow(MaxFrom(a, QChildren(g, n, moves)), alpha, beta);
    }
  }

  /** The capture loop of Quiesce, from alpha already raised to stand pat: quiet moves are
      skipped, and the result is the fail-hard fold of the captures' negated quiescence
      values, cut off at beta. */
  method QuiesceCaptures(g: Game, n: Node, moves: seq<Move>, alpha: int, beta: int) returns (score: int)
    requires ValidGame(g) && Permutes(g) && MovesOf(g, n, moves) && g.eval(n) <= alpha
    ensures alpha <= beta ==> alpha <= score <= beta
    ensures alpha < beta ==> (score == beta) == (MaxFrom(alpha, QChildren(g, n, moves)) >= beta)
    ensures alpha < beta && score < beta ==> score == MaxFrom(alpha, QChildren(g, n, moves))
    decreases g.rank(n), 0
  {
    ghost var vals := QChildren(g, n, moves);
    var a := alpha;
    var i := 0;
    while i < |moves|
      invariant 0 <= i <= |moves|
      invariant alpha <= a && (alpha <= beta ==> a <= beta)
      invariant alpha < beta ==> a < beta && MaxFrom(a, vals[i..]) == MaxFrom(alpha, vals)
    {
      if !g.isCapture(moves[i]) {
        if alpha < beta {
          QChildrenAt(g, n, moves, i);
          FailHardSkip(alpha, a, vals, i);
        }
        i := i + 1;
        continue;
      }
      assert moves[i] in moves;
      var r := Quiesce(g, g.play(n, moves[i]), -beta, -a);
      if alpha < beta {
        QChildrenAt(g, n, moves, i);
        FailHardStep(alpha, a, beta, vals, i, r);
      }
      if -r >= beta {
        return beta;
      }
      if -r > a {
        a := -r;
      }
      i := i + 1;
    }
    if alpha < beta {
      FailHardDone(alpha, a, vals);
    }
    return a;
  }

  // ---------------------------------------------------------------------------
  // NegaMax(depth, alpha, beta)

  /** NegaMax: Quiesce at depth 0; then ReOrderMoves; with no moves, EvaluateNoMoves of
      IsKingSafe before the repetition test; a repetition is a draw; then the fail-hard loop
      over the reordered moves. */
  method NegaMax(g: Game, n: Node, depth: int, alpha: int, beta: int) returns (score: int)
    requires ValidGame(g) && Permutes(g)
    ensures depth != 0 && g.moves(n) == [] ==> score == NoMoves(g, g.kingSafe(n))
    ensures depth != 0 && g.moves(n) != [] && g.repetition(n) ==> score == 0
    ensures depth != 0 && g.moves(n) != [] && !g.repetition(n) && alpha <= beta ==> alpha <= score <= beta
    ensures alpha < beta ==> Agrees(score, Value(g, n, depth), alpha, beta)
    decreases g.rank(n), 2
  {
    if depth == 0 {
      score := Quiesce(g, n, alpha, beta);
      return;
    }
    var moves := Ordered(g, n);
    OrderedPermutes(g, n);
    if |moves| == 0 {
      return NoMoves(g, g.kingSafe(n));
    }
    if g.repetition(n) {
      return 0;
    }
    score := NegaMaxMoves(g, n, moves, depth, alpha, beta);
    if alpha < beta {
      ChildrenReordered(g, n, moves, g.moves(n), depth - 1);
      ChildrenReordered(g, n, g.moves(n), moves, depth - 1);
      MaxFromSameScores(alpha, Children(g, n, moves, depth - 1), Children(g, n, g.moves(n), depth - 1));
      TopFromAlpha(alpha, beta, Children(g, n, g.moves(n), depth - 1));
      ClampInWindow(MaxFrom(alpha, Children(g, n, moves, depth - 1)), alpha, beta);
    }
  }

  /** The loop of NegaMax: the fail-hard fold of the moves' negated values one ply
      shallower, cut off at beta. */
  method NegaMaxMoves(g: Game, n: Node, moves: seq<Move>, depth: int, alpha: int, beta: int) returns (score: int)
    requires ValidGame(g) && Permutes(g) && MovesOf(g, n, moves)
    ensures alpha <= beta ==> alpha <= score <= beta
    ensures alpha < beta ==> (score == beta) == (MaxFrom(alpha, Children(g, n, moves, depth - 1)) >= beta)
    ensures alpha < beta && score < beta ==> score == MaxFrom(alpha, Children(g, n, moves, depth - 1))
    decreases g.rank(n), 1
  {
    ghost var vals := Children(g, n, moves, depth - 1);
    var a := alpha;
    var i := 0;
    while i < |moves|
      invariant 0 <= i <= |moves|
      invariant alpha <= a && (alpha <= beta ==> a <= beta)
      invariant alpha < beta ==> a < beta && MaxFrom(a, vals[i..]) == MaxFrom(alpha, vals)
    {
      assert moves[i] in moves;
      var r := NegaMax(g, g.play(n, moves[i]), depth - 1, -beta, -a);
      if alpha < beta {
        ChildrenAt(g, n, moves, depth - 1, i);
        FailHardStep(alpha, a, beta, vals, i, r);
      }
      if -r >= beta {
        return beta;
      }
      if -r > a {
        a := -r;
      }
      i := i + 1;
    }
    if alpha < beta {
      FailHardDone(alpha, a, vals);
    }
    return a;
  }

  // ---------------------------------------------------------------------------
  // The root: NegaMax(depth, moveVals) and GetBestMove

  /** A MoveVals that holds the root moves: not yet generated, or one entry per root move,
      each for a root move and every root move in some entry. */
  ghost predicate Rooted(g: Game, n: Node, mv: MoveVals)
  {
    mv.moveCount == -1 ||
    (mv.moveCount == |mv.entries| == |g.moves(n)| &&
     (forall e :: e in mv.entries ==> e.move in g.moves(n)) &&
     (forall m: Move :: m in g.moves(n) ==> exists j :: 0 <= j < |mv.entries| && mv.entries[j].move == m))
  }

  /** The entry scores its move with the move's exact negated value one ply shallower. */
  ghost predicate Exact(g: Game, n: Node, depth: int, e: Scored)
    requires ValidGame(g)
  {
    e.score == -Value(g, g.play(n, e.move), depth - 1)
  }

  /** The root moves as fresh entries, in generation order. */
  function Fresh(ms: seq<Move>): (r: seq<Scored>)
    ensures |r| == |ms| && forall i :: 0 <= i < |ms| ==> r[i].move == ms[i]
  {
    seq(|ms|, i requires 0 <= i < |ms| => Scored(ms[i], 0))
  }

  /** The root NegaMax: generate the root moves on the first call (in generation order,
      without ReOrderMoves), then score every entry with a full-window NegaMax one ply
      shallower. With the evaluation inside (-Inf, Inf), every entry holds its move's exact
      value. */
  method RootNegaMax(g: Game, n: Node, depth: int, mv: MoveVals) returns (mv': MoveVals)
    requires ValidGame(g) && Permutes(g) && Rooted(g, n, mv)
    ensures Rooted(g, n, mv') && mv'.moveCount == |g.moves(n)|
    ensures forall i :: 0 <= i < |mv'.entries| ==>
              mv'.entries[i].move == if mv.moveCount == -1 then g.moves(n)[i] else mv.entries[i].move
    ensures Bounded(g) ==> forall e :: e in mv'.entries ==> Exact(g, n, depth, e)
  {
    var entries := mv.entries;
    if mv.moveCount == -1 {
      entries := Fresh(g.moves(n));
    }
    ghost var before := entries;
    var i := 0;
    while i < |entries|
      invariant 0 <= i <= |entries| == |before| == |g.moves(n)|
      invariant forall j :: 0 <= j < |entries| ==> entries[j].move == before[j].move
      invariant Bounded(g) ==> forall j :: 0 <= j < i ==> Exact(g, n, depth, entries[j])
    {
      var move := entries[i].move;
      assert before[i] in before;
      var r := NegaMax(g, g.play(n, move), depth - 1, -g.inf, g.inf);
      if Bounded(g) {
        ValueBounded(g, g.play(n, move), depth - 1);
      }
      entries := entries[i := Scored(move, -r)];
      i := i + 1;
    }
    mv' := MoveVals(entries, |entries|);
    RescoredRooted(g, n, mv, before, entries);
  }

  /** Rescoring the entries of a rooted MoveVals, move for move, keeps it rooted. */
  lemma RescoredRooted(g: Game, n: Node, mv: MoveVals, before: seq<Scored>, entries: seq<Scored>)
    requires Rooted(g, n, mv) && |entries| == |before| == |g.moves(n)|
    requires mv.moveCount == -1 ==> forall j :: 0 <= j < |before| ==> before[j].move == g.moves(n)[j]
    requires mv.moveCount != -1 ==> before == mv.entries
    requires forall j :: 0 <= j < |entries| ==> entries[j].move == before[j].move
    ensures Rooted(g, n, MoveVals(entries, |entries|))
  {
    forall e | e in entries
      ensures e.move in g.moves(n)
    {
      var j :| 0 <= j < |entries| && entries[j] == e;
      if mv.moveCount != -1 {
        assert before[j] in mv.entries;
      }
    }
    forall m: Move | m in g.moves(n)
      ensures exists j :: 0 <= j < |entries| && entries[j].move == m
    {
      if mv.moveCount == -1 {
        var j :| 0 <= j < |g.moves(n)| && g.moves(n)[j] == m;
        assert entries[j].move == m;
      } else {
        var j :| 0 <= j < |mv.entries| && mv.entries[j].move == m;
        assert entries[j].move == m;
      }
    }
  }

  /** Sorting keeps the MoveVals rooted, keeps every exact entry, and puts the best first. */
  lemma SortedRooted(g: Game, n: Node, depth: int, mv: MoveVals)
    requires ValidGame(g) && Sorts(g) && Rooted(g, n, mv) && mv.moveCount != -1
    ensures Rooted(g, n, mv.(entries := g.sort(mv.entries))) && Descending(g.sort(mv.entries))
    ensures (forall e :: e in mv.entries ==> Exact(g, n, depth, e)) ==>
              forall e :: e in g.sort(mv.entries) ==> Exact(g, n, depth, e)
  {
    var s := g.sort(mv.entries);
    assert multiset(s) == multiset(mv.entries);
    assert |s| == |multiset(s)| == |multiset(mv.entries)| == |mv.entries|;
    forall e | e in s
      ensures e in mv.entries
    {
      assert e in multiset(s);
    }
    forall m: Move | m in g.moves(n)
      ensures exists j :: 0 <= j < |s| && s[j].move == m
    {
      var j :| 0 <= j < |mv.entries| && mv.entries[j].move == m;
      assert mv.entries[j] in multiset(mv.entries);
      var k :| 0 <= k < |s| && s[k] == mv.entries[j];
      assert s[k].move == m;
    }
  }

  /** The first of exactly scored entries, sorted from highest to lowest and covering every
      root move, is a move whose position is worst for the opponent. */
  lemma FirstIsBest(g: Game, n: Node, depth: int, mv: MoveVals)
    requires ValidGame(g) && Rooted(g, n, mv) && mv.moveCount != -1 && mv.entries != []
    requires Descending(mv.entries)
    requires forall e :: e in mv.entries ==> Exact(g, n, depth, e)
    ensures forall m :: m in g.moves(n) ==>
              Value(g, g.play(n, mv.entries[0].move), depth - 1) <= Value(g, g.play(n, m), depth - 1)
  {
    assert mv.entries[0] in mv.entries;
    forall m | m in g.moves(n)
      ensures Value(g, g.play(n, mv.entries[0].move), depth - 1) <= Value(g, g.play(n, m), depth - 1)
    {
      var j :| 0 <= j < |mv.entries| && mv.entries[j].move == m;
      assert mv.entries[j] in mv.entries;
      assert mv.entries[0].score >= mv.entries[j].score;
    }
  }

  /** The times of the first k iterations, at working depths 1 to k. */
  function Times(elapsed: int -> nat, k: nat): (r: seq<nat>)
    ensures |r| == k && forall i :: 0 <= i < k ==> r[i] == elapsed(i + 1)
  {
    seq(k, i requires 0 <= i < k => elapsed(i + 1))
  }

  /** Pushing the next iteration's time extends the times by one iteration. */
  lemma TimesPush(elapsed: int -> nat, k: nat)
    ensures Times(elapsed, k) + [elapsed(k + 1)] == Times(elapsed, k + 1)
  {
  }

  /** The do-while condition of GetBestMove over the times pushed so far: at most two
      iterations, either of the last two under 10 ms, or the last time squared (a U64
      product, which wraps) divided by the one before it under TimeLimit. The division is
      reached only when the divisor is at least 10. */
  predicate Continue(times: seq<nat>)
  {
    |times| <= 2 || times[|times| - 1] < 10 || times[|times| - 2] < 10 ||
    (times[|times| - 1] * times[|times| - 1]) % U64Modulus / times[|times| - 2] < TimeLimit
  }

  lemma MulMono(a: int, b: int, p: int)
    requires a <= b && p >= 0
    ensures a * p <= b * p
  {
    assert b * p - a * p == (b - a) * p;
  }

  /** Euclidean division by p > 0 stays under l exactly when the dividend is under l * p. */
  lemma DivBelow(x: nat, p: nat, l: nat)
    requires p > 0
    ensures x / p < l <==> x < l * p
  {
    var q := x / p;
    assert x == q * p + x % p;
    if q < l {
      MulMono(q + 1, l, p);
    } else {
      MulMono(l, q, p);
    }
  }

  /** The continuation rule: always for the first two iterations, and, once the last two
      times are at least 10 ms and the last is under 2^32 ms (so the square does not wrap),
      exactly while the projected next time, last * (last / previous), stays under
      TimeLimit. */
  lemma ContinueRule(times: seq<nat>)
    ensures |times| <= 2 ==> Continue(times)
    ensures |times| > 2 && times[|times| - 1] >= 10 && times[|times| - 2] >= 10 &&
            times[|times| - 1] < 0x1_0000_0000 ==>
              (Continue(times) <==>
               times[|times| - 1] * times[|times| - 1] < TimeLimit * times[|times| - 2])
  {
    if |times| > 2 && times[|times| - 1] >= 10 && times[|times| - 2] >= 10 && times[|times| - 1] < 0x1_0000_0000 {
      var last, prev := times[|times| - 1], times[|times| - 2];
      MulMono(last, 0x1_0000_0000 - 1, last);
      MulMono(last, 0x1_0000_0000 - 1, 0x1_0000_0000 - 1);
      assert last * last < U64Modulus;
      assert (last * last) % U64Modulus == last * last;
      DivBelow(last * last, prev, TimeLimit);
    }
  }

  /** One iteration of GetBestMove at a working depth: the root NegaMax, then Sort. */
  method Iteration(g: Game, n: Node, workingDepth: int, mv: MoveVals) returns (mv': MoveVals)
    requires ValidGame(g) && Permutes(g) && Sorts(g) && Rooted(g, n, mv)
    ensures Rooted(g, n, mv') && mv'.moveCount == |g.moves(n)| && Descending(mv'.entries)
    ensures Bounded(g) ==> forall e :: e in mv'.entries ==> Exact(g, n, workingDepth, e)
  {
    mv' := RootNegaMax(g, n, workingDepth, mv);
    SortedRooted(g, n, workingDepth, mv');
    mv' := mv'.(entries := g.sort(mv'.entries));
  }

  /** The do-while of GetBestMove after its first iteration: while Continue holds of the
      times so far (and fuel remains), the next working depth's iteration, then its time. */
  method Deepen(g: Game, n: Node, mv: MoveVals, times: seq<nat>, elapsed: int -> nat, fuel: nat)
    returns (mv': MoveVals, times': seq<nat>)
    requires ValidGame(g) && Permutes(g) && Sorts(g) && 1 <= |times| <= fuel
    requires times == Times(elapsed, |times|)
    requires Rooted(g, n, mv) && mv.moveCount == |g.moves(n)| && Descending(mv.entries)
    requires Bounded(g) ==> forall e :: e in mv.entries ==> Exact(g, n, |times|, e)
    ensures |times| <= |times'| <= fuel && times' == Times(elapsed, |times'|)
    ensures forall k :: |times| <= k < |times'| ==> Continue(Times(elapsed, k))
    ensures |times'| < fuel ==> !Continue(times')
    ensures Rooted(g, n, mv') && mv'.moveCount == |g.moves(n)| && Descending(mv'.entries)
    ensures Bounded(g) ==> forall e :: e in mv'.entries ==> Exact(g, n, |times'|, e)
  {
    mv', times' := mv, times;
    var workingDepth := |times| + 1;
    while Continue(times') && |times'| < fuel
      invariant |times| <= |times'| <= fuel && workingDepth == |times'| + 1
      invariant times' == Times(elapsed, |times'|)
      invariant forall k :: |times| <= k < |times'| ==> Continue(Times(elapsed, k))
      invariant Rooted(g, n, mv') && mv'.moveCount == |g.moves(n)| && Descending(mv'.entries)
      invariant Bounded(g) ==> forall e :: e in mv'.entries ==> Exact(g, n, |times'|, e)
      decreases fuel - |times'|
    {
      mv' := Iteration(g, n, workingDepth, mv');
      workingDepth := workingDepth + 1;
      TimesPush(elapsed, |times'|);
      times' := times' + [elapsed(workingDepth - 1)];
    }
  }

  /** GetBestMove: the depth argument is not read. From working depth 1 it runs the root
      NegaMax, pushes the iteration's time and sorts, and repeats while Continue holds of
      the times so far; the answer is the first move of the last sorted MoveVals. The model
      runs at most fuel iterations; iterations is how many it ran, so the last working depth
      is iterations. */
  method GetBestMove(g: Game, n: Node, depth: int, elapsed: int -> nat, fuel: nat)
    returns (best: Move, ghost iterations: nat)
    requires ValidGame(g) && Permutes(g) && Sorts(g) && fuel >= 1
    ensures 1 <= iterations <= fuel
    ensures forall k :: 1 <= k < iterations ==> Continue(Times(elapsed, k))
    ensures iterations < fuel ==> !Continue(Times(elapsed, iterations))
    ensures g.moves(n) == [] ==> best == NullMove
    ensures g.moves(n) != [] ==> best in g.moves(n)
    ensures g.moves(n) != [] && Bounded(g) ==>
              forall m :: m in g.moves(n) ==>
                Value(g, g.play(n, best), iterations - 1) <= Value(g, g.play(n, m), iterations - 1)
  {
    var mv := Iteration(g, n, 1, MoveVals([], -1));
    TimesPush(elapsed, 0);
    var times: seq<nat> := [elapsed(1)];
    mv, times := Deepen(g, n, mv, times, elapsed, fuel);
    iterations := |times|;
    if mv.entries == [] {
      return NullMove, iterations;
    }
    assert mv.entries[0] in mv.entries;
    best := mv.entries[0].move;
    if Bounded(g) {
      FirstIsBest(g, n, iterations, mv);
    }
  }
}
