/** src/minimax.cpp: the second engine's MiniMax player. It runs a fail-hard negamax
    with a quiescence search beneath it. A root search scores every root move with the
    full window, and GetBestMove deepens that root search iteratively against a time
    budget. As in the other search generations, the board is a node of an abstract game
    tree (Game). DoMove is the step to a child, UndoMove the step back, and the
    generators, the check test, IsKingSafe, IsThreefoldRep, Evaluate and the ply count
    are fields of Game. MoveVals::Sort is a Game field assumed to be a permutation that
    orders the scores from highest to lowest (Sorts). The clock is an oracle giving each
    root move's search time at each working depth.

    Each search's partner is a full-width reference value (QValue, Value). A windowed
    search agrees with it through its window. The root search, whose window is the full
    (-Inf, Inf), reports each move's exact value whenever the evaluation lies within
    (-Inf, Inf). */
module SrcMiniMax {
  import opened SearchWindow
  import SrcEvaluator

  /** A position of the game tree. */
  type Node = nat

  /** A move by its packed value, or Move(MoveType::SPECIAL_DRAW), the draw claim. */
  datatype Move = Move(value: nat) | SpecialDraw

  /** Move(0), the null move, which a MoveVals slot holds before any move is written. */
  const NullMove: Move := Move(0)

  /** One root move and its score. */
  datatype Scored = Scored(move: Move, score: int)

  /** MoveVals: the root moves with their scores, in the order of the last Sort, and their
      count, -1 until the root moves are generated. */
  datatype MoveVals = MoveVals(entries: seq<Scored>, moveCount: int)

  /** The time budget of GetBestMove, in milliseconds. */
  const TimeLimit: nat := 1000

  /** The game as the search sees it. moves and attacks are GetAllMoves and GetAttackMoves
      for the side to move, inCheck is attackedSquares meeting the mover's king, kingSafe is
      IsKingSafe(), inf is PieceValue::Inf, ply is GetPly(), sort is MoveVals::Sort, and rank
      is a measure that every move lowers (the tree is finite). */
  datatype Game = Game(
    moves: Node -> seq<Move>,
    attacks: Node -> seq<Move>,
    play: (Node, Move) -> Node,
    inCheck: Node -> bool,
    kingSafe: Node -> bool,
    repetition: Node -> bool,
    eval: Node -> int,
    inf: int,
    ply: Node -> int,
    sort: seq<Scored> -> seq<Scored>,
    rank: Node -> nat)

  /** Every move and every capture leads to a lower-ranked position. */
  ghost predicate ValidGame(g: Game)
  {
    (forall n: Node, m: Move :: m in g.moves(n) ==> g.rank(g.play(n, m)) < g.rank(n)) &&
    (forall n: Node, m: Move :: m in g.attacks(n) ==> g.rank(g.play(n, m)) < g.rank(n))
  }

  /** Scores from highest to lowest. */
  predicate Descending(s: seq<Scored>)
  {
    forall i, j :: 0 <= i < j < |s| ==> s[i].score >= s[j].score
  }

  /** MoveVals::Sort keeps the entries and puts the highest score first. */
  ghost predicate Sorts(g: Game)
  {
    forall s: seq<Scored> :: multiset(g.sort(s)) == multiset(s) && Descending(g.sort(s))
  }

  /** Inf is positive and the evaluation never leaves [-Inf, Inf]. */
  ghost predicate Bounded(g: Game)
  {
    g.inf > 0 && forall n: Node :: -g.inf <= g.eval(n) <= g.inf
  }

  /** The moves all lead to lower-ranked positions. */
  ghost predicate Descends(g: Game, n: Node, ms: seq<Move>)
  {
    forall m: Move :: m in ms ==> g.rank(g.play(n, m)) < g.rank(n)
  }

  /** Evaluator::EvaluateNoMoves with this game's Inf. */
  function NoMoves(g: Game, isKingSafe: bool): int
  {
    SrcEvaluator.EvaluateNoMoves(isKingSafe, g.inf)
  }

  // ---------------------------------------------------------------------------
  // Reference values

  /** The moves Quiesce searches: the captures, or every move when the mover is in check
      and has no capture. */
  function QMoves(g: Game, n: Node): (r: seq<Move>)
    requires ValidGame(g)
    ensures Descends(g, n, r)
  {
    if g.attacks(n) == [] && g.inCheck(n) then g.moves(n) else g.attacks(n)
  }

  /** The quiescence value: checkmate-or-stalemate scoring (as checkmate) when the mover
      is in check with no move at all, and otherwise the best of standing pat and the
      negated values of the positions after QMoves. */
  ghost function QValue(g: Game, n: Node): int
    requires ValidGame(g)
    decreases g.rank(n), 1
  {
    if g.attacks(n) == [] && g.inCheck(n) && g.moves(n) == [] then NoMoves(g, false)
    else MaxFrom(g.eval(n), QChildren(g, n, QMoves(g, n)))
  }

  /** The negated quiescence values of the positions after ms, in order. */
  ghost function QChildren(g: Game, n: Node, ms: seq<Move>): (r: seq<int>)
    requires ValidGame(g) && Descends(g, n, ms)
    ensures |r| == |ms|
    decreases g.rank(n), 0, |ms|
  {
    if ms == [] then [] else [-QValue(g, g.play(n, ms[0]))] + QChildren(g, n, ms[1..])
  }

  /** The negamax value to depth: quiescence at depth 0; with no moves, EvaluateNoMoves of
      whether the king is safe; a repetition is a draw; otherwise the best negated child
      value one ply shallower. A depth below 0 never reaches 0 and searches to the end of
      the tree. */
  ghost function Value(g: Game, n: Node, depth: int): int
    requires ValidGame(g)
    decreases g.rank(n), 2
  {
    if depth == 0 then QValue(g, n)
    else if g.moves(n) == [] then NoMoves(g, g.kingSafe(n))
    else if g.repetition(n) then 0
    else Top(Children(g, n, g.moves(n), depth - 1))
  }

  /** The negated values to depth d of the positions after ms, in order. */
  ghost function Children(g: Game, n: Node, ms: seq<Move>, d: int): (r: seq<int>)
    requires ValidGame(g) && Descends(g, n, ms)
    ensures |r| == |ms|
    decreases g.rank(n), 1, |ms|
  {
    if ms == [] then [] else [-Value(g, g.play(n, ms[0]), d)] + Children(g, n, ms[1..], d)
  }

  lemma {:induction false} QChildrenAt(g: Game, n: Node, ms: seq<Move>, i: nat)
    requires ValidGame(g) && Descends(g, n, ms) && i < |ms|
    ensures QChildren(g, n, ms)[i] == -QValue(g, g.play(n, ms[i]))
    decreases |ms|
  {
    if i > 0 {
      QChildrenAt(g, n, ms[1..], i - 1);
    }
  }

  lemma {:induction false} ChildrenAt(g: Game, n: Node, ms: seq<Move>, d: int, i: nat)
    requires ValidGame(g) && Descends(g, n, ms) && i < |ms|
    ensures Children(g, n, ms, d)[i] == -Value(g, g.play(n, ms[i]), d)
    decreases |ms|
  {
    if i > 0 {
      ChildrenAt(g, n, ms[1..], d, i - 1);
    }
  }

  /** With the evaluation inside [-Inf, Inf], so is every quiescence value. */
  lemma {:induction false} QValueBounded(g: Game, n: Node)
    requires ValidGame(g) && Bounded(g)
    ensures -g.inf <= QValue(g, n) <= g.inf
    decreases g.rank(n), 1
  {
    if !(g.attacks(n) == [] && g.inCheck(n) && g.moves(n) == []) {
      QChildrenBounded(g, n, QMoves(g, n));
      MaxFromBounds(g.eval(n), QChildren(g, n, QMoves(g, n)));
    }
  }

  lemma {:induction false} QChildrenBounded(g: Game, n: Node, ms: seq<Move>)
    requires ValidGame(g) && Bounded(g) && Descends(g, n, ms)
    ensures forall x :: x in QChildren(g, n, ms) ==> -g.inf <= x <= g.inf
    decreases g.rank(n), 0, |ms|
  {
    if ms != [] {
      QValueBounded(g, g.play(n, ms[0]));
      QChildrenBounded(g, n, ms[1..]);
    }
  }

  /** With the evaluation inside [-Inf, Inf], so is every negamax value. */
  lemma {:induction false} ValueBounded(g: Game, n: Node, depth: int)
    requires ValidGame(g) && Bounded(g)
    ensures -g.inf <= Value(g, n, depth) <= g.inf
    decreases g.rank(n), 2
  {
    if depth == 0 {
      QValueBounded(g, n);
    } else if g.moves(n) != [] && !g.repetition(n) {
      var cs := Children(g, n, g.moves(n), depth - 1);
      ChildrenBounded(g, n, g.moves(n), depth - 1);
      MaxFromBounds(cs[0], cs[1..]);
      assert cs[0] in cs;
      assert forall x :: x in cs[1..] ==> x in cs;
      assert Value(g, n, depth) == MaxFrom(cs[0], cs[1..]);
    }
  }

  lemma {:induction false} ChildrenBounded(g: Game, n: Node, ms: seq<Move>, d: int)
    requires ValidGame(g) && Bounded(g) && Descends(g, n, ms)
    ensures forall x :: x in Children(g, n, ms, d) ==> -g.inf <= x <= g.inf
    decreases g.rank(n), 1, |ms|
  {
    if ms != [] {
      ValueBounded(g, g.play(n, ms[0]), d);
      ChildrenBounded(g, n, ms[1..], d);
    }
  }

  // ---------------------------------------------------------------------------
  // Quiesce

  /** Quiesce: the captures, or in check with none every move, and checkmate scoring when
      there is none of those either; then stand pat, cut at beta, and the fail-hard loop. */
  method Quiesce(g: Game, n: Node, alpha: int, beta: int) returns (score: int)
    requires ValidGame(g)
    ensures g.attacks(n) == [] && g.inCheck(n) && g.moves(n) == [] ==> score == NoMoves(g, false)
    ensures !(g.attacks(n) == [] && g.inCheck(n) && g.moves(n) == []) ==>
              (g.eval(n) >= beta ==> score == beta) &&
              (alpha <= beta ==> alpha <= score <= beta)
    ensures alpha < beta ==> Agrees(score, QValue(g, n), alpha, beta)
    decreases g.rank(n), 1
  {
    var moves := g.attacks(n);
    if |moves| == 0 && g.inCheck(n) {
      moves := g.moves(n);
      if |moves| == 0 {
        return NoMoves(g, false);
      }
    }
    assert moves == QMoves(g, n);
    var standPat := g.eval(n);
    if standPat >= beta {
      MaxFromBounds(standPat, QChildren(g, n, moves));
      return beta;
    }
    var a := alpha;
    if a < standPat {
      a := standPat;
    }
    score := QuiesceMoves(g, n, moves, a, beta);
    if alpha < beta {
      StandPatFromAlpha(alpha, beta, standPat, QChildren(g, n, moves));
      ClampInWindow(MaxFrom(a, QChildren(g, n, moves)), alpha, beta);
    }
  }

  /** The loop of Quiesce over the searched moves, from alpha already raised to stand pat:
      the fail-hard fold of their negated quiescence values, cut off at beta. */
  method QuiesceMoves(g: Game, n: Node, moves: seq<Move>, alpha: int, beta: int) returns (score: int)
    requires ValidGame(g) && Descends(g, n, moves)
    ensures alpha <= beta ==> alpha <= score <= beta
    ensures alpha < beta ==> (score == beta) == (MaxFrom(alpha, QChildren(g, n, moves)) >= beta)
    ensures alpha < beta && score < beta ==> score == MaxFrom(alpha, QChildren(g, n, moves))
    decreases g.rank(n), 0
  {
    ghost var vals := QChildren(g, n, moves);
    var a := alpha;
    var i := 0;
    while i < |moves|
      invariant 0 <= i <= |moves|
      invariant alpha <= a && (alpha <= beta ==> a <= beta)
      invariant alpha < beta ==> a < beta && MaxFrom(a, vals[i..]) == MaxFrom(alpha, vals)
    {
      assert moves[i] in moves;
      var r := Quiesce(g, g.play(n, moves[i]), -beta, -a);
      if alpha < beta {
        QChildrenAt(g, n, moves, i);
        FailHardStep(alpha, a, beta, vals, i, r);
      }
      if -r >= beta {
        return beta;
      }
      if -r > a {
        a := -r;
      }
      i := i + 1;
    }
    if alpha < beta {
      FailHardDone(alpha, a, vals);
    }
    return a;
  }

  // ---------------------------------------------------------------------------
  // NegaMax(depth, alpha, beta)

  /** NegaMax: Quiesce at depth 0; with no moves, EvaluateNoMoves(IsKingSafe()) before the
      repetition test; a repetition is a draw; then the fail-hard loop over every move. */
  method NegaMax(g: Game, n: Node, depth: int, alpha: int, beta: int) returns (score: int)
    requires ValidGame(g)
    ensures depth != 0 && g.moves(n) == [] ==> score == NoMoves(g, g.kingSafe(n))
    ensures depth != 0 && g.moves(n) != [] && g.repetition(n) ==> score == 0
    ensures depth != 0 && g.moves(n) != [] && !g.repetition(n) && alpha <= beta ==> alpha <= score <= beta
    ensures alpha < beta ==> Agrees(score, Value(g, n, depth), alpha, beta)
    decreases g.rank(n), 2
  {
    if depth == 0 {
      score := Quiesce(g, n, alpha, beta);
      return;
    }
    var moves := g.moves(n);
    if |moves| == 0 {
      return NoMoves(g, g.kingSafe(n));
    }
    if g.repetition(n) {
      return 0;
    }
    score := NegaMaxMoves(g, n, moves, depth, alpha, beta);
    if alpha < beta {
      TopFromAlpha(alpha, beta, Children(g, n, moves, depth - 1));
      ClampInWindow(MaxFrom(alpha, Children(g, n, moves, depth - 1)), alpha, beta);
    }
  }

  /** The loop of NegaMax over the moves: the fail-hard fold of their negated values one
      ply shallower, cut off at beta. */
  method NegaMaxMoves(g: Game, n: Node, moves: seq<Move>, depth: int, alpha: int, beta: int) returns (score: int)
    requires ValidGame(g) && Descends(g, n, moves)
    ensures alpha <= beta ==> alpha <= score <= beta
    ensures alpha < beta ==> (score == beta) == (MaxFrom(alpha, Children(g, n, moves, depth - 1)) >= beta)
    ensures alpha < beta && score < beta ==> score == MaxFrom(alpha, Children(g, n, moves, depth - 1))
    decreases g.rank(n), 1
  {
    ghost var vals := Children(g, n, moves, depth - 1);
    var a := alpha;
    var i := 0;
    while i < |moves|
      invariant 0 <= i <= |moves|
      invariant alpha <= a && (alpha <= beta ==> a <= beta)
      invariant alpha < beta ==> a < beta && MaxFrom(a, vals[i..]) == MaxFrom(alpha, vals)
    {
      assert moves[i] in moves;
      var r := NegaMax(g, g.play(n, moves[i]), depth - 1, -beta, -a);
      if alpha < beta {
        ChildrenAt(g, n, moves, depth - 1, i);
        FailHardStep(alpha, a, beta, vals, i, r);
      }
      if -r >= beta {
        return beta;
      }
      if -r > a {
        a := -r;
      }
      i := i + 1;
    }
    if alpha < beta {
      FailHardDone(alpha, a, vals);
    }
    return a;
  }

  /** With the evaluation inside [-Inf, Inf], a full-window NegaMax returns the exact value. */
  lemma FullWindowExact(g: Game, n: Node, depth: int, r: int)
    requires ValidGame(g) && Bounded(g)
    requires Agrees(r, Value(g, n, depth), -g.inf, g.inf)
    ensures r == Value(g, n, depth)
  {
    ValueBounded(g, n, depth);
  }

  // ---------------------------------------------------------------------------
  // The root: NegaMax(depth, timeLimit, timeUsed, moveVals) and GetBestMove

  /** The milliseconds the first k root moves take at working depth d. */
  function Spent(elapsed: (int, nat) -> nat, d: int, k: nat): nat
  {
    if k == 0 then 0 else Spent(elapsed, d, k - 1) + elapsed(d, k - 1)
  }

  /** Searching more root moves never takes less time. */
  lemma {:induction false} SpentGrows(elapsed: (int, nat) -> nat, d: int, i: nat, k: nat)
    requires i <= k
    ensures Spent(elapsed, d, i) <= Spent(elapsed, d, k)
    decreases k
  {
    if i < k {
      SpentGrows(elapsed, d, i, k - 1);
    }
  }

  /** A MoveVals that holds root moves: not yet generated, or one entry per root move,
      each for a root move, and every root move among them. */
  ghost predicate Rooted(g: Game, n: Node, mv: MoveVals)
  {
    mv.moveCount == -1 ||
    (mv.moveCount == |mv.entries| == |g.moves(n)| &&
     (forall e :: e in mv.entries ==> e.move in g.moves(n)) &&
     Covers(g, n, mv.entries))
  }

  /** Every root move has an entry. */
  ghost predicate Covers(g: Game, n: Node, entries: seq<Scored>)
  {
    forall m: Move :: m in g.moves(n) ==> exists j :: 0 <= j < |entries| && entries[j].move == m
  }

  /** Rescoring the entries move for move keeps every root move, whether the entries were
      fresh or those of an earlier call. */
  lemma KeptCovers(g: Game, n: Node, mv: MoveVals, before: seq<Scored>, entries: seq<Scored>)
    requires Rooted(g, n, mv) && |entries| == |before| == |g.moves(n)|
    requires mv.moveCount == -1 ==> forall j :: 0 <= j < |before| ==> before[j].move == g.moves(n)[j]
    requires mv.moveCount != -1 ==> before == mv.entries
    requires forall j :: 0 <= j < |entries| ==> entries[j].move == before[j].move
    ensures forall j :: 0 <= j < |entries| ==> entries[j].move in g.moves(n)
    ensures Covers(g, n, entries)
  {
    forall j | 0 <= j < |entries|
      ensures entries[j].move in g.moves(n)
    {
      if mv.moveCount != -1 {
        assert before[j] in mv.entries;
      }
    }
    forall m: Move | m in g.moves(n)
      ensures exists j :: 0 <= j < |entries| && entries[j].move == m
    {
      if mv.moveCount == -1 {
        var j :| 0 <= j < |g.moves(n)| && g.moves(n)[j] == m;
        assert entries[j].move == m;
      } else {
        var j :| 0 <= j < |mv.entries| && mv.entries[j].move == m;
        assert entries[j].move == m;
      }
    }
  }

  /** The entry scores its move with the move's exact negated value one ply shallower. */
  ghost predicate Exact(g: Game, n: Node, depth: int, e: Scored)
    requires ValidGame(g)
  {
    e.score == -Value(g, g.play(n, e.move), depth - 1)
  }

  /** The root moves as fresh entries, in generation order. */
  function Fresh(ms: seq<Move>): (r: seq<Scored>)
    ensures |r| == |ms| && forall i :: 0 <= i < |ms| ==> r[i].move == ms[i]
  {
    seq(|ms|, i requires 0 <= i < |ms| => Scored(ms[i], 0))
  }

  /** One root move scored by a full-window NegaMax one ply shallower, negated. */
  method ScoreMove(g: Game, n: Node, depth: int, move: Move) returns (scored: Scored)
    requires ValidGame(g)
    ensures scored.move == move
    ensures Bounded(g) ==> Exact(g, n, depth, scored)
  {
    var r := NegaMax(g, g.play(n, move), depth - 1, -g.inf, g.inf);
    if Bounded(g) {
      FullWindowExact(g, g.play(n, move), depth - 1, r);
    }
    scored := Scored(move, -r);
  }

  /** The loop of the root NegaMax: score each entry in turn with a full-window NegaMax one
      ply shallower, adding its time to timeUsed, and stop after the entry that takes
      timeUsed past the limit; i is how many entries were scored. */
  method ScoreRootMoves(g: Game, n: Node, depth: int, timeLimit: nat, timeUsed: nat, entries: seq<Scored>,
                        elapsed: (int, nat) -> nat)
    returns (entries': seq<Scored>, i: nat, timeUsed': nat)
    requires ValidGame(g)
    ensures i <= |entries'| == |entries|
    ensures forall j :: 0 <= j < |entries| ==> entries'[j].move == entries[j].move
    ensures timeUsed' == timeUsed + Spent(elapsed, depth, i)
    ensures i < |entries| ==> timeUsed' > timeLimit
    ensures Bounded(g) ==> forall j :: 0 <= j < i ==> Exact(g, n, depth, entries'[j])
  {
    entries' := entries;
    timeUsed' := timeUsed;
    i := 0;
    while i < |entries'|
      invariant 0 <= i <= |entries'| == |entries|
      invariant forall j :: 0 <= j < |entries'| ==> entries'[j].move == entries[j].move
      invariant timeUsed' == timeUsed + Spent(elapsed, depth, i)
      invariant Bounded(g) ==> forall j :: 0 <= j < i ==> Exact(g, n, depth, entries'[j])
    {
      var scored := ScoreMove(g, n, depth, entries'[i].move);
      entries' := entries'[i := scored];
      timeUsed' := timeUsed' + elapsed(depth, i);
      i := i + 1;
      if timeUsed' > timeLimit {
        break;
      }
    }
  }

  /** The root NegaMax: generate the root moves on the first call, then score each with a
      full-window NegaMax one ply shallower, adding its time to timeUsed and stopping after
      the move that takes timeUsed past the limit; finally sort. With the evaluation inside
      (-Inf, Inf) and the time within the limit, every root move has an entry holding its
      exact value. */
  method RootNegaMax(g: Game, n: Node, depth: int, timeLimit: nat, timeUsed: nat, mv: MoveVals,
                     elapsed: (int, nat) -> nat)
    returns (mv': MoveVals, timeUsed': nat)
    requires ValidGame(g) && Sorts(g) && Rooted(g, n, mv)
    ensures Rooted(g, n, mv') && mv'.moveCount == |g.moves(n)|
    ensures Descending(mv'.entries)
    ensures timeUsed <= timeUsed'
    ensures Bounded(g) && timeUsed + Spent(elapsed, depth, |g.moves(n)|) <= timeLimit ==>
              forall e :: e in mv'.entries ==> Exact(g, n, depth, e)
    ensures Bounded(g) && timeUsed + Spent(elapsed, depth, |g.moves(n)|) <= timeLimit ==>
              forall m :: m in g.moves(n) ==> Scored(m, -Value(g, g.play(n, m), depth - 1)) in mv'.entries
  {
    var entries := mv.entries;
    if mv.moveCount == -1 {
      entries := Fresh(g.moves(n));
    }
    var i;
    ghost var before := entries;
    entries, i, timeUsed' := ScoreRootMoves(g, n, depth, timeLimit, timeUsed, entries, elapsed);
    KeptCovers(g, n, mv, before, entries);
    if Bounded(g) && timeUsed + Spent(elapsed, depth, |g.moves(n)|) <= timeLimit {
      SpentGrows(elapsed, depth, i, |g.moves(n)|);
    }
    mv' := MoveVals(g.sort(entries), |entries|);
    SortedEntries(g, n, depth, entries, Bounded(g) && i == |entries|);
  }

  /** Sorting keeps what holds of every entry, and keeps every entry. */
  lemma SortedEntries(g: Game, n: Node, depth: int, entries: seq<Scored>, exact: bool)
    requires ValidGame(g) && Sorts(g)
    requires forall j :: 0 <= j < |entries| ==> entries[j].move in g.moves(n)
    requires Covers(g, n, entries)
    requires exact ==> forall j :: 0 <= j < |entries| ==> Exact(g, n, depth, entries[j])
    ensures |g.sort(entries)| == |entries| && Descending(g.sort(entries))
    ensures forall e :: e in g.sort(entries) ==> e.move in g.moves(n)
    ensures Covers(g, n, g.sort(entries))
    ensures exact ==> forall e :: e in g.sort(entries) ==> Exact(g, n, depth, e)
    ensures exact ==>
              forall m :: m in g.moves(n) ==> Scored(m, -Value(g, g.play(n, m), depth - 1)) in g.sort(entries)
  {
    var s := g.sort(entries);
    SameEntries(entries, s);
    CoversKept(g, n, entries, s);
    if exact {
      forall m | m in g.moves(n)
        ensures Scored(m, -Value(g, g.play(n, m), depth - 1)) in s
      {
        var j :| 0 <= j < |entries| && entries[j].move == m;
        assert entries[j] == Scored(m, -Value(g, g.play(n, m), depth - 1));
        assert entries[j] in entries;
      }
    }
  }

  /** A permutation keeps the length and the entries, each way. */
  lemma SameEntries(entries: seq<Scored>, s: seq<Scored>)
    requires multiset(s) == multiset(entries)
    ensures |s| == |entries|
    ensures forall e :: e in s ==> e in entries
    ensures forall e :: e in entries ==> e in s
  {
    assert |s| == |multiset(s)| == |multiset(entries)| == |entries|;
    forall e | e in s
      ensures e in entries
    {
      assert e in multiset(s);
    }
    forall e | e in entries
      ensures e in s
    {
      assert e in multiset(entries);
    }
  }

  /** Entries that all reappear in s leave every root move covered by s. */
  lemma CoversKept(g: Game, n: Node, entries: seq<Scored>, s: seq<Scored>)
    requires Covers(g, n, entries)
    requires forall e :: e in entries ==> e in s
    ensures Covers(g, n, s)
  {
    forall m: Move | m in g.moves(n)
      ensures exists k :: 0 <= k < |s| && s[k].move == m
    {
      var j :| 0 <= j < |entries| && entries[j].move == m;
      assert entries[j] in entries;
      var k :| 0 <= k < |s| && s[k] == entries[j];
      assert s[k].move == m;
    }
  }

  /** Every entry holds its move's exact value and every root move has one. */
  ghost predicate Solved(g: Game, n: Node, depth: int, mv: MoveVals)
    requires ValidGame(g)
  {
    (forall e :: e in mv.entries ==> Exact(g, n, depth, e)) &&
    (forall m :: m in g.moves(n) ==> Scored(m, -Value(g, g.play(n, m), depth - 1)) in mv.entries)
  }

  /** The last element of a non-empty sequence. */
  function Last<T>(s: seq<T>): T
    requires s != []
  {
    s[|s| - 1]
  }

  /** A mate found at the root: the best score is Inf. */
  predicate MateFound(g: Game, mv: MoveVals)
  {
    mv.entries != [] && mv.entries[0].score == g.inf
  }

  /** The first of exactly scored entries, sorted from highest to lowest and holding every
      root move, is a move whose position is worst for the opponent. */
  lemma FirstIsBest(g: Game, n: Node, depth: int, entries: seq<Scored>)
    requires ValidGame(g) && entries != [] && Descending(entries)
    requires forall e :: e in entries ==> Exact(g, n, depth, e)
    requires forall m :: m in g.moves(n) ==> Scored(m, -Value(g, g.play(n, m), depth - 1)) in entries
    ensures forall m :: m in g.moves(n) ==>
              Value(g, g.play(n, entries[0].move), depth - 1) <= Value(g, g.play(n, m), depth - 1)
  {
    assert Exact(g, n, depth, entries[0]);
    forall m | m in g.moves(n)
      ensures Value(g, g.play(n, entries[0].move), depth - 1) <= Value(g, g.play(n, m), depth - 1)
    {
      var j :| 0 <= j < |entries| && entries[j] == Scored(m, -Value(g, g.play(n, m), depth - 1));
      assert entries[0].score >= entries[j].score;
    }
  }

  /** What a run of GetBestMove has done after each root search: the MoveVals of each
      search, the time used before each (none at the start), and the depth of the last
      search, which for depth -1 counts the searches. Every search but the last neither found
      a mate nor used up the time, and the last MoveVals holds every root move, sorted, exact
      when the last search had the time it needed. */
  ghost predicate Run(g: Game, n: Node, depth: int, elapsed: (int, nat) -> nat, mv: MoveVals,
                      searches: seq<MoveVals>, starts: seq<nat>, lastDepth: int)
    requires ValidGame(g)
  {
    1 <= |searches| == |starts| && starts[0] == 0 && Last(searches) == mv &&
    (depth != -1 ==> |searches| == 1 && lastDepth == depth) &&
    (depth == -1 ==> lastDepth == |searches| < 1000) &&
    Continued(g, searches, starts) &&
    Settled(g, n, elapsed, mv, Last(starts), lastDepth)
  }

  /** Every search but the last neither found a mate nor used up the time. */
  ghost predicate Continued(g: Game, searches: seq<MoveVals>, starts: seq<nat>)
    requires |searches| == |starts|
  {
    forall k :: 0 <= k < |searches| - 1 ==> !MateFound(g, searches[k]) && starts[k + 1] < TimeLimit
  }

  /** A search at depth d that started with `start` time used holds every root move, sorted,
      each exact when the search had the time it needed. */
  ghost predicate Settled(g: Game, n: Node, elapsed: (int, nat) -> nat, mv: MoveVals, start: nat, d: int)
    requires ValidGame(g)
  {
    Rooted(g, n, mv) && mv.moveCount == |g.moves(n)| && Descending(mv.entries) &&
    (Bounded(g) && start + Spent(elapsed, d, |g.moves(n)|) <= TimeLimit ==> Solved(g, n, d, mv))
  }

  /** A search that neither found a mate nor used up the time lets the run go on. */
  lemma ContinuedStep(g: Game, searches: seq<MoveVals>, starts: seq<nat>, mv': MoveVals, total: nat)
    requires 1 <= |searches| == |starts| && Continued(g, searches, starts)
    requires !MateFound(g, Last(searches)) && total < TimeLimit
    ensures Continued(g, searches + [mv'], starts + [total])
  {
    var s', t' := searches + [mv'], starts + [total];
    forall k | 0 <= k < |s'| - 1
      ensures !MateFound(g, s'[k]) && t'[k + 1] < TimeLimit
    {
      if k < |searches| - 1 {
        assert s'[k] == searches[k] && t'[k + 1] == starts[k + 1];
      } else {
        assert s'[k] == Last(searches) && t'[k + 1] == total;
      }
    }
  }

  /** The first root search starts a run. */
  lemma RunStarts(g: Game, n: Node, depth: int, elapsed: (int, nat) -> nat, mv: MoveVals, workingDepth: int)
    requires ValidGame(g) && workingDepth == (if depth == -1 then 1 else depth)
    requires Rooted(g, n, mv) && mv.moveCount == |g.moves(n)| && Descending(mv.entries)
    requires Bounded(g) && 0 + Spent(elapsed, workingDepth, |g.moves(n)|) <= TimeLimit ==>
               forall e :: e in mv.entries ==> Exact(g, n, workingDepth, e)
    requires Bounded(g) && 0 + Spent(elapsed, workingDepth, |g.moves(n)|) <= TimeLimit ==>
               forall m :: m in g.moves(n) ==> Scored(m, -Value(g, g.play(n, m), workingDepth - 1)) in mv.entries
    ensures Run(g, n, depth, elapsed, mv, [mv], [0], workingDepth)
  {
    assert Settled(g, n, elapsed, mv, 0, workingDepth);
  }

  /** One more root search, one ply deeper, after a search that neither found a mate nor
      used up the time, extends the run. */
  lemma RunStep(g: Game, n: Node, depth: int, elapsed: (int, nat) -> nat, mv: MoveVals,
                searches: seq<MoveVals>, starts: seq<nat>, lastDepth: int, d: int, total: nat, mv': MoveVals)
    requires ValidGame(g) && Run(g, n, depth, elapsed, mv, searches, starts, lastDepth)
    requires depth == -1 && !MateFound(g, mv) && d == lastDepth + 1 < 1000 && total < TimeLimit
    requires Rooted(g, n, mv') && mv'.moveCount == |g.moves(n)| && Descending(mv'.entries)
    requires Bounded(g) && total + Spent(elapsed, d, |g.moves(n)|) <= TimeLimit ==>
               forall e :: e in mv'.entries ==> Exact(g, n, d, e)
    requires Bounded(g) && total + Spent(elapsed, d, |g.moves(n)|) <= TimeLimit ==>
               forall m :: m in g.moves(n) ==> Scored(m, -Value(g, g.play(n, m), d - 1)) in mv'.entries
    ensures Run(g, n, depth, elapsed, mv', searches + [mv'], starts + [total], d)
  {
    assert Continued(g, searches + [mv'], starts + [total]) by {
      ContinuedStep(g, searches, starts, mv', total);
    }
    assert Settled(g, n, elapsed, mv', total, d);
    assert Last(searches + [mv']) == mv' && Last(starts + [total]) == total;
  }

  /** At the end of a run with root moves, the first entry's move is one whose position is
      worst for the opponent at the last depth, when the last search had its time. */
  lemma RunBest(g: Game, n: Node, depth: int, elapsed: (int, nat) -> nat, mv: MoveVals,
                searches: seq<MoveVals>, starts: seq<nat>, lastDepth: int)
    requires ValidGame(g) && Run(g, n, depth, elapsed, mv, searches, starts, lastDepth)
    requires g.moves(n) != [] && Bounded(g) && Last(starts) + Spent(elapsed, lastDepth, |g.moves(n)|) <= TimeLimit
    ensures mv.entries != [] && mv.entries[0].move in g.moves(n)
    ensures forall m :: m in g.moves(n) ==>
              Value(g, g.play(n, mv.entries[0].move), lastDepth - 1) <= Value(g, g.play(n, m), lastDepth - 1)
  {
    assert mv.entries[0] in mv.entries;
    FirstIsBest(g, n, lastDepth, mv.entries);
  }

  /** One pass of the deepening loop: the root NegaMax one ply deeper, from the entries of
      the last search. */
  method DeepenOnce(g: Game, n: Node, depth: int, elapsed: (int, nat) -> nat, mv: MoveVals, total: nat,
                    ghost searches: seq<MoveVals>, ghost starts: seq<nat>, lastDepth: int)
    returns (mv': MoveVals, total': nat, ghost searches': seq<MoveVals>, ghost starts': seq<nat>,
             lastDepth': int)
    requires ValidGame(g) && Sorts(g) && Run(g, n, depth, elapsed, mv, searches, starts, lastDepth)
    requires depth == -1 && !MateFound(g, mv) && lastDepth + 1 < 1000 && total < TimeLimit
    ensures Run(g, n, depth, elapsed, mv', searches', starts', lastDepth')
    ensures lastDepth' == lastDepth + 1
  {
    var d := lastDepth + 1;
    mv', total' := RootNegaMax(g, n, d, TimeLimit, total, mv, elapsed);
    RunStep(g, n, depth, elapsed, mv, searches, starts, lastDepth, d, total, mv');
    searches', starts', lastDepth' := searches + [mv'], starts + [total], d;
  }

  /** The deepening loop of GetBestMove: while depth is -1, no mate has been found, the next
      working depth is below 1000 and the time used is below the limit, search one ply deeper. */
  method Deepen(g: Game, n: Node, depth: int, elapsed: (int, nat) -> nat, mv: MoveVals, total: nat,
                ghost searches: seq<MoveVals>, ghost starts: seq<nat>, lastDepth: int)
    returns (mv': MoveVals, total': nat, ghost searches': seq<MoveVals>, ghost starts': seq<nat>,
             lastDepth': int)
    requires ValidGame(g) && Sorts(g)
    requires Run(g, n, depth, elapsed, mv, searches, starts, lastDepth)
    ensures Run(g, n, depth, elapsed, mv', searches', starts', lastDepth')
    ensures depth != -1 ==> mv' == mv && total' == total
    ensures depth == -1 ==> MateFound(g, mv') || lastDepth' + 1 >= 1000 || total' >= TimeLimit
  {
    mv', total', searches', starts', lastDepth' := mv, total, searches, starts, lastDepth;
    var workingDepth := lastDepth + 1;
    while !MateFound(g, mv') && depth == -1 && workingDepth < 1000 && total' < TimeLimit
      invariant Run(g, n, depth, elapsed, mv', searches', starts', lastDepth')
      invariant workingDepth == lastDepth' + 1
      invariant depth != -1 ==> mv' == mv && total' == total
      decreases 1000 - workingDepth
    {
      mv', total', searches', starts', lastDepth' := DeepenOnce(g, n, depth, elapsed, mv', total', searches', starts', lastDepth');
      workingDepth := workingDepth + 1;
    }
  }

  /** The searches of GetBestMove: the root NegaMax at the working depth (1 for depth -1),
      then the deepening loop. */
  method Iterate(g: Game, n: Node, depth: int, elapsed: (int, nat) -> nat)
    returns (mv: MoveVals, ghost searches: seq<MoveVals>, ghost starts: seq<nat>, lastDepth: int, total: nat)
    requires ValidGame(g) && Sorts(g)
    ensures Run(g, n, depth, elapsed, mv, searches, starts, lastDepth)
    ensures depth == -1 ==> MateFound(g, mv) || lastDepth + 1 >= 1000 || total >= TimeLimit
  {
    var workingDepth := if depth == -1 then 1 else depth;
    mv, total := RootNegaMax(g, n, workingDepth, TimeLimit, 0, MoveVals([], -1), elapsed);
    RunStarts(g, n, depth, elapsed, mv, workingDepth);
    mv, total, searches, starts, lastDepth := Deepen(g, n, depth, elapsed, mv, total, [mv], [0], workingDepth);
  }

  /** The move GetBestMove answers below ply 150: the first move of the last sorted MoveVals
      of its searches, or the null move when there are no root moves. */
  method Choose(g: Game, n: Node, depth: int, elapsed: (int, nat) -> nat)
    returns (best: Move, ghost searches: seq<MoveVals>, ghost starts: seq<nat>, ghost lastDepth: int,
             ghost totalTime: nat)
    requires ValidGame(g) && Sorts(g)
    ensures 1 <= |searches| == |starts|
    ensures Run(g, n, depth, elapsed, Last(searches), searches, starts, lastDepth)
    ensures depth == -1 ==> MateFound(g, Last(searches)) || lastDepth + 1 >= 1000 || totalTime >= TimeLimit
    ensures g.moves(n) == [] ==> best == NullMove
    ensures g.moves(n) != [] ==> best in g.moves(n) && best == Last(searches).entries[0].move
    ensures g.moves(n) != [] && Bounded(g) && Last(starts) + Spent(elapsed, lastDepth, |g.moves(n)|) <= TimeLimit ==>
              forall m :: m in g.moves(n) ==>
                Value(g, g.play(n, best), lastDepth - 1) <= Value(g, g.play(n, m), lastDepth - 1)
  {
    var mv;
    mv, searches, starts, lastDepth, totalTime := Iterate(g, n, depth, elapsed);
    if mv.entries == [] {
      best := NullMove;
    } else {
      best := mv.entries[0].move;
      assert best in g.moves(n) by {
        assert mv.entries[0] in mv.entries;
      }
      if Bounded(g) && Last(starts) + Spent(elapsed, lastDepth, |g.moves(n)|) <= TimeLimit {
        RunBest(g, n, depth, elapsed, mv, searches, starts, lastDepth);
      }
    }
  }

  /** GetBestMove: a draw claim past ply 150; otherwise the root NegaMax at the given depth
      once, or, for depth -1, from depth 1 deepening while no mate has been found, the
      working depth is below 1000 and the time used is below the limit; the answer is the
      first move of the last sorted MoveVals. The ghost results record the run: the MoveVals
      of each root search (searched at depths 1, 2, ... for depth -1), the time used before
      each, the depth of the last one and the time used at the end. */
  method GetBestMove(g: Game, n: Node, depth: int, elapsed: (int, nat) -> nat)
    returns (best: Move, ghost searches: seq<MoveVals>, ghost starts: seq<nat>, ghost lastDepth: int,
             ghost totalTime: nat)
    requires ValidGame(g) && Sorts(g)
    ensures g.ply(n) > 150 ==> best == SpecialDraw
    ensures g.ply(n) <= 150 ==> 1 <= |searches| == |starts| && starts[0] == 0
    ensures g.ply(n) <= 150 ==>
              Rooted(g, n, Last(searches)) && Last(searches).moveCount == |g.moves(n)| &&
              Descending(Last(searches).entries)
    ensures g.ply(n) <= 150 && g.moves(n) == [] ==> best == NullMove
    ensures g.ply(n) <= 150 && g.moves(n) != [] ==> best in g.moves(n) && best == Last(searches).entries[0].move
    ensures g.ply(n) <= 150 && depth != -1 ==> |searches| == 1 && lastDepth == depth
    ensures g.ply(n) <= 150 && depth == -1 ==> lastDepth == |searches| < 1000
    ensures g.ply(n) <= 150 && depth == -1 ==>
              forall k :: 0 <= k < |searches| - 1 ==> !MateFound(g, searches[k]) && starts[k + 1] < TimeLimit
    ensures g.ply(n) <= 150 && depth == -1 ==>
              MateFound(g, Last(searches)) || lastDepth + 1 >= 1000 || totalTime >= TimeLimit
    ensures g.ply(n) <= 150 && g.moves(n) != [] && Bounded(g) &&
            Last(starts) + Spent(elapsed, lastDepth, |g.moves(n)|) <= TimeLimit ==>
              forall m :: m in g.moves(n) ==>
                Value(g, g.play(n, best), lastDepth - 1) <= Value(g, g.play(n, m), lastDepth - 1)
  {
    if g.ply(n) > 150 {
      best, searches, starts, lastDepth, totalTime := SpecialDraw, [], [], 0, 0;
    } else {
      best, searches, starts, lastDepth, totalTime := Choose(g, n, depth, elapsed);
    }
  }
}
