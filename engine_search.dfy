/** engine/src/search_internal.cpp: the third generation's fail-hard negamax and quiescence
    search. The Board is not part of this model: a position is a node of an abstract game
    tree (Game), MakeMove is the step to a child and UndoMove the step back, so a board that
    a call leaves as it found it is the node value the caller still holds. The move
    generator, the evaluation, the repetition test and the transposition table are fields of
    Game. TT::StoreEval is recorded as a log of stores that the search threads through, and
    TT::Probe is a function of that log. SearchLimit is a node-count oracle whose Exit
    unwinds the whole search, reported here as `aborted`. Move ordering is the function
    EngineMoveOrdering.Ordering that MoveOrdering::All is proved to compute.

    Each search is a method with the source's loop; its partner is a full-width reference
    value (QValue, Value) with no window at all, and the method's contract is that its
    result agrees with the reference through the window (alpha-beta never changes the
    result, only the work), together with the order of its early exits and the bound it
    stores. */
module EngineSearch {
  import opened SearchWindow
  import opened ChessConstants
  import opened ChessMoveGen
  import EngineMoveOrdering
  import EngineEvaluation

  /** A position of the game tree. */
  type Node = nat

  /** TT::ProbeLower, TT::ProbeExact and TT::ProbeUpper. */
  datatype Bound = Lower | Exact | Upper

  /** One TT::StoreEval call: hash, depth, searchDepth, score, bound and move. */
  datatype Store = Store(hash: int, depth: int, searchDepth: int, score: int, bound: Bound, move: Move)

  /** What TT::Probe returns: a score, ProbeFail when nothing usable is stored, and a move
      to try first. */
  datatype Probe = Probe(score: int, move: Move)

  /** What the search threads through its calls: the stores made so far and the number of
      Negamax calls, which is what the limit is asked about. */
  datatype Trace = Trace(stores: seq<Store>, nodes: nat)

  /** The search's view of a board and of the collaborators it calls.
      - moves: GenerateMoves(pos), captures first; captures: how many of them are captures.
      - attacks: GenerateMoves<GenType::Attack>(pos).
      - play: MakeMove. repetition: IsThreefoldRepetition. kingSafe: IsKingSafe of the side
        to move. eval: Evaluation::Eval. hash: GetHash.
      - types and ply: Position::GetType per square and Board::Ply, which MVVLVA and
        PVPrioity read.
      - rank: a measure that every capture lowers (captures strictly reduce material), so
        that quiescence ends.
      - probe, probeFail: TT::Probe and TT::ProbeFail.
      - limited, reached: a non-null SearchLimit and its Reached() after so many calls.
      - tables: the evaluation tables, of which EvalNoMove reads MaterialValue::Inf. */
  datatype Game = Game(
    moves: Node -> seq<Move>,
    captures: Node -> nat,
    attacks: Node -> seq<Move>,
    play: (Node, Move) -> Node,
    repetition: Node -> bool,
    kingSafe: Node -> bool,
    eval: Node -> int,
    hash: Node -> int,
    types: Node -> seq<PieceType>,
    ply: Node -> nat,
    rank: Node -> nat,
    probe: (seq<Store>, int, int, int, int, int) -> Probe,
    probeFail: int,
    limited: bool,
    reached: nat -> bool,
    tables: EngineEvaluation.Tables)

  /** What the search relies on: the capture count fits the list, and captures lower the rank. */
  ghost predicate ValidGame(g: Game)
  {
    (forall n :: g.captures(n) <= |g.moves(n)|) &&
    (forall n, m :: m in g.attacks(n) ==> g.rank(g.play(n, m)) < g.rank(n))
  }

  /** A table that never answers: the search must be correct when every probe misses. */
  ghost predicate ProbesMiss(g: Game)
  {
    forall l, h, d, sd, a, b :: g.probe(l, h, d, sd, a, b).score == g.probeFail
  }

  /** Move(0), the null move. */
  const NullMove: Move := Move(MoveType.Quiet, 0, 0)

  // ---------------------------------------------------------------------------
  // Reference values

  /** The full-width quiescence value: the best of standing pat and every capture. */
  ghost function QValue(g: Game, n: Node): int
    requires ValidGame(g)
    decreases g.rank(n), 1
  {
    MaxFrom(g.eval(n), QChildren(g, n, g.attacks(n)))
  }

  /** The quiescence values of the captures ms, seen from n. */
  ghost function QChildren(g: Game, n: Node, ms: seq<Move>): (r: seq<int>)
    requires ValidGame(g)
    requires forall m :: m in ms ==> m in g.attacks(n)
    ensures |r| == |ms|
    decreases g.rank(n), 0, |ms|
  {
    if ms == [] then [] else [-QValue(g, g.play(n, ms[0]))] + QChildren(g, n, ms[1..])
  }

  /** The full-width negamax value at a remaining depth, with the source's terminal rules:
      repetition is a draw, depth 0 is quiescence, no moves is EvalNoMove. */
  ghost function Value(g: Game, n: Node, depth: int): int
    requires ValidGame(g) && depth >= 0
    decreases depth, 1
  {
    if g.repetition(n) then 0
    else if depth == 0 then QValue(g, n)
    else if g.moves(n) == [] then EngineEvaluation.EvalNoMove(g.kingSafe(n), g.tables)
    else Top(Children(g, n, g.moves(n), depth - 1))
  }

  /** The values of the children reached by ms, each searched to depth d, seen from n. */
  ghost function Children(g: Game, n: Node, ms: seq<Move>, d: int): (r: seq<int>)
    requires ValidGame(g) && d >= 0
    ensures |r| == |ms|
    decreases d, 2, |ms|
  {
    if ms == [] then [] else [-Value(g, g.play(n, ms[0]), d)] + Children(g, n, ms[1..], d)
  }

  lemma {:induction false} QChildrenAt(g: Game, n: Node, ms: seq<Move>, i: nat)
    requires ValidGame(g) && i < |ms|
    requires forall m :: m in ms ==> m in g.attacks(n)
    ensures QChildren(g, n, ms)[i] == -QValue(g, g.play(n, ms[i]))
    decreases |ms|
  {
    if i > 0 {
      QChildrenAt(g, n, ms[1..], i - 1);
    }
  }

  lemma {:induction false} ChildrenAt(g: Game, n: Node, ms: seq<Move>, d: int, i: nat)
    requires ValidGame(g) && d >= 0 && i < |ms|
    ensures Children(g, n, ms, d)[i] == -Value(g, g.play(n, ms[i]), d)
    decreases |ms|
  {
    if i > 0 {
      ChildrenAt(g, n, ms[1..], d, i - 1);
    }
  }

  /** A capture that occurs in both lists contributes the same value to both. */
  lemma QChildOccurs(g: Game, n: Node, a: seq<Move>, b: seq<Move>, i: nat)
    requires ValidGame(g) && i < |a| && a[i] in b
    requires forall m :: m in a ==> m in g.attacks(n)
    requires forall m :: m in b ==> m in g.attacks(n)
    ensures QChildren(g, n, a)[i] in QChildren(g, n, b)
  {
    var j :| 0 <= j < |b| && b[j] == a[i];
    QChildrenAt(g, n, a, i);
    QChildrenAt(g, n, b, j);
  }

  /** Reordering the captures does not change which values occur. */
  lemma QChildrenReordered(g: Game, n: Node, a: seq<Move>, b: seq<Move>)
    requires ValidGame(g)
    requires forall m :: m in a ==> m in b
    requires forall m :: m in a ==> m in g.attacks(n)
    requires forall m :: m in b ==> m in g.attacks(n)
    ensures forall x :: x in QChildren(g, n, a) ==> x in QChildren(g, n, b)
  {
    forall x | x in QChildren(g, n, a)
      ensures x in QChildren(g, n, b)
    {
      var i :| 0 <= i < |a| && QChildren(g, n, a)[i] == x;
      QChildOccurs(g, n, a, b, i);
    }
  }

  /** A move that occurs in both lists contributes the same value to both. */
  lemma ChildOccurs(g: Game, n: Node, a: seq<Move>, b: seq<Move>, d: int, i: nat)
    requires ValidGame(g) && d >= 0 && i < |a| && a[i] in b
    ensures Children(g, n, a, d)[i] in Children(g, n, b, d)
  {
    var j :| 0 <= j < |b| && b[j] == a[i];
    ChildrenAt(g, n, a, d, i);
    ChildrenAt(g, n, b, d, j);
  }

  /** Reordering the moves does not change which values occur. */
  lemma ChildrenReordered(g: Game, n: Node, a: seq<Move>, b: seq<Move>, d: int)
    requires ValidGame(g) && d >= 0
    requires forall m :: m in a ==> m in b
    ensures forall x :: x in Children(g, n, a, d) ==> x in Children(g, n, b, d)
  {
    forall x | x in Children(g, n, a, d)
      ensures x in Children(g, n, b, d)
    {
      var i :| 0 <= i < |a| && Children(g, n, a, d)[i] == x;
      ChildOccurs(g, n, a, b, d, i);
    }
  }

  /** A capture-only value is never below standing pat. */
  lemma QValueStandsPat(g: Game, n: Node)
    requires ValidGame(g)
    ensures QValue(g, n) >= g.eval(n)
  {
    MaxFromBounds(g.eval(n), QChildren(g, n, g.attacks(n)));
  }

  /** Folding the reordered captures' values from the stand-pat score raised to alpha gives
      the reference value raised to alpha. */
  lemma QuiesceFold(g: Game, n: Node, moves: seq<Move>, alpha: int)
    requires ValidGame(g)
    requires forall m :: m in moves ==> m in g.attacks(n)
    requires forall m :: m in g.attacks(n) ==> m in moves
    ensures MaxFrom(Max(alpha, g.eval(n)), QChildren(g, n, moves)) == Max(alpha, QValue(g, n))
  {
    QChildrenReordered(g, n, moves, g.attacks(n));
    QChildrenReordered(g, n, g.attacks(n), moves);
    MaxFromSameScores(Max(alpha, g.eval(n)), QChildren(g, n, moves), QChildren(g, n, g.attacks(n)));
    MaxFromRaise(alpha, g.eval(n), QChildren(g, n, g.attacks(n)));
  }

  // ---------------------------------------------------------------------------
  // Quiesce

  /** The captures in the order Quiesce tries them: MVVLVA, then PVPrioity (All with the null
      move as the table's move). */
  function QuiesceOrder(g: Game, n: Node, pv: EngineMoveOrdering.PV): (r: seq<Move>)
    ensures multiset(r) == multiset(g.attacks(n))
    ensures forall m :: m in r ==> m in g.attacks(n)
    ensures forall m :: m in g.attacks(n) ==> m in r
  {
    EngineMoveOrdering.OrderingPermutes(g.types(n), g.ply(n), NullMove, pv, g.attacks(n), |g.attacks(n)|);
    var r := EngineMoveOrdering.Ordering(g.types(n), g.ply(n), NullMove, pv, g.attacks(n), |g.attacks(n)|);
    assert forall m :: m in r ==> m in multiset(g.attacks(n));
    assert forall m :: m in g.attacks(n) ==> m in multiset(r);
    r
  }

  /** Quiesce: stand pat, then the captures with AB; fail-hard. */
  method Quiesce(g: Game, n: Node, alpha: int, beta: int, pv: EngineMoveOrdering.PV) returns (score: int)
    requires ValidGame(g)
    ensures g.eval(n) >= beta ==> score == beta
    ensures alpha < beta ==> alpha <= score <= beta
    ensures alpha < beta && g.eval(n) < beta ==> g.eval(n) <= score
    ensures alpha < beta ==> score == Clamp(QValue(g, n), alpha, beta)
    decreases g.rank(n), 1
  {
    var standPat := g.eval(n);
    var cut, a := AB(standPat, alpha, beta);
    if cut {
      QValueStandsPat(g, n);
      return beta;
    }
    var moves := QuiesceOrder(g, n, pv);
    score := QuiesceCaptures(g, n, moves, a, beta, pv);
    if alpha < beta {
      QuiesceFold(g, n, moves, alpha);
      if score < beta {
        ClampInWindow(QValue(g, n), alpha, beta);
      }
    }
  }

  /** The capture loop of Quiesce, from alpha already raised to stand pat: the fail-hard
      fold of the captures' reference values, cut off at beta. */
  method QuiesceCaptures(g: Game, n: Node, moves: seq<Move>, alpha: int, beta: int, pv: EngineMoveOrdering.PV)
    returns (score: int)
    requires ValidGame(g)
    requires forall m :: m in moves ==> m in g.attacks(n)
    ensures alpha < beta ==> alpha <= score <= beta
    ensures alpha < beta ==> (score == beta) == (MaxFrom(alpha, QChildren(g, n, moves)) >= beta)
    ensures alpha < beta && score < beta ==> score == MaxFrom(alpha, QChildren(g, n, moves))
    decreases g.rank(n), 0
  {
    ghost var vals := QChildren(g, n, moves);
    var a := alpha;
    var i := 0;
    while i < |moves|
      invariant 0 <= i <= |moves|
      invariant alpha <= a
      invariant alpha < beta ==> a < beta && MaxFrom(a, vals[i..]) == MaxFrom(alpha, vals)
    {
      var child := Quiesce(g, g.play(n, moves[i]), -beta, -a, pv);
      ghost var cur := a;
      var cut;
      cut, a := AB(-child, a, beta);
      if alpha < beta {
        QChildrenAt(g, n, moves, i);
        FailHardStep(alpha, cur, beta, vals, i, child);
      }
      if cut {
        return beta;
      }
      i := i + 1;
    }
    if alpha < beta {
      FailHardDone(alpha, a, vals);
    }
    return a;
  }

  // ---------------------------------------------------------------------------
  // Negamax

  /** TT::Probe(hash, depth, searchDepth, alpha, beta) against the stores made so far. */
  function ProbeAt(g: Game, t: Trace, n: Node, depth: int, searchDepth: int, alpha: int, beta: int): Probe
  {
    g.probe(t.stores, g.hash(n), depth, searchDepth, alpha, beta)
  }

  /** The store a node makes when its move loop finishes or cuts off: a lower bound of beta
      with the cutting move, an exact score strictly inside the window with the move that
      raised alpha last, or an upper bound of the unraised alpha with the null move. */
  predicate NodeStore(g: Game, n: Node, depth: int, searchDepth: int, alpha: int, beta: int, score: int, e: Store)
  {
    e.hash == g.hash(n) && e.depth == depth && e.searchDepth == searchDepth && e.score == score &&
    ((e.bound == Lower && score == beta && e.move in g.moves(n)) ||
     (e.bound == Exact && alpha < score < beta && e.move in g.moves(n)) ||
     (e.bound == Upper && score == alpha && e.move == NullMove))
  }

  /** The moves in the order Negamax tries them: MoveOrdering::All with the table's move. */
  function NegamaxOrder(g: Game, n: Node, tt: Move, pv: EngineMoveOrdering.PV): (r: seq<Move>)
    requires ValidGame(g)
    ensures forall m :: m in r ==> m in g.moves(n)
    ensures forall m :: m in g.moves(n) ==> m in r
  {
    EngineMoveOrdering.OrderingPermutes(g.types(n), g.ply(n), tt, pv, g.moves(n), g.captures(n));
    var r := EngineMoveOrdering.Ordering(g.types(n), g.ply(n), tt, pv, g.moves(n), g.captures(n));
    assert forall m :: m in r ==> m in multiset(g.moves(n));
    assert forall m :: m in g.moves(n) ==> m in multiset(r);
    r
  }

  /** Negamax: the limit (only above depth 1), repetition, the table, the quiescence hand-off
      at depth 0, no moves, and then the fail-hard move loop, which stores its bound. */
  method Negamax(g: Game, n: Node, alpha: int, beta: int, depth: int, searchDepth: int,
                 pv: EngineMoveOrdering.PV, t: Trace)
    returns (score: int, aborted: bool, t': Trace)
    requires ValidGame(g) && depth >= 0
    ensures t.stores <= t'.stores && t.nodes <= t'.nodes
    ensures !g.limited || depth <= 1 ==> !aborted
    ensures g.limited && depth > 1 && g.reached(t.nodes) ==> aborted
    ensures !aborted && g.repetition(n) ==> score == 0 && t'.stores == t.stores
    ensures !aborted && !g.repetition(n) && ProbeAt(g, t, n, depth, searchDepth, alpha, beta).score != g.probeFail ==>
              score == ProbeAt(g, t, n, depth, searchDepth, alpha, beta).score && t'.stores == t.stores
    ensures !aborted && !g.repetition(n) && ProbeAt(g, t, n, depth, searchDepth, alpha, beta).score == g.probeFail && depth == 0 ==>
              t'.stores == t.stores && (alpha < beta ==> score == Clamp(QValue(g, n), alpha, beta))
    ensures !aborted && !g.repetition(n) && ProbeAt(g, t, n, depth, searchDepth, alpha, beta).score == g.probeFail && depth > 0 && g.moves(n) == [] ==>
              score == EngineEvaluation.EvalNoMove(g.kingSafe(n), g.tables) && t'.stores == t.stores
    ensures !aborted && !g.repetition(n) && ProbeAt(g, t, n, depth, searchDepth, alpha, beta).score == g.probeFail && depth > 0 && g.moves(n) != [] ==>
              |t'.stores| > |t.stores| && NodeStore(g, n, depth, searchDepth, alpha, beta, score, t'.stores[|t'.stores| - 1])
    ensures !aborted && ProbesMiss(g) && alpha < beta ==> Clamp(score, alpha, beta) == Clamp(Value(g, n, depth), alpha, beta)
    decreases depth, 1
  {
    if g.limited && depth > 1 && g.reached(t.nodes) {
      return 0, true, t;
    }
    t' := t.(nodes := t.nodes + 1);
    if g.repetition(n) {
      assert Value(g, n, depth) == 0;
      return 0, false, t';
    }
    var hash := g.hash(n);
    var tt := g.probe(t'.stores, hash, depth, searchDepth, alpha, beta);
    if tt.score != g.probeFail {
      assert !ProbesMiss(g);
      return tt.score, false, t';
    }
    if depth == 0 {
      score := Quiesce(g, n, alpha, beta, pv);
      assert alpha < beta ==> Clamp(score, alpha, beta) == Clamp(Value(g, n, depth), alpha, beta) by {
        assert Value(g, n, depth) == QValue(g, n);
      }
      return score, false, t';
    }
    var moves := g.moves(n);
    if |moves| == 0 {
      assert Value(g, n, depth) == EngineEvaluation.EvalNoMove(g.kingSafe(n), g.tables);
      return EngineEvaluation.EvalNoMove(g.kingSafe(n), g.tables), false, t';
    }
    moves := NegamaxOrder(g, n, tt.move, pv);
    score, aborted, t' := NegamaxMoves(g, n, moves, alpha, beta, depth, searchDepth, pv, t');
    if !aborted && ProbesMiss(g) && alpha < beta {
      assert Clamp(score, alpha, beta) == Clamp(Value(g, n, depth), alpha, beta) by {
        assert Value(g, n, depth) == Top(Children(g, n, g.moves(n), depth - 1));
        NegamaxFold(g, n, moves, alpha, beta, depth - 1);
        if score < beta {
          ClampInWindow(score, alpha, beta);
        }
      }
    }
  }

  /** Folding the reordered moves' values from alpha gives the reference value raised to alpha. */
  lemma NegamaxFold(g: Game, n: Node, moves: seq<Move>, alpha: int, beta: int, d: int)
    requires ValidGame(g) && d >= 0 && alpha < beta && g.moves(n) != []
    requires forall m :: m in moves ==> m in g.moves(n)
    requires forall m :: m in g.moves(n) ==> m in moves
    ensures MaxFrom(alpha, Children(g, n, moves, d)) == Max(alpha, Top(Children(g, n, g.moves(n), d)))
    ensures Clamp(MaxFrom(alpha, Children(g, n, moves, d)), alpha, beta) == Clamp(Top(Children(g, n, g.moves(n), d)), alpha, beta)
  {
    ChildrenReordered(g, n, moves, g.moves(n), d);
    ChildrenReordered(g, n, g.moves(n), moves, d);
    MaxFromSameScores(alpha, Children(g, n, moves, d), Children(g, n, g.moves(n), d));
    TopFromAlpha(alpha, beta, Children(g, n, g.moves(n), d));
  }

  /** The move loop of Negamax: each child with the window (-beta, -alpha) one ply deeper; a
      value of at least beta stores a lower bound and returns beta; otherwise the bound is
      stored after the loop, exact if some move raised alpha. */
  method NegamaxMoves(g: Game, n: Node, moves: seq<Move>, alpha: int, beta: int, depth: int, searchDepth: int,
                      pv: EngineMoveOrdering.PV, t: Trace)
    returns (score: int, aborted: bool, t': Trace)
    requires ValidGame(g) && depth > 0
    requires forall m :: m in moves ==> m in g.moves(n)
    ensures t.stores <= t'.stores && t.nodes <= t'.nodes
    ensures !g.limited || depth <= 1 ==> !aborted
    ensures !aborted ==> |t'.stores| > |t.stores| && NodeStore(g, n, depth, searchDepth, alpha, beta, score, t'.stores[|t'.stores| - 1])
    ensures !aborted && ProbesMiss(g) && alpha < beta ==>
              (score == beta) == (MaxFrom(alpha, Children(g, n, moves, depth - 1)) >= beta)
    ensures !aborted && ProbesMiss(g) && alpha < beta && score < beta ==>
              score == MaxFrom(alpha, Children(g, n, moves, depth - 1))
    decreases depth, 0
  {
    ghost var vals := Children(g, n, moves, depth - 1);
    var hash := g.hash(n);
    var ttBound := Upper;
    var bm := NullMove;
    var a := alpha;
    t' := t;
    var i := 0;
    while i < |moves|
      invariant 0 <= i <= |moves|
      invariant t.stores <= t'.stores && t.nodes <= t'.nodes
      invariant (ttBound == Upper && a == alpha && bm == NullMove) ||
                (ttBound == Exact && alpha < a < beta && bm in g.moves(n))
      invariant ProbesMiss(g) && alpha < beta ==> a < beta && MaxFrom(a, vals[i..]) == MaxFrom(alpha, vals)
    {
      var move := moves[i];
      var child, childAborted;
      child, childAborted, t' := Negamax(g, g.play(n, move), -beta, -a, depth - 1, searchDepth + 1, pv, t');
      if childAborted {
        return 0, true, t';
      }
      var value := -child;
      if ProbesMiss(g) && alpha < beta {
        ChildrenAt(g, n, moves, depth - 1, i);
        FailHardStep(alpha, a, beta, vals, i, child);
      }
      if value >= beta {
        t' := t'.(stores := t'.stores + [Store(hash, depth, searchDepth, beta, Lower, move)]);
        return beta, false, t';
      }
      if value > a {
        ttBound := Exact;
        a := value;
        bm := move;
      }
      i := i + 1;
    }
    if ProbesMiss(g) && alpha < beta {
      FailHardDone(alpha, a, vals);
    }
    t' := t'.(stores := t'.stores + [Store(hash, depth, searchDepth, a, ttBound, bm)]);
    return a, false, t';
  }
}
