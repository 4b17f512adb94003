/** src/search_internal.cpp: the second engine's fail-hard negamax with principal-variation
    search, killer moves and a quiescence search that skips illegal moves. As in EngineSearch,
    a position is a node of an abstract game tree (Game): MakeMove is the step to a child,
    UndoMove the step back, and the generators, the evaluation, the repetition test, the
    legality test IsKingSafe(~turn) after a move and the transposition table are fields of
    Game. TT::StoreEval is a log of stores threaded through the search, TT::Probe a function
    of it, and the static killer_moves array is a sequence threaded alongside it. The move
    orderings (MVVLVA, PVPrioity, Killer, All) are fields of Game that permute the list they
    are given; the principal variation they read is constant during a search, so it is folded
    into them.

    The null-window search of a later move goes `reduction` plies shallower than its
    re-search; the source passes depth - 2 (reduction 2). The full-width reference value
    (Value) agrees with the search for reduction 1, and the contracts say so. */
module SrcSearch {
  import opened SearchWindow

  /** A position of the game tree. */
  type Node = nat

  /** A move by its packed value, Move::GetValue(). */
  datatype Move = Move(value: nat)

  /** Move(0), the null move. */
  const NullMove: Move := Move(0)

  /** TT::ProbeLower, TT::ProbeExact and TT::ProbeUpper. */
  datatype Bound = Lower | Exact | Upper

  /** One TT::StoreEval call: hash, depth, searchDepth, score, bound and move. */
  datatype Store = Store(hash: int, depth: int, searchDepth: int, score: int, bound: Bound, move: Move)

  /** What TT::Probe returns: a score, ProbeFail when nothing usable is stored, and a move. */
  datatype Probe = Probe(score: int, move: Move)

  /** What the search threads through its calls: the stores made so far, the number of Negamax
      calls (what the limit is asked about) and the killer_moves array, indexed by searchDepth;
      its length is MAX_SEARCH_DEPTH. */
  datatype Trace = Trace(stores: seq<Store>, nodes: nat, killers: seq<Move>)

  /** The search's view of a board and of the collaborators it calls.
      - moves: GenerateAll. attacks: GenerateAttack. play: MakeMove.
      - legal: IsKingSafe(~turn) of the position a move reaches, i.e. the mover's king is safe.
      - isCapture: Move::IsCapture. repetition: IsThreefoldRepetition.
      - eval: Evaluation::Eval. noMove: Evaluation::EvalNoMove. hash: GetHash.
      - captureOrder: MVVLVA and then PVPrioity applied to a list of captures.
      - killerOrder: MoveOrdering::Killer(moves, killer).
      - order: MoveOrdering::All(board, ttMove, pv, moves).
      - rank: a measure that every capture lowers, so that quiescence ends.
      - probe, probeFail: TT::Probe and TT::ProbeFail.
      - limited, reached: a non-null SearchLimit and its Reached() after so many calls. */
  datatype Game = Game(
    moves: Node -> seq<Move>,
    attacks: Node -> seq<Move>,
    play: (Node, Move) -> Node,
    legal: Node -> bool,
    isCapture: Move -> bool,
    repetition: Node -> bool,
    eval: Node -> int,
    noMove: Node -> int,
    hash: Node -> int,
    captureOrder: (Node, seq<Move>) -> seq<Move>,
    killerOrder: (seq<Move>, Move) -> seq<Move>,
    order: (Node, Move, seq<Move>) -> seq<Move>,
    rank: Node -> nat,
    probe: (seq<Store>, int, int, int, int, int) -> Probe,
    probeFail: int,
    limited: bool,
    reached: nat -> bool)

  /** What the search relies on: every capture lowers the rank. */
  ghost predicate ValidGame(g: Game)
  {
    forall n, m :: m in g.attacks(n) ==> g.rank(g.play(n, m)) < g.rank(n)
  }

  /** The orderings only permute the list they are given. */
  ghost predicate Permutes(g: Game)
  {
    (forall n: Node, s: seq<Move> :: multiset(g.captureOrder(n, s)) == multiset(s)) &&
    (forall s: seq<Move>, k: Move :: multiset(g.killerOrder(s, k)) == multiset(s)) &&
    (forall n: Node, k: Move, s: seq<Move> :: multiset(g.order(n, k, s)) == multiset(s))
  }

  /** The case in which the search computes the reference value: the table never answers,
      the generator yields only legal moves, and the null-window search is one ply shallower. */
  ghost predicate Plain(g: Game, reduction: int)
  {
    (forall l, h, d, sd, a, b :: g.probe(l, h, d, sd, a, b).score == g.probeFail) &&
    (forall n, m :: m in g.moves(n) ==> g.legal(g.play(n, m))) &&
    reduction == 1
  }

  // ---------------------------------------------------------------------------
  // Reference values

  /** The full-width quiescence value: the best of standing pat and every legal capture. */
  ghost function QValue(g: Game, n: Node): int
    requires ValidGame(g)
    decreases g.rank(n), 1
  {
    MaxFrom(g.eval(n), QChildren(g, n, g.attacks(n)))
  }

  /** The quiescence values of the captures ms, seen from n. A capture that leaves the
      mover's king unsafe is skipped by the search; here it stands in as the stand-pat
      score, which never raises the maximum that QValue takes from stand-pat. */
  ghost function QChildren(g: Game, n: Node, ms: seq<Move>): (r: seq<int>)
    requires ValidGame(g)
    requires forall m: Move :: m in ms ==> m in g.attacks(n)
    ensures |r| == |ms|
    decreases g.rank(n), 0, |ms|
  {
    if ms == [] then []
    else
      [if g.legal(g.play(n, ms[0])) then -QValue(g, g.play(n, ms[0])) else g.eval(n)] + QChildren(g, n, ms[1..])
  }

  /** The full-width negamax value at a remaining depth, with the source's terminal rules:
      repetition is a draw, depth 0 or below is quiescence, no moves is EvalNoMove. */
  ghost function Value(g: Game, n: Node, depth: int): int
    requires ValidGame(g)
    decreases if depth > 0 then depth else 0, 1
  {
    if g.repetition(n) then 0
    else if depth <= 0 then QValue(g, n)
    else if g.moves(n) == [] then g.noMove(n)
    else Top(Children(g, n, g.moves(n), depth - 1))
  }

  /** The values of the children reached by ms, each searched to depth d, seen from n. */
  ghost function Children(g: Game, n: Node, ms: seq<Move>, d: int): (r: seq<int>)
    requires ValidGame(g) && d >= 0
    ensures |r| == |ms|
    decreases d, 2, |ms|
  {
    if ms == [] then [] else [-Value(g, g.play(n, ms[0]), d)] + Children(g, n, ms[1..], d)
  }

  lemma {:induction false} QChildrenAt(g: Game, n: Node, ms: seq<Move>, i: nat)
    requires ValidGame(g) && i < |ms|
    requires forall m: Move :: m in ms ==> m in g.attacks(n)
    ensures QChildren(g, n, ms)[i] ==
              if g.legal(g.play(n, ms[i])) then -QValue(g, g.play(n, ms[i])) else g.eval(n)
    decreases |ms|
  {
    if i > 0 {
      QChildrenAt(g, n, ms[1..], i - 1);
    }
  }

  /** A capture that occurs in both lists contributes the same value to both. */
  lemma QChildOccurs(g: Game, n: Node, a: seq<Move>, b: seq<Move>, i: nat)
    requires ValidGame(g) && i < |a| && a[i] in b
    requires forall m: Move :: m in a ==> m in g.attacks(n)
    requires forall m: Move :: m in b ==> m in g.attacks(n)
    ensures QChildren(g, n, a)[i] in QChildren(g, n, b)
  {
    var j :| 0 <= j < |b| && b[j] == a[i];
    QChildrenAt(g, n, a, i);
    QChildrenAt(g, n, b, j);
  }

  /** Reordering the captures does not change which values occur. */
  lemma QChildrenReordered(g: Game, n: Node, a: seq<Move>, b: seq<Move>)
    requires ValidGame(g)
    requires forall m: Move :: m in a ==> m in b
    requires forall m: Move :: m in a ==> m in g.attacks(n)
    requires forall m: Move :: m in b ==> m in g.attacks(n)
    ensures forall x :: x in QChildren(g, n, a) ==> x in QChildren(g, n, b)
  {
    forall x | x in QChildren(g, n, a)
      ensures x in QChildren(g, n, b)
    {
      var i :| 0 <= i < |a| && QChildren(g, n, a)[i] == x;
      assert a[i] in a;
      QChildOccurs(g, n, a, b, i);
    }
  }

  lemma {:induction false} ChildrenAt(g: Game, n: Node, ms: seq<Move>, d: int, i: nat)
    requires ValidGame(g) && d >= 0 && i < |ms|
    ensures Children(g, n, ms, d)[i] == -Value(g, g.play(n, ms[i]), d)
    decreases |ms|
  {
    if i > 0 {
      ChildrenAt(g, n, ms[1..], d, i - 1);
    }
  }

  /** A move that occurs in both lists contributes the same value to both. */
  lemma ChildOccurs(g: Game, n: Node, a: seq<Move>, b: seq<Move>, d: int, i: nat)
    requires ValidGame(g) && d >= 0 && i < |a| && a[i] in b
    ensures Children(g, n, a, d)[i] in Children(g, n, b, d)
  {
    var j :| 0 <= j < |b| && b[j] == a[i];
    ChildrenAt(g, n, a, d, i);
    ChildrenAt(g, n, b, d, j);
  }

  /** Reordering the moves does not change which values occur. */
  lemma ChildrenReordered(g: Game, n: Node, a: seq<Move>, b: seq<Move>, d: int)
    requires ValidGame(g) && d >= 0
    requires forall m: Move :: m in a ==> m in b
    ensures forall x :: x in Children(g, n, a, d) ==> x in Children(g, n, b, d)
  {
    forall x | x in Children(g, n, a, d)
      ensures x in Children(g, n, b, d)
    {
      var i :| 0 <= i < |a| && Children(g, n, a, d)[i] == x;
      assert a[i] in a;
      ChildOccurs(g, n, a, b, d, i);
    }
  }

  /** A quiescence value is never below standing pat. */
  lemma QValueStandsPat(g: Game, n: Node)
    requires ValidGame(g)
    ensures QValue(g, n) >= g.eval(n)
  {
    MaxFromBounds(g.eval(n), QChildren(g, n, g.attacks(n)));
  }

  /** Folding the ordered captures' values from the stand-pat score raised to alpha gives the
      reference value raised to alpha. */
  lemma QuiesceFold(g: Game, n: Node, moves: seq<Move>, alpha: int)
    requires ValidGame(g)
    requires forall m: Move :: m in moves ==> m in g.attacks(n)
    requires forall m: Move :: m in g.attacks(n) ==> m in moves
    ensures MaxFrom(Max(alpha, g.eval(n)), QChildren(g, n, moves)) == Max(alpha, QValue(g, n))
  {
    QChildrenReordered(g, n, moves, g.attacks(n));
    QChildrenReordered(g, n, g.attacks(n), moves);
    MaxFromSameScores(Max(alpha, g.eval(n)), QChildren(g, n, moves), QChildren(g, n, g.attacks(n)));
    MaxFromRaise(alpha, g.eval(n), QChildren(g, n, g.attacks(n)));
  }

  // ---------------------------------------------------------------------------
  // Quiesce

  /** The captures in the order Quiesce tries them. */
  function QuiesceOrder(g: Game, n: Node): (r: seq<Move>)
    requires ValidGame(g) && Permutes(g)
    ensures forall m: Move :: m in r ==> m in g.attacks(n)
    ensures forall m: Move :: m in g.attacks(n) ==> m in r
  {
    var r := g.captureOrder(n, g.attacks(n));
    assert forall m: Move :: m in r ==> m in multiset(g.attacks(n));
    assert forall m: Move :: m in g.attacks(n) ==> m in multiset(r);
    r
  }

  /** Quiesce: stand pat, then the legal captures with AB; fail-hard. */
  method Quiesce(g: Game, n: Node, alpha: int, beta: int) returns (score: int)
    requires ValidGame(g) && Permutes(g)
    ensures g.eval(n) >= beta ==> score == beta
    ensures alpha < beta ==> alpha <= score <= beta
    ensures alpha < beta && g.eval(n) < beta ==> g.eval(n) <= score
    ensures alpha < beta ==> score == Clamp(QValue(g, n), alpha, beta)
    decreases g.rank(n), 1
  {
    var standPat := g.eval(n);
    var cut, a := AB(standPat, alpha, beta);
    if cut {
      QValueStandsPat(g, n);
      return beta;
    }
    var moves := QuiesceOrder(g, n);
    score := QuiesceCaptures(g, n, moves, a, beta);
    if alpha < beta {
      QuiesceFold(g, n, moves, alpha);
      if score < beta {
        ClampInWindow(QValue(g, n), alpha, beta);
      }
    }
  }

  /** The capture loop of Quiesce, from alpha already raised to stand pat: a capture that
      leaves the mover's king unsafe is undone and skipped; the others are folded fail-hard. */
  method QuiesceCaptures(g: Game, n: Node, moves: seq<Move>, alpha: int, beta: int) returns (score: int)
    requires ValidGame(g) && Permutes(g) && g.eval(n) <= alpha
    requires forall m: Move :: m in moves ==> m in g.attacks(n)
    ensures alpha < beta ==> alpha <= score <= beta
    ensures alpha < beta ==> (score == beta) == (MaxFrom(alpha, QChildren(g, n, moves)) >= beta)
    ensures alpha < beta && score < beta ==> score == MaxFrom(alpha, QChildren(g, n, moves))
    decreases g.rank(n), 0
  {
    ghost var vals := QChildren(g, n, moves);
    var a := alpha;
    var i := 0;
    while i < |moves|
      invariant 0 <= i <= |moves|
      invariant alpha <= a
      invariant alpha < beta ==> a < beta && MaxFrom(a, vals[i..]) == MaxFrom(alpha, vals)
    {
      var c := g.play(n, moves[i]);
      if !g.legal(c) {
        if alpha < beta {
          QChildrenAt(g, n, moves, i);
          FailHardSkip(alpha, a, vals, i);
        }
        i := i + 1;
        continue;
      }
      assert moves[i] in g.attacks(n);
      var child := Quiesce(g, c, -beta, -a);
      ghost var cur := a;
      var cut;
      cut, a := AB(-child, a, beta);
      if alpha < beta {
        QChildrenAt(g, n, moves, i);
        FailHardStep(alpha, cur, beta, vals, i, child);
      }
      if cut {
        return beta;
      }
      i := i + 1;
    }
    if alpha < beta {
      FailHardDone(alpha, a, vals);
    }
    return a;
  }

  // ---------------------------------------------------------------------------
  // Killer moves

  /** The killer table after a new search has reset it: every slot holds Move(0). */
  ghost predicate Cleared(killers: seq<Move>)
  {
    forall i :: 0 <= i < |killers| ==> killers[i] == NullMove
  }

  /** The reset loop at the start of a new search (searchDepth == 0). */
  method ClearKillers(killers: seq<Move>) returns (r: seq<Move>)
    ensures |r| == |killers| && Cleared(r)
  {
    r := killers;
    for i := 0 to |r|
      invariant |r| == |killers|
      invariant forall j :: 0 <= j < i ==> r[j] == NullMove
    {
      r := r[i := NullMove];
    }
  }

  /** The killer table as a Negamax call sees it after its entry: cleared by a new search
      (searchDepth 0), otherwise as it was handed in. */
  ghost function Entered(killers: seq<Move>, searchDepth: nat): (r: seq<Move>)
    ensures |r| == |killers|
  {
    if searchDepth == 0 then seq(|killers|, i => NullMove) else killers
  }

  // ---------------------------------------------------------------------------
  // Negamax

  /** The moves in the order Negamax tries them: the killer first when there is one, then
      MoveOrdering::All with the table's move. */
  function SearchOrder(g: Game, n: Node, killer: Move, tt: Move): seq<Move>
  {
    g.order(n, tt, if killer != NullMove then g.killerOrder(g.moves(n), killer) else g.moves(n))
  }

  /** The ordering tries every generated move and nothing else. */
  lemma SearchOrderPermutes(g: Game, n: Node, killer: Move, tt: Move)
    requires ValidGame(g) && Permutes(g)
    ensures |SearchOrder(g, n, killer, tt)| == |g.moves(n)|
    ensures forall m: Move :: m in SearchOrder(g, n, killer, tt) ==> m in g.moves(n)
    ensures forall m: Move :: m in g.moves(n) ==> m in SearchOrder(g, n, killer, tt)
  {
    var r := SearchOrder(g, n, killer, tt);
    assert multiset(r) == multiset(g.moves(n));
    assert forall m: Move :: m in r ==> m in multiset(g.moves(n));
    assert forall m: Move :: m in g.moves(n) ==> m in multiset(r);
  }

  /** The store a node makes when its move loop finishes or cuts off: a lower bound of beta
      with the legal cutting move, an exact score strictly inside the window with the legal
      move that raised alpha last, or an upper bound of the unraised alpha with the first
      move of the ordering, whether or not it was legal. */
  predicate NodeStore(g: Game, n: Node, depth: int, searchDepth: int, alpha: int, beta: int, score: int,
                      first: Move, e: Store)
  {
    e.hash == g.hash(n) && e.depth == depth && e.searchDepth == searchDepth && e.score == score &&
    ((e.bound == Lower && score == beta && e.move in g.moves(n) && g.legal(g.play(n, e.move))) ||
     (e.bound == Exact && alpha < score < beta && e.move in g.moves(n) && g.legal(g.play(n, e.move))) ||
     (e.bound == Upper && score == alpha && e.move == first))
  }

  /** What a Negamax call that was not aborted has done, from the stores and the killer table
      it saw after its entry, in the source's order of exits: repetition returns 0; depth 0 or
      below returns the quiescence result; a table hit returns the table's score; no moves
      returns EvalNoMove; each of these leaves the table and the killers alone. Otherwise the
      move loop ran: its bound is the last store (NodeStore, with the first move of the
      ordering as the upper bound's move), and this ply's killer is the cutting move when it
      cut off with a quiet move, and unchanged otherwise. */
  ghost predicate Searched(g: Game, n: Node, alpha: int, beta: int, depth: int, searchDepth: nat,
                           stores: seq<Store>, killers: seq<Move>, score: int, t': Trace)
    requires ValidGame(g)
  {
    if g.repetition(n) then
      score == 0 && t'.stores == stores && t'.killers == killers
    else if depth <= 0 then
      t'.stores == stores && t'.killers == killers &&
      (alpha < beta ==> score == Clamp(QValue(g, n), alpha, beta))
    else if g.probe(stores, g.hash(n), depth, searchDepth, alpha, beta).score != g.probeFail then
      score == g.probe(stores, g.hash(n), depth, searchDepth, alpha, beta).score &&
      t'.stores == stores && t'.killers == killers
    else if g.moves(n) == [] then
      score == g.noMove(n) && t'.stores == stores && t'.killers == killers
    else
      |t'.stores| > |stores| && searchDepth < |killers| == |t'.killers| &&
      var e := t'.stores[|t'.stores| - 1];
      var order := SearchOrder(g, n, killers[searchDepth], g.probe(stores, g.hash(n), depth, searchDepth, alpha, beta).move);
      order != [] && NodeStore(g, n, depth, searchDepth, alpha, beta, score, order[0], e) &&
      t'.killers[searchDepth] == (if e.bound == Lower && !g.isCapture(e.move) then e.move else killers[searchDepth])
  }

  /** Negamax: the killer reset of a new search, then the limit (only above depth 3), then
      the rest of the node. */
  method Negamax(g: Game, n: Node, alpha: int, beta: int, depth: int, searchDepth: nat, reduction: int, t: Trace)
    returns (score: int, aborted: bool, t': Trace)
    requires ValidGame(g) && Permutes(g) && reduction >= 1
    requires depth > 0 ==> searchDepth + depth <= |t.killers|
    ensures t.stores <= t'.stores && t.nodes <= t'.nodes && |t'.killers| == |t.killers|
    ensures forall k :: 0 <= k < searchDepth && k < |t.killers| ==> t'.killers[k] == t.killers[k]
    ensures !g.limited || depth <= 3 ==> !aborted
    ensures g.limited && depth > 3 && g.reached(t.nodes) ==> aborted
    ensures !aborted ==> Searched(g, n, alpha, beta, depth, searchDepth, t.stores, Entered(t.killers, searchDepth), score, t')
    ensures !aborted && Plain(g, reduction) && alpha < beta ==> Agrees(score, Value(g, n, depth), alpha, beta)
    decreases if depth > 0 then depth else 0, 5
  {
    var killers := t.killers;
    if searchDepth == 0 {
      killers := ClearKillers(t.killers);
      assert killers == Entered(t.killers, searchDepth);
    }
    if g.limited && depth > 3 && g.reached(t.nodes) {
      return 0, true, t.(killers := killers);
    }
    score, aborted, t' := NegamaxNode(g, n, alpha, beta, depth, searchDepth, reduction, Trace(t.stores, t.nodes + 1, killers));
  }

  /** Negamax after the killer reset and the limit: repetition, the quiescence hand-off at
      depth 0 or below, the table, no moves, and then the move loop with principal-variation
      search, which stores its bound and, on a quiet cutoff, the killer for its ply. */
  method NegamaxNode(g: Game, n: Node, alpha: int, beta: int, depth: int, searchDepth: nat, reduction: int, t: Trace)
    returns (score: int, aborted: bool, t': Trace)
    requires ValidGame(g) && Permutes(g) && reduction >= 1
    requires depth > 0 ==> searchDepth + depth <= |t.killers|
    ensures t.stores <= t'.stores && t.nodes <= t'.nodes && |t'.killers| == |t.killers|
    ensures forall k :: 0 <= k < searchDepth && k < |t.killers| ==> t'.killers[k] == t.killers[k]
    ensures !g.limited || depth <= 4 ==> !aborted
    ensures !aborted ==> Searched(g, n, alpha, beta, depth, searchDepth, t.stores, t.killers, score, t')
    ensures !aborted && Plain(g, reduction) && alpha < beta ==> Agrees(score, Value(g, n, depth), alpha, beta)
    decreases if depth > 0 then depth else 0, 4
  {
    t' := t;
    if g.repetition(n) {
      assert Value(g, n, depth) == 0;
      return 0, false, t';
    }
    if depth <= 0 {
      score := Quiesce(g, n, alpha, beta);
      assert Value(g, n, depth) == QValue(g, n);
      return score, false, t';
    }
    var hash := g.hash(n);
    var tt := g.probe(t.stores, hash, depth, searchDepth, alpha, beta);
    if tt.score != g.probeFail {
      assert !Plain(g, reduction);
      return tt.score, false, t';
    }
    if |g.moves(n)| == 0 {
      assert Value(g, n, depth) == g.noMove(n);
      return g.noMove(n), false, t';
    }
    var moves := SearchOrder(g, n, t.killers[searchDepth], tt.move);
    SearchOrderPermutes(g, n, t.killers[searchDepth], tt.move);
    score, aborted, t' := NegamaxMoves(g, n, moves, alpha, beta, depth, searchDepth, reduction, t);
    assert Value(g, n, depth) == Top(Children(g, n, g.moves(n), depth - 1));
  }

  /** Folding the ordered moves' values from alpha gives the reference value raised to alpha. */
  lemma NegamaxFold(g: Game, n: Node, moves: seq<Move>, alpha: int, beta: int, d: int)
    requires ValidGame(g) && d >= 0 && alpha < beta && g.moves(n) != []
    requires forall m: Move :: m in moves ==> m in g.moves(n)
    requires forall m: Move :: m in g.moves(n) ==> m in moves
    ensures MaxFrom(alpha, Children(g, n, moves, d)) == Max(alpha, Top(Children(g, n, g.moves(n), d)))
    ensures Clamp(MaxFrom(alpha, Children(g, n, moves, d)), alpha, beta) == Clamp(Top(Children(g, n, g.moves(n), d)), alpha, beta)
  {
    ChildrenReordered(g, n, moves, g.moves(n), d);
    ChildrenReordered(g, n, g.moves(n), moves, d);
    MaxFromSameScores(alpha, Children(g, n, moves, d), Children(g, n, g.moves(n), d));
    TopFromAlpha(alpha, beta, Children(g, n, g.moves(n), d));
  }

  /** What the move loop's fold means for the node: beta on a cutoff, the fold otherwise,
      agrees through the window with the node's reference value. */
  lemma LoopAgrees(g: Game, n: Node, moves: seq<Move>, alpha: int, beta: int, d: int, cut: bool, a: int)
    requires ValidGame(g) && d >= 0 && alpha < beta && g.moves(n) != []
    requires forall m: Move :: m in moves ==> m in g.moves(n)
    requires forall m: Move :: m in g.moves(n) ==> m in moves
    requires cut == (MaxFrom(alpha, Children(g, n, moves, d)) >= beta)
    requires !cut ==> a == MaxFrom(alpha, Children(g, n, moves, d))
    ensures Agrees(if cut then beta else a, Top(Children(g, n, g.moves(n), d)), alpha, beta)
  {
    NegamaxFold(g, n, moves, alpha, beta, d);
    if !cut {
      ClampInWindow(a, alpha, beta);
    }
  }

  /** A call of Negamax from a parent's move loop, seen through what the parent relies on:
      the table only grows, the killers of the plies above are kept, and the result agrees
      with the reference value. */
  method ChildNegamax(g: Game, c: Node, alpha: int, beta: int, depth: int, searchDepth: nat, reduction: int, t: Trace)
    returns (score: int, aborted: bool, t': Trace)
    requires ValidGame(g) && Permutes(g) && reduction >= 1 && searchDepth > 0
    requires depth > 0 ==> searchDepth + depth <= |t.killers|
    ensures t.stores <= t'.stores && t.nodes <= t'.nodes && |t'.killers| == |t.killers|
    ensures forall k :: 0 <= k < searchDepth && k < |t.killers| ==> t'.killers[k] == t.killers[k]
    ensures !g.limited || depth <= 3 ==> !aborted
    ensures !aborted && Plain(g, reduction) && alpha < beta ==> Agrees(score, Value(g, c, depth), alpha, beta)
    decreases if depth > 0 then depth else 0, 6
  {
    score, aborted, t' := Negamax(g, c, alpha, beta, depth, searchDepth, reduction, t);
  }

  /** One child's search (lines 75-81): the move at index 0 with the full window at depth - 1;
      a later move with the null window (-alpha - 1, -alpha) at depth - reduction, searched
      again with the full window at depth - 1 only when the negated result lands strictly
      inside (alpha, beta). The result is the child's own score, before negation. */
  method SearchChild(g: Game, c: Node, first: bool, alpha: int, beta: int, depth: int, searchDepth: nat,
                     reduction: int, t: Trace)
    returns (score: int, aborted: bool, t': Trace)
    requires ValidGame(g) && Permutes(g) && reduction >= 1 && depth > 0
    requires searchDepth + depth <= |t.killers|
    ensures t.stores <= t'.stores && t.nodes <= t'.nodes && |t'.killers| == |t.killers|
    ensures forall k :: 0 <= k <= searchDepth ==> t'.killers[k] == t.killers[k]
    ensures !g.limited || depth <= 4 ==> !aborted
    ensures !aborted && Plain(g, reduction) && alpha < beta ==>
              Clamp(score, -beta, -alpha) == Clamp(Value(g, c, depth - 1), -beta, -alpha)
    decreases depth, 0
  {
    if first {
      score, aborted, t' := ChildNegamax(g, c, -beta, -alpha, depth - 1, searchDepth + 1, reduction, t);
      return;
    }
    var r;
    r, aborted, t' := ChildNegamax(g, c, -alpha - 1, -alpha, depth - reduction, searchDepth + 1, reduction, t);
    if aborted {
      return r, true, t';
    }
    if alpha < -r < beta {
      score, aborted, t' := ChildNegamax(g, c, -beta, -alpha, depth - 1, searchDepth + 1, reduction, t');
      return;
    }
    if Plain(g, reduction) && alpha < beta {
      NullWindowStep(alpha, beta, r, Value(g, c, depth - 1));
    }
    return r, false, t';
  }

  /** One searched move of the loop: a child result that agrees with the child's value
      through the window either cuts off, and then so does the fold of all the values, or
      raises the running alpha to what the fold of the remaining values continues from. */
  lemma ChildStep(g: Game, n: Node, moves: seq<Move>, i: nat, d: int, alpha: int, cur: int, beta: int, r: int)
    requires ValidGame(g) && d >= 0 && i < |moves| && cur < beta
    requires MaxFrom(cur, Children(g, n, moves, d)[i..]) == MaxFrom(alpha, Children(g, n, moves, d))
    requires Clamp(r, -beta, -cur) == Clamp(Value(g, g.play(n, moves[i]), d), -beta, -cur)
    ensures -r >= beta ==> MaxFrom(alpha, Children(g, n, moves, d)) >= beta
    ensures -r < beta ==> MaxFrom(Max(cur, -r), Children(g, n, moves, d)[i + 1..]) == MaxFrom(alpha, Children(g, n, moves, d))
  {
    ChildrenAt(g, n, moves, d, i);
    FailHardStep(alpha, cur, beta, Children(g, n, moves, d), i, r);
  }

  /** One move of the loop: a move that leaves the mover's king unsafe is skipped (which a
      plain game never does); any other is searched, and its negated result either cuts off,
      and then so does the fold of all the values, or raised to the running alpha is what
      the fold of the remaining values continues from. */
  method SearchMove(g: Game, n: Node, moves: seq<Move>, i: nat, alpha: int, a: int, beta: int, depth: int,
                    searchDepth: nat, reduction: int, t: Trace)
    returns (searched: bool, value: int, aborted: bool, t': Trace)
    requires ValidGame(g) && Permutes(g) && reduction >= 1 && depth > 0 && i < |moves|
    requires searchDepth + depth <= |t.killers|
    requires moves[i] in g.moves(n)
    requires Plain(g, reduction) && alpha < beta ==>
               a < beta && MaxFrom(a, Children(g, n, moves, depth - 1)[i..]) == MaxFrom(alpha, Children(g, n, moves, depth - 1))
    ensures t.stores <= t'.stores && t.nodes <= t'.nodes && |t'.killers| == |t.killers|
    ensures forall k :: 0 <= k <= searchDepth ==> t'.killers[k] == t.killers[k]
    ensures !g.limited || depth <= 4 ==> !aborted
    ensures searched == g.legal(g.play(n, moves[i]))
    ensures !searched ==> !Plain(g, reduction) && t' == t && !aborted
    ensures !aborted && Plain(g, reduction) && alpha < beta && value >= beta ==>
              MaxFrom(alpha, Children(g, n, moves, depth - 1)) >= beta
    ensures !aborted && Plain(g, reduction) && alpha < beta && value < beta ==>
              MaxFrom(Max(a, value), Children(g, n, moves, depth - 1)[i + 1..]) == MaxFrom(alpha, Children(g, n, moves, depth - 1))
    decreases depth, 1
  {
    var c := g.play(n, moves[i]);
    if !g.legal(c) {
      return false, a, false, t;
    }
    var child;
    child, aborted, t' := SearchChild(g, c, i == 0, a, beta, depth, searchDepth, reduction, t);
    value := -child;
    searched := true;
    if !aborted && Plain(g, reduction) && alpha < beta {
      ChildStep(g, n, moves, i, depth - 1, alpha, a, beta, child);
    }
  }

  /** The move loop of Negamax, up to its bound: a move that leaves the mover's king unsafe
      is skipped; a value of at least beta cuts off; otherwise a value above alpha raises it and becomes bm, which starts as
      moves[0]. */
  method MoveLoop(g: Game, n: Node, moves: seq<Move>, alpha: int, beta: int, depth: int, searchDepth: nat,
                  reduction: int, t: Trace)
    returns (cut: bool, a: int, bound: Bound, bm: Move, aborted: bool, t': Trace)
    requires ValidGame(g) && Permutes(g) && reduction >= 1 && depth > 0 && moves != []
    requires searchDepth + depth <= |t.killers|
    requires forall m: Move :: m in moves ==> m in g.moves(n)
    requires forall m: Move :: m in g.moves(n) ==> m in moves
    ensures t.stores <= t'.stores && t.nodes <= t'.nodes && |t'.killers| == |t.killers|
    ensures forall k :: 0 <= k < searchDepth ==> t'.killers[k] == t.killers[k]
    ensures !g.limited || depth <= 4 ==> !aborted
    ensures t'.killers[searchDepth] == t.killers[searchDepth]
    ensures !aborted && cut ==> bm in g.moves(n) && g.legal(g.play(n, bm))
    ensures !aborted && !cut ==>
              (bound == Upper && a == alpha && bm == moves[0]) ||
              (bound == Exact && alpha < a < beta && bm in g.moves(n) && g.legal(g.play(n, bm)))
    ensures !aborted && Plain(g, reduction) && alpha < beta ==>
              cut == (MaxFrom(alpha, Children(g, n, moves, depth - 1)) >= beta) &&
              (!cut ==> a == MaxFrom(alpha, Children(g, n, moves, depth - 1)))
    decreases depth, 2
  {
    ghost var vals := Children(g, n, moves, depth - 1);
    cut, bound, bm, a, aborted := false, Upper, moves[0], alpha, false;
    t' := t;
    var i := 0;
    while i < |moves|
      invariant 0 <= i <= |moves|
      invariant t.stores <= t'.stores && t.nodes <= t'.nodes && |t'.killers| == |t.killers|
      invariant forall k :: 0 <= k <= searchDepth ==> t'.killers[k] == t.killers[k]
      invariant (bound == Upper && a == alpha && bm == moves[0]) ||
                (bound == Exact && alpha < a < beta && bm in g.moves(n) && g.legal(g.play(n, bm)))
      invariant Plain(g, reduction) && alpha < beta ==> a < beta && MaxFrom(a, vals[i..]) == MaxFrom(alpha, vals)
    {
      assert moves[i] in g.moves(n);
      var searched, value;
      searched, value, aborted, t' := SearchMove(g, n, moves, i, alpha, a, beta, depth, searchDepth, reduction, t');
      if aborted {
        return;
      }
      if searched {
        if value >= beta {
          return true, a, bound, moves[i], false, t';
        }
        if value > a {
          bound := Exact;
          a := value;
          bm := moves[i];
        }
      }
      i := i + 1;
    }
    if Plain(g, reduction) && alpha < beta {
      FailHardDone(alpha, a, vals);
    }
  }

  /** The move loop of Negamax with its stores: a cutoff stores a lower bound of beta with
      the cutting move, makes a quiet cutting move this ply's killer and returns beta; otherwise the bound is stored after the loop, exact
      if some move raised alpha, and alpha is returned. */
  method NegamaxMoves(g: Game, n: Node, moves: seq<Move>, alpha: int, beta: int, depth: int, searchDepth: nat,
                      reduction: int, t: Trace)
    returns (score: int, aborted: bool, t': Trace)
    requires ValidGame(g) && Permutes(g) && reduction >= 1 && depth > 0 && moves != []
    requires searchDepth + depth <= |t.killers|
    requires forall m: Move :: m in moves ==> m in g.moves(n)
    requires forall m: Move :: m in g.moves(n) ==> m in moves
    ensures t.stores <= t'.stores && t.nodes <= t'.nodes && |t'.killers| == |t.killers|
    ensures forall k :: 0 <= k < searchDepth ==> t'.killers[k] == t.killers[k]
    ensures !g.limited || depth <= 4 ==> !aborted
    ensures !aborted ==>
              |t'.stores| > |t.stores| &&
              var e := t'.stores[|t'.stores| - 1];
              NodeStore(g, n, depth, searchDepth, alpha, beta, score, moves[0], e) &&
              t'.killers[searchDepth] == (if e.bound == Lower && !g.isCapture(e.move) then e.move else t.killers[searchDepth])
    ensures !aborted && Plain(g, reduction) && alpha < beta ==>
              Agrees(score, Top(Children(g, n, g.moves(n), depth - 1)), alpha, beta)
    decreases depth, 3
  {
    var hash := g.hash(n);
    var cut, a, bound, bm;
    cut, a, bound, bm, aborted, t' := MoveLoop(g, n, moves, alpha, beta, depth, searchDepth, reduction, t);
    if aborted {
      return 0, true, t';
    }
    if Plain(g, reduction) && alpha < beta {
      assert moves[0] in g.moves(n);
      LoopAgrees(g, n, moves, alpha, beta, depth - 1, cut, a);
    }
    if cut {
      t' := t'.(stores := t'.stores + [Store(hash, depth, searchDepth, beta, Lower, bm)]);
      if !g.isCapture(bm) {
        t' := t'.(killers := t'.killers[searchDepth := bm]);
      }
      return beta, false, t';
    }
    t' := t'.(stores := t'.stores + [Store(hash, depth, searchDepth, a, bound, bm)]);
    return a, false, t';
  }
}
