/** The alpha-beta window shared by every search generation: the AB helper of
    engine/src/search_internal.cpp and src/search_internal.cpp, and the fail-hard clamp
    that states what a window search returns. */
module SearchWindow {

  function Max(a: int, b: int): int
  {
    if a >= b then a else b
  }

  /** A value seen through the fail-hard window [lo, hi]: what a search with that window
      reports for a position whose true value is v. */
  function Clamp(v: int, lo: int, hi: int): int
  {
    if v >= hi then hi else if v <= lo then lo else v
  }

  /** With lo < hi, the clamp lies in the window, is exact inside it, and reaches hi exactly
      when v does. */
  lemma ClampInWindow(v: int, lo: int, hi: int)
    requires lo < hi
    ensures lo <= Clamp(v, lo, hi) <= hi
    ensures lo < v < hi ==> Clamp(v, lo, hi) == v
    ensures Clamp(v, lo, hi) == hi <==> v >= hi
    ensures v < hi ==> Clamp(v, lo, hi) == Max(lo, v)
  {
  }

  /** Negamax's mirror: a child searched with (-beta, -alpha), its result negated, is the
      negated value seen through (alpha, beta). */
  lemma ClampNegate(v: int, alpha: int, beta: int)
    requires alpha < beta
    ensures -Clamp(v, -beta, -alpha) == Clamp(-v, alpha, beta)
  {
  }

  /** The step every fail-hard loop takes: if the child's result r agrees with its value v
      through the child's window (-beta, -alpha), then the negated result cuts off at beta
      exactly when the negated value does, and otherwise raises alpha to the same bound. */
  lemma NegatedChild(alpha: int, beta: int, r: int, v: int)
    requires alpha < beta
    requires Clamp(r, -beta, -alpha) == Clamp(v, -beta, -alpha)
    ensures -r >= beta <==> -v >= beta
    ensures -r < beta ==> Max(alpha, -r) == Max(alpha, -v)
  {
    ClampNegate(r, alpha, beta);
    ClampNegate(v, alpha, beta);
    ClampInWindow(-r, alpha, beta);
    ClampInWindow(-v, alpha, beta);
  }

  /** AB(score, alpha, beta): true on a beta cutoff, alpha untouched; otherwise alpha rises
      to the score when the score beats it. The by-reference alpha is the second result. */
  method AB(score: int, alpha: int, beta: int) returns (cut: bool, alpha': int)
    ensures cut <==> score >= beta
    ensures cut ==> alpha' == alpha
    ensures !cut ==> alpha' == Max(alpha, score)
    ensures !cut && alpha < beta ==> alpha' < beta
    ensures alpha <= alpha'
  {
    alpha' := alpha;
    if score >= beta {
      return true, alpha';
    }
    if score > alpha' {
      alpha' := score;
    }
    return false, alpha';
  }

  /** The reference fail-hard result of scores seen in turn with AB from the window
      (alpha, beta): beta at the first cutoff, otherwise the best alpha. */
  function FailHard(alpha: int, beta: int, scores: seq<int>): int
    decreases |scores|
  {
    if scores == [] then alpha
    else if scores[0] >= beta then beta
    else FailHard(Max(alpha, scores[0]), beta, scores[1..])
  }

  /** The largest of the scores, or lo if it is larger. */
  function MaxFrom(lo: int, scores: seq<int>): int
    decreases |scores|
  {
    if scores == [] then lo else MaxFrom(Max(lo, scores[0]), scores[1..])
  }

  /** Running AB over the scores is the clamp of their maximum: fail-hard alpha-beta
      never misses the best score inside the window. */
  lemma {:induction false} FailHardIsClamp(alpha: int, beta: int, scores: seq<int>)
    requires alpha < beta
    ensures FailHard(alpha, beta, scores) == Clamp(MaxFrom(alpha, scores), alpha, beta)
    decreases |scores|
  {
    if scores != [] {
      MaxFromBounds(Max(alpha, scores[0]), scores[1..]);
      if scores[0] < beta {
        FailHardIsClamp(Max(alpha, scores[0]), beta, scores[1..]);
      }
    }
  }

  /** MaxFrom is at least its start and every score, and is one of them. */
  lemma {:induction false} MaxFromBounds(lo: int, scores: seq<int>)
    ensures MaxFrom(lo, scores) >= lo
    ensures forall x :: x in scores ==> MaxFrom(lo, scores) >= x
    ensures MaxFrom(lo, scores) == lo || MaxFrom(lo, scores) in scores
    decreases |scores|
  {
    if scores != [] {
      MaxFromBounds(Max(lo, scores[0]), scores[1..]);
      assert scores == [scores[0]] + scores[1..];
    }
  }

  /** MaxFrom sees only which scores occur: the order of the moves that produced them,
      and how often each occurs, do not change it. */
  lemma MaxFromSameScores(lo: int, a: seq<int>, b: seq<int>)
    requires forall x :: x in a ==> x in b
    requires forall x :: x in b ==> x in a
    ensures MaxFrom(lo, a) == MaxFrom(lo, b)
  {
    MaxFromBounds(lo, a);
    MaxFromBounds(lo, b);
  }

  /** Raising the start of MaxFrom raises its result the same way. */
  lemma {:induction false} MaxFromRaise(a: int, lo: int, scores: seq<int>)
    ensures MaxFrom(Max(a, lo), scores) == Max(a, MaxFrom(lo, scores))
    decreases |scores|
  {
    if scores != [] {
      assert Max(Max(a, lo), scores[0]) == Max(a, Max(lo, scores[0]));
      MaxFromRaise(a, Max(lo, scores[0]), scores[1..]);
    }
  }

  /** The best of a non-empty list of scores. */
  function Top(scores: seq<int>): int
    requires scores != []
  {
    MaxFrom(scores[0], scores[1..])
  }

  /** A loop that starts from alpha ends at the larger of alpha and the best score, and
      through the window that is the best score's clamp. */
  lemma TopFromAlpha(alpha: int, beta: int, scores: seq<int>)
    requires scores != [] && alpha < beta
    ensures MaxFrom(alpha, scores) == Max(alpha, Top(scores))
    ensures Clamp(MaxFrom(alpha, scores), alpha, beta) == Clamp(Top(scores), alpha, beta)
  {
    MaxFromRaise(alpha, scores[0], scores[1..]);
  }

  /** A loop that starts from the stand-pat score raised to alpha ends, through the window,
      at the clamp of the stand-pat fold. */
  lemma StandPatFromAlpha(alpha: int, beta: int, standPat: int, scores: seq<int>)
    requires alpha < beta
    ensures MaxFrom(Max(alpha, standPat), scores) == Max(alpha, MaxFrom(standPat, scores))
    ensures Clamp(MaxFrom(Max(alpha, standPat), scores), alpha, beta) == Clamp(MaxFrom(standPat, scores), alpha, beta)
  {
    MaxFromRaise(alpha, standPat, scores);
  }

  /** One step of a fail-hard loop measured against reference scores `vals`: alpha has
      reached cur, and folding the scores still to come from cur gives the reference fold
      from lo. The child of move i, searched with (-beta, -cur), returned r, which agrees
      through that window with its reference value -vals[i]. Then the loop cuts off exactly
      when the reference fold reaches beta, and otherwise the raised alpha carries the fold
      on to the next move. */
  lemma FailHardStep(lo: int, cur: int, beta: int, vals: seq<int>, i: nat, r: int)
    requires i < |vals| && cur < beta
    requires MaxFrom(cur, vals[i..]) == MaxFrom(lo, vals)
    requires Clamp(r, -beta, -cur) == Clamp(-vals[i], -beta, -cur)
    ensures -r >= beta <==> vals[i] >= beta
    ensures -r >= beta ==> MaxFrom(lo, vals) >= beta
    ensures -r < beta ==> MaxFrom(Max(cur, -r), vals[i + 1..]) == MaxFrom(lo, vals)
  {
    NegatedChild(cur, beta, r, -vals[i]);
    assert vals[i..] == [vals[i]] + vals[i + 1..];
    assert vals[i] in vals[i..];
    MaxFromBounds(cur, vals[i..]);
  }

  /** A score of move i that cannot raise alpha leaves the fold where it was: the loop moves
      on without changing alpha. */
  lemma FailHardSkip(lo: int, cur: int, vals: seq<int>, i: nat)
    requires i < |vals| && vals[i] <= cur
    requires MaxFrom(cur, vals[i..]) == MaxFrom(lo, vals)
    ensures MaxFrom(cur, vals[i + 1..]) == MaxFrom(lo, vals)
  {
    assert vals[i..][0] == vals[i];
    assert vals[i..][1..] == vals[i + 1..];
  }

  /** The loop ran to the end without a cutoff: alpha is the reference fold, below beta. */
  lemma FailHardDone(lo: int, cur: int, vals: seq<int>)
    requires MaxFrom(cur, vals[|vals|..]) == MaxFrom(lo, vals)
    ensures cur == MaxFrom(lo, vals)
  {
    assert vals[|vals|..] == [];
  }

  /** A search result r agrees with a value v through the window [lo, hi] when it reports
      the same clamp, and lies outside the window only when it is v itself (a terminal
      score, such as a draw or a mate, returned as it is). */
  predicate Agrees(r: int, v: int, lo: int, hi: int)
  {
    Clamp(r, lo, hi) == Clamp(v, lo, hi) && (lo <= r <= hi || r == v)
  }

  /** Principal-variation search: a child first searched with the null window
      (-cur - 1, -cur) whose negated result r does not land strictly inside (cur, beta) is
      not searched again, and that first result already agrees, through the full window
      (-beta, -cur), with the child's value. Only an exact terminal score outside the null
      window can report a cutoff there, and it is the value itself. */
  lemma NullWindowStep(cur: int, beta: int, r: int, v: int)
    requires cur < beta
    requires Agrees(r, v, -cur - 1, -cur)
    requires !(cur < -r < beta)
    ensures Clamp(r, -beta, -cur) == Clamp(v, -beta, -cur)
  {
  }
}
