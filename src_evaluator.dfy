/** src/headers/evaluator.hh: the second generation's evaluator, whose inline members
    combine per-colour terms. EvaluatePieceCount and the per-colour EvaluatePositionValue
    and EvaluatePawnStructure are defined in evaluator.cpp, which is not part of this model:
    their values for the board are the fields of Terms. PieceValue::Inf is the parameter inf. */
module SrcEvaluator {
  import opened ChessConstants
  import EngineEvaluation

  /** What evaluator.cpp computes for one board. */
  datatype Terms = Terms(pieceCount: int, positionWhite: int, positionBlack: int,
                         pawnsWhite: int, pawnsBlack: int)

  /** The same board with the colours swapped: White's terms become Black's, and the piece
      count, seen from White, changes sign. */
  function Mirror(t: Terms): Terms
  {
    Terms(-t.pieceCount, t.positionBlack, t.positionWhite, t.pawnsBlack, t.pawnsWhite)
  }

  /** SideModifier: negate for Black; White and Color::None keep the value. */
  function SideModifier(toMove: Color, value: int): int
  {
    if toMove == Color.Black then -value else value
  }

  /** EvaluatePositionValue(board): White's value minus Black's. */
  function PositionValue(t: Terms): int
  {
    t.positionWhite - t.positionBlack
  }

  /** EvaluatePawnStructure(board): White's value minus Black's. */
  function PawnStructure(t: Terms): int
  {
    t.pawnsWhite - t.pawnsBlack
  }

  /** Evaluate: piece count plus position value, from the side to move; the pawn structure
      term is not added. */
  function Evaluate(toMove: Color, t: Terms): int
  {
    SideModifier(toMove, t.pieceCount + PositionValue(t))
  }

  /** EvaluateNoMoves: checkmate is minus Inf, stalemate a draw. */
  function EvaluateNoMoves(isKingSafe: bool, inf: int): (r: int)
    ensures !isKingSafe ==> r == -inf
    ensures isKingSafe ==> r == 0
  {
    if !isKingSafe then -inf else 0
  }

  /** SideModifier flips sign between the two colours, is its own inverse, and treats
      Color::None as White. */
  lemma SideModifierFlips(toMove: Color, value: int)
    requires toMove != Color.None
    ensures SideModifier(Opposite(toMove), value) == -SideModifier(toMove, value)
    ensures SideModifier(toMove, SideModifier(toMove, value)) == value
    ensures SideModifier(Color.None, value) == SideModifier(Color.White, value)
  {
  }

  /** The two generations' SideModifier agree on White and Black and disagree on
      Color::None, where the engine's negates. */
  lemma SideModifierAgainstEngine(toMove: Color, value: int)
    ensures toMove != Color.None ==> SideModifier(toMove, value) == EngineEvaluation.SideModifier(toMove, value)
    ensures toMove == Color.None ==> SideModifier(toMove, value) == -EngineEvaluation.SideModifier(toMove, value)
  {
  }

  /** Swapping the colours negates both White-minus-Black terms. */
  lemma DifferencesAntisymmetric(t: Terms)
    ensures PositionValue(Mirror(t)) == -PositionValue(t)
    ensures PawnStructure(Mirror(t)) == -PawnStructure(t)
    ensures PositionValue(t) == 0 <== t.positionWhite == t.positionBlack
  {
  }

  /** Evaluate is symmetric: the side to move on a board sees the same score as the other
      side on the colour-swapped board, and the pawn terms never change it. */
  lemma EvaluateSymmetric(toMove: Color, t: Terms, pawnsWhite: int, pawnsBlack: int)
    requires toMove != Color.None
    ensures Evaluate(Opposite(toMove), Mirror(t)) == Evaluate(toMove, t)
    ensures Evaluate(Opposite(toMove), t) == -Evaluate(toMove, t)
    ensures Evaluate(toMove, t.(pawnsWhite := pawnsWhite, pawnsBlack := pawnsBlack)) == Evaluate(toMove, t)
  {
    SideModifierFlips(toMove, t.pieceCount + PositionValue(t));
  }

  /** Checkmate scores below stalemate for a positive Inf, and both agree with the engine's
      EvalNoMove. */
  lemma NoMovesAgainstEngine(isKingSafe: bool, inf: int)
    requires inf > 0
    ensures EvaluateNoMoves(false, inf) < EvaluateNoMoves(true, inf)
    ensures EvaluateNoMoves(isKingSafe, inf) == EngineEvaluation.EvalNoMove(isKingSafe, EngineEvaluation.Tables([], [], [], inf))
  {
  }
}
