/**
 * One round of the game: the player's answer is compared with the
 * solution and the round's score, which starts at SCORE_ROUND, is lowered
 * according to how the answer differs.
 *
 *   - exact answer: the round is correct and keeps its score;
 *   - same letters up to accents: one accent cost per differing position;
 *   - empty answer: the round scores nothing;
 *   - any other answer: the optimal alignment cost of the solution against
 *     the answer.
 *
 * The score never drops below zero.
 */
module Round {
  import MS = MatchStrings
  import opened GameSettings

  /** For each character, the characters accepted in its place when only
      the accent differs. */
  type AccentTable = map<char, set<char>>

  /** c1 may stand for c2: the table lists c1 among the variants of c2.  A
      character without an entry has no variants. */
  predicate AccentEquivalent(c1: char, c2: char, accents: AccentTable)
  {
    c2 in accents && c1 in accents[c2]
  }

  /** w1 and w2 have the same length and at every position hold the same
      character, or a character of w1 that the table accepts for the one in
      w2. */
  predicate OnlyAccentDifferences(w1: string, w2: string, accents: AccentTable)
  {
    |w1| == |w2| && forall i :: 0 <= i < |w1| ==> w1[i] == w2[i] || AccentEquivalent(w1[i], w2[i], accents)
  }

  /** Compares the two words position by position and stops at the first
      position that neither matches nor differs only by accent. */
  method DifferenceOnlyAccents(w1: string, w2: string, accents: AccentTable) returns (r: bool)
    ensures r <==> OnlyAccentDifferences(w1, w2, accents)
  {
    if |w1| != |w2| {
      return false;
    }
    for i := 0 to |w1|
      invariant forall k :: 0 <= k < i ==> w1[k] == w2[k] || AccentEquivalent(w1[k], w2[k], accents)
    {
      var c1, c2 := w1[i], w2[i];
      if !(c1 == c2 || (c2 in accents && c1 in accents[c2])) {
        return false;
      }
    }
    return true;
  }

  /** The accent penalty over the first n positions of answer and
      solution: the accent cost for each position where they differ. */
  function PenaltyUpTo(answer: string, solution: string, n: nat, costAccent: real): real
    requires n <= |answer| && n <= |solution|
  {
    if n == 0 then 0.0
    else PenaltyUpTo(answer, solution, n - 1, costAccent) + (if answer[n - 1] != solution[n - 1] then costAccent else 0.0)
  }

  /** The accent penalty of an answer: summed over the positions the two
      words share, as the pairing of a zip does. */
  function AccentPenalty(answer: string, solution: string, costAccent: real): real
  {
    PenaltyUpTo(answer, solution, if |answer| <= |solution| then |answer| else |solution|, costAccent)
  }

  /** The penalty is the accent cost times the number of differing
      positions. */
  lemma {:induction false} PenaltyCountsDifferences(answer: string, solution: string, n: nat, costAccent: real)
    requires n <= |answer| && n <= |solution|
    ensures PenaltyUpTo(answer, solution, n, costAccent) == (|MS.Mismatches(answer, solution, n)| as real) * costAccent
  {
    if n == 0 {
      assert MS.Mismatches(answer, solution, 0) == {};
    } else {
      PenaltyCountsDifferences(answer, solution, n - 1, costAccent);
      MS.MismatchesStep(answer, solution, n);
      var m := |MS.Mismatches(answer, solution, n - 1)|;
      assert ((m + 1) as real) * costAccent == (m as real) * costAccent + costAccent;
    }
  }

  /** max(0, x), the clamp applied to every lowered score. */
  function ClampAtZero(x: real): (r: real)
    ensures r >= 0.0 && r >= x
    ensures r == 0.0 || r == x
  {
    if x >= 0.0 then x else 0.0
  }

  /** The score left after a round that started with `score`. */
  ghost function RoundScore(score: real, solution: string, answer: string, accents: AccentTable, s: Settings): real
  {
    if solution == answer then score
    else if OnlyAccentDifferences(answer, solution, accents) then
      ClampAtZero(score - AccentPenalty(answer, solution, s.costAccent))
    else if answer == [] then 0.0
    else ClampAtZero(score - MS.Cost(solution, answer, |solution|, |answer|, s.costSkip, s.costMisalignment))
  }

  class GameRound {
    const settings: Settings
    var score: real
    var correct: bool

    /** A round starts at the full SCORE_ROUND. */
    constructor(settings: Settings)
      ensures this.settings == settings
      ensures score == settings.scoreRound && !correct
    {
      this.settings := settings;
      score := settings.scoreRound;
      correct := false;
    }

    /** Scores the answer given for the solution. */
    method PlayRound(solution: string, answer: string, accents: AccentTable)
      modifies this
      ensures correct <==> solution == answer
      ensures score == RoundScore(old(score), solution, answer, accents, settings)
    {
      if solution == answer {
        correct := true;
      } else {
        var onlyAccents := DifferenceOnlyAccents(answer, solution, accents);
        if onlyAccents {
          correct := false;
          var penalty := AccentPenalty(answer, solution, settings.costAccent);
          score := ClampAtZero(score - penalty);
        } else {
          correct := false;
          if answer == [] {
            score := 0.0;
          } else {
            CalculateScore(solution, answer);
          }
        }
      }
    }

    /** Aligns the answer with the solution, the solution first, and lowers
        the score by the optimal alignment cost. */
    method CalculateScore(solution: string, answer: string)
      modifies this
      ensures score == ClampAtZero(old(score) - MS.Cost(solution, answer, |solution|, |answer|, settings.costSkip, settings.costMisalignment))
      ensures correct == old(correct)
    {
      var optcost, a1, b1, _ := MS.StringsScore(solution, answer, settings.costSkip, settings.costMisalignment, settings.skipCharacter);
      score := ClampAtZero(score - optcost);
    }
  }

  /** An exact answer keeps the whole score. */
  lemma ExactAnswerKeepsScore(score: real, solution: string, accents: AccentTable, s: Settings)
    ensures RoundScore(score, solution, solution, accents, s) == score
  {
  }

  /** An answer that differs only by accents loses the accent cost once per
      differing position, down to zero. */
  lemma AccentOnlyPenalty(score: real, solution: string, answer: string, accents: AccentTable, s: Settings)
    requires solution != answer && OnlyAccentDifferences(answer, solution, accents)
    ensures RoundScore(score, solution, answer, accents, s)
         == ClampAtZero(score - (|MS.Mismatches(answer, solution, |answer|)| as real) * s.costAccent)
  {
    PenaltyCountsDifferences(answer, solution, |answer|, s.costAccent);
  }

  /** Such an answer differs in at least one position, so with a positive
      accent cost it always loses something from a positive score. */
  lemma AccentOnlyLosesSomething(score: real, solution: string, answer: string, accents: AccentTable, s: Settings)
    requires solution != answer && OnlyAccentDifferences(answer, solution, accents)
    requires s.costAccent > 0.0 && score > 0.0
    ensures RoundScore(score, solution, answer, accents, s) < score
  {
    var k :| 0 <= k < |answer| && answer[k] != solution[k];
    assert k in MS.Mismatches(answer, solution, |answer|);
    AccentOnlyPenalty(score, solution, answer, accents, s);
    var m := |MS.Mismatches(answer, solution, |answer|)|;
    assert m >= 1;
    assert (m as real) * s.costAccent >= s.costAccent;
  }

  /** An empty answer to a non-empty solution scores nothing. */
  lemma EmptyAnswerScoresZero(score: real, solution: string, accents: AccentTable, s: Settings)
    requires solution != []
    ensures RoundScore(score, solution, [], accents, s) == 0.0
  {
  }

  /** Any other answer loses the optimal cost of aligning the solution
      with it; with positive costs a wrong answer always loses something
      from a positive score. */
  lemma MismatchLosesAlignmentCost(score: real, solution: string, answer: string, accents: AccentTable, s: Settings)
    requires solution != answer && !OnlyAccentDifferences(answer, solution, accents) && answer != []
    requires s.costSkip > 0.0 && s.costMisalignment > 0.0 && score > 0.0
    ensures RoundScore(score, solution, answer, accents, s) < score
  {
    MS.CostZeroIffEqual(solution, answer, s.costSkip, s.costMisalignment);
    MS.CostNonNegative(solution, answer, |solution|, |answer|, s.costSkip, s.costMisalignment);
  }

  /** With nonnegative costs a round never raises the score and never
      leaves it negative. */
  lemma ScoreStaysInRange(score: real, solution: string, answer: string, accents: AccentTable, s: Settings)
    requires score >= 0.0
    requires s.costSkip >= 0.0 && s.costMisalignment >= 0.0 && s.costAccent >= 0.0
    ensures 0.0 <= RoundScore(score, solution, answer, accents, s) <= score
  {
    var n := if |answer| <= |solution| then |answer| else |solution|;
    PenaltyCountsDifferences(answer, solution, n, s.costAccent);
    MS.CostNonNegative(solution, answer, |solution|, |answer|, s.costSkip, s.costMisalignment);
  }

  /** A wrong answer of the right length with a single wrong character, in
      a fresh round under valid settings, still scores something: the
      alignment costs at most one misalignment. */
  lemma OneTypoStillScores(solution: string, answer: string, accents: AccentTable, s: ValidSettings)
    requires |answer| == |solution| && |MS.Mismatches(solution, answer, |solution|)| == 1
    requires !OnlyAccentDifferences(answer, solution, accents)
    ensures RoundScore(s.scoreRound, solution, answer, accents, s) > 0.0
  {
    var n := |solution|;
    assert solution != answer by {
      var k :| k in MS.Mismatches(solution, answer, n);
    }
    MS.CostAtMostSubstitutions(solution, answer, n, s.costSkip, s.costMisalignment);
    MS.SubstitutionCostCounts(solution, answer, n, s.costMisalignment);
  }
}
