/**
 * The game settings: the cost of a skip, of a misaligned character and of
 * a wrong accent, the score a round is worth, and the character that pads
 * an alignment.  A SCORE_ROUND that is supplied explicitly is checked to
 * be worth strictly more than the cost of one mistake; a value left at its
 * default is not checked.
 */
module GameSettings {

  datatype Result<+T> = Success(value: T) | Failure(error: string)

  /** The message of the error raised when SCORE_ROUND is too low. */
  const ScoreTooLow: string := "Score provided by each round is lower than the cost of a single mistake!"

  datatype Settings = Settings(
    costSkip: real,
    costMisalignment: real,
    costAccent: real,
    scoreRound: real,
    skipCharacter: char)

  function Max(x: real, y: real): (m: real)
    ensures m >= x && m >= y
    ensures m == x || m == y
  {
    if x >= y then x else y
  }

  /** The validator of SCORE_ROUND: the value is rejected when it does not
      exceed the larger of the skip cost and the misalignment cost, and is
      returned unchanged otherwise. */
  function ValidateScoreRound(v: real, costSkip: real, costMisalignment: real): (r: Result<real>)
    ensures r.Failure? <==> v <= costSkip || v <= costMisalignment
    ensures r.Failure? ==> r.error == ScoreTooLow
    ensures r.Success? ==> r.value == v
  {
    if v <= Max(costSkip, costMisalignment) then Failure(ScoreTooLow) else Success(v)
  }

  /** Settings that passed validation. */
  predicate Valid(s: Settings)
  {
    s.scoreRound > s.costSkip && s.scoreRound > s.costMisalignment
  }

  type ValidSettings = s: Settings | Valid(s) witness Settings(1.0, 1.0, 1.0, 2.0, '-')

  /** Builds settings from five explicitly supplied fields, running the
      validator on SCORE_ROUND. */
  function MakeSettings(costSkip: real, costMisalignment: real, costAccent: real, scoreRound: real, skipCharacter: char)
    : (r: Result<ValidSettings>)
    ensures r.Success? <==> scoreRound > costSkip && scoreRound > costMisalignment
    ensures r.Success? ==> r.value == Settings(costSkip, costMisalignment, costAccent, scoreRound, skipCharacter)
    ensures r.Failure? ==> r.error == ScoreTooLow
  {
    match ValidateScoreRound(scoreRound, costSkip, costMisalignment)
    case Failure(e) => Failure(e)
    case Success(v) => Success(Settings(costSkip, costMisalignment, costAccent, v, skipCharacter))
  }

  /** The accent cost and the skip character play no part in validation. */
  lemma AccentAndSkipCharacterUnconstrained(costSkip: real, costMisalignment: real, scoreRound: real,
                                            costAccent1: real, skip1: char, costAccent2: real, skip2: char)
    ensures MakeSettings(costSkip, costMisalignment, costAccent1, scoreRound, skip1).Success?
        <==> MakeSettings(costSkip, costMisalignment, costAccent2, scoreRound, skip2).Success?
  {
  }

  /** In valid settings a single skip or a single misaligned character
      leaves a strictly positive round score. */
  lemma OneMistakeLeavesPositiveScore(s: ValidSettings)
    ensures s.scoreRound - Max(s.costSkip, s.costMisalignment) > 0.0
  {
  }
}
