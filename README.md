# spanish-game: the answer-scoring engine in Dafny

This project models the core of a vocabulary quiz. The player types the
translation of a word. The round then compares the answer with the
solution and lowers the round's score by the cost of the mistakes. The
model covers four parts:

- **Alignment** (`match_strings.dfy`, module `MatchStrings`). `strings_score`
  is a weighted edit distance. It fills a cost matrix and a direction matrix
  over the two strings, with a fixed tie-break. It reads the optimal cost
  from the bottom-right cell. It then walks back to the origin and builds the
  two padded strings and the list of moves. The method `StringsScore` keeps
  the arrays and loops of the original, split into `CostMatrices`,
  `FillBorders`, `FillRow` and `ReadBack`. It is proved to compute exactly:
  - the ghost cost matrix `Cost`, defined row by row by the recurrence;
  - the direction matrix `Whence`;
  - the alignment `Align` read back from it.

  The lemmas then state what the alignment promises: the border costs, the
  minimum at every cell, the tie-break, the output lengths, that erasing the
  skip character gives back the inputs, that the cost is the sum of the step
  costs, that no other alignment is cheaper, nonnegativity, self-alignment, and symmetry.
- **Round scoring** (`round.dfy`, module `Round`). `GameRound` is a class
  with the fields `score` and `correct`. `PlayRound` sorts the answer into
  four cases: exact, accent-only, empty, or other. It updates the fields as
  the ghost function `RoundScore` prescribes. `DifferenceOnlyAccents` is the
  position-by-position check with an early return.
- **Settings** (`settings.dfy`, module `GameSettings`). These are the five
  settings fields. When SCORE_ROUND is supplied explicitly, the validator
  rejects a value that is not strictly above both the skip cost and the
  misalignment cost.
- **Text cleaning** (`converter.dfy`, module `Converter`). There are two
  passes: `RemoveNewlines` joins lines broken inside a sentence, and
  `RemoveBrackets` drops " (" … ")" remarks using a nesting counter.

Costs are exact `real` numbers. Direction codes are the original's
integers: -1 for left, 1 for top, 0 for diagonal, and -10000 for the
sentinel in cell (0, 0).

## Model

| member | source | states |
|---|---|---|
| MatchStrings.CostChar | src/spanish_game/match_strings.py:4-5 | equal characters cost 0, different ones cost the misalignment cost |
| MatchStrings.Choose | src/spanish_game/match_strings.py:30-37 | tie-break of a cell: left when the left move attains the minimum, top when only top and diagonal do and top attains it, diagonal only when strictly cheaper than both |
| MatchStrings.Move | src/spanish_game/match_strings.py:49-65 | the walk back moves left along row 0, up along column 0, and otherwise follows the stored code, treating any code other than -1/1 as diagonal |
| MatchStrings.StepAt | src/spanish_game/match_strings.py:50-65 | each move adds one column: either a skip or the next character of a, either a skip or the next character of b, and it strictly shrinks i + j |
| MatchStrings.StringsScore | src/spanish_game/match_strings.py:8-69 | optcost is the bottom-right cell of the cost matrix, and (a1, b1, directions) is the alignment read back from the direction matrix |
| MatchStrings.CostMatrices | src/spanish_game/match_strings.py:14-38 | after filling, every cell of c and whence equals the cost and direction matrices cell for cell |
| MatchStrings.FillBorders | src/spanish_game/match_strings.py:18-23 | row 0 and column 0 hold their border costs and the codes left/top, with the sentinel at (0, 0) |
| MatchStrings.FillRow | src/spanish_game/match_strings.py:26-38 | fills the inner cells of one row from their neighbours and changes no other cell |
| MatchStrings.ReadBack | src/spanish_game/match_strings.py:43-67 | the prepending loop produces exactly the alignment read back from any direction matrix that agrees with the stored codes |
| MatchStrings.CostRecurrence | src/spanish_game/match_strings.py:18-31 | every cell of the cost matrix satisfies the recurrence: 0 at the origin, one more skip along the borders, the minimum of the three moves inside |
| MatchStrings.CellIsMinimum | src/spanish_game/match_strings.py:27-37 | an inner cell is at most each of the three moves, equals one of them, and its direction is the tie-break of the three |
| MatchStrings.FirstRowCost | src/spanish_game/match_strings.py:18 | c[0][j] = j·c_skip |
| MatchStrings.FirstColumnCost | src/spanish_game/match_strings.py:19 | c[i][0] = i·c_skip |
| MatchStrings.AlignEmptyFirst | src/spanish_game/match_strings.py:50-54 | from (0, j) the walk only moves left: a1 is j skip characters, b1 is b[..j], all moves are -1 (so strings_score("", b) returns len(b) skips against b) |
| MatchStrings.AlignEmptySecond | src/spanish_game/match_strings.py:55-59 | from (i, 0) the walk only moves up: a1 is a[..i], b1 is i skip characters, all moves are 1 |
| MatchStrings.AlignedLengths | src/spanish_game/match_strings.py:43-67 | a1, b1 and directions have the same length, at least each input's length and at most their sum |
| MatchStrings.EraseSkipsRecoversInputs | src/spanish_game/match_strings.py:50-65 | if the skip character occurs in neither input, deleting it from a1 gives a and from b1 gives b |
| MatchStrings.EraseSkipsFirst | src/spanish_game/match_strings.py:50-65 | without skip characters in a, deleting them from a1 gives a[..i] |
| MatchStrings.EraseSkipsSecond | src/spanish_game/match_strings.py:50-65 | without skip characters in b, deleting them from b1 gives b[..j] |
| MatchStrings.CostFollowsMove | src/spanish_game/match_strings.py:27-38 | the code stored in a cell points to the neighbour whose cost plus the move's cost gives that cell's cost |
| MatchStrings.PathCostOfMoves | src/spanish_game/match_strings.py:47-68 | for any direction matrix consistent with a cost matrix, a cell's cost is the sum of the step costs of the alignment read back from it |
| MatchStrings.CostIsSumOfSteps | src/spanish_game/match_strings.py:47-68 | optcost is the sum over the move list of c_skip per left or top move and costchar per diagonal move |
| MatchStrings.StepBound | src/spanish_game/match_strings.py:25-31 | a cell costs at most the cell any move comes from plus that move's cost |
| MatchStrings.CostIsOptimal | src/spanish_game/match_strings.py:39-42 | optcost is optimal: the alignment read back from any direction matrix, i.e. every monotone path back to (0, 0), costs at least the cell it starts from |
| MatchStrings.CostNonNegative | src/spanish_game/match_strings.py:18-31 | with nonnegative costs every cell, and so optcost, is nonnegative |
| MatchStrings.SelfCostIsZero | src/spanish_game/match_strings.py:25-31 | with nonnegative costs a string aligned with itself costs 0 |
| MatchStrings.AlignAlongDiagonal | src/spanish_game/match_strings.py:60-65 | a walk that moves diagonally from (i, i) rebuilds a[..i] on both sides with i diagonal moves |
| MatchStrings.SelfAlignmentIsFree | src/spanish_game/match_strings.py:25-65 | strings_score(a, a) with c_skip > 0 and a nonnegative misalignment cost returns cost 0, a1 == b1 == a, and only diagonal moves |
| MatchStrings.ZeroCostMeansEqual | src/spanish_game/match_strings.py:25-31 | with positive costs a zero-cost cell (i, j) means i = j and equal prefixes |
| MatchStrings.CostZeroIffEqual | src/spanish_game/match_strings.py:25-40 | with positive costs optcost is 0 exactly when the two strings are equal |
| MatchStrings.CostSymmetric | src/spanish_game/match_strings.py:18-31 | swapping the two strings transposes the cost matrix, so optcost does not depend on the order |
| MatchStrings.SubstitutionCostCounts | src/spanish_game/match_strings.py:4-5 | matching position by position costs the misalignment cost times the number of differing positions |
| MatchStrings.CostAtMostSubstitutions | src/spanish_game/match_strings.py:25-31 | the optimal cost is never above the position-by-position cost |
| GameSettings.ValidateScoreRound | src/spanish_game/settings.py:13-19 | fails with the "lower than the cost of a single mistake" message exactly when SCORE_ROUND ≤ COST_SKIP or SCORE_ROUND ≤ COST_MISALIGNMENT, and otherwise returns the value unchanged |
| GameSettings.MakeSettings | src/spanish_game/settings.py:6-19 | settings built from five explicitly supplied fields exist exactly when the validator accepts, and then hold those fields |
| GameSettings.AccentAndSkipCharacterUnconstrained | src/spanish_game/settings.py:9-19 | COST_ACCENT and SKIP_CHARACTER never decide whether validation succeeds |
| GameSettings.OneMistakeLeavesPositiveScore | src/spanish_game/settings.py:15 | in valid settings SCORE_ROUND − max(COST_SKIP, COST_MISALIGNMENT) > 0 |
| Round.DifferenceOnlyAccents | src/spanish_game/round.py:67-74 | true exactly when the lengths agree and at every position the characters are equal or the first is listed among the accent variants of the second |
| Round.PenaltyCountsDifferences | src/spanish_game/round.py:33-38 | the accent penalty is COST_ACCENT times the number of positions where answer and solution differ |
| Round.ClampAtZero | src/spanish_game/round.py:39 | max(0, x): never negative, never below x, and either 0 or x |
| Round.GameRound.constructor | src/spanish_game/round.py:14-19 | a round starts with score SCORE_ROUND, for any settings (validated or not) |
| Round.GameRound.PlayRound | src/spanish_game/round.py:21-48 | correct is set exactly when the answer equals the solution, and the new score follows the four cases of RoundScore |
| Round.GameRound.CalculateScore | src/spanish_game/round.py:50-62 | aligns the solution (first) with the answer and lowers the score by the optimal cost, clamped at 0; correct is unchanged |
| Round.ExactAnswerKeepsScore | src/spanish_game/round.py:25-27 | an exact answer keeps the score |
| Round.AccentOnlyPenalty | src/spanish_game/round.py:28-39 | an accent-only answer scores max(0, score − COST_ACCENT × number of differing positions) |
| Round.AccentOnlyLosesSomething | src/spanish_game/round.py:28-39 | an accent-only answer differs in some position, so with a positive accent cost it scores strictly less |
| Round.EmptyAnswerScoresZero | src/spanish_game/round.py:40-44 | an empty answer to a non-empty solution scores 0 |
| Round.MismatchLosesAlignmentCost | src/spanish_game/round.py:45-46 | with positive costs, any other wrong answer scores strictly less than the starting score |
| Round.ScoreStaysInRange | src/spanish_game/round.py:19-62 | with nonnegative costs the score after a round lies between 0 and the score before it |
| Round.OneTypoStillScores | src/spanish_game/round.py:46 | under valid settings, a same-length answer with one wrong character (not an accent variant) still earns a positive score |
| Converter.RemoveNewlines | src/text_formatter/converter.py:14-26 | same length; every character other than a newline is copied at its index; a newline becomes a space exactly when it is not last and the next character is alphanumeric and lower case, and stays a newline otherwise (a trailing one always) |
| Converter.RemoveBrackets | src/text_formatter/converter.py:29-39 | the result is what Strip keeps of the input, starting at level zero |
| Converter.StripIsSubsequence | src/text_formatter/converter.py:29-39 | the output is a subsequence of the input (strictly increasing source indices), so it is never longer |
| Converter.NoGroupUnchanged | src/text_formatter/converter.py:33-38 | without any " (" the text is returned unchanged, stray ")" included |
| Converter.OpenGroupDropsRest | src/text_formatter/converter.py:33-38 | while a level is open and no ")" follows, every character is dropped |
| Converter.ClosingParenthesis | src/text_formatter/converter.py:35-38 | a ")" at level 0 is kept; one at a positive level closes it and is dropped |
| Converter.RemarkRemoved | src/text_formatter/converter.py:33-38 | "a (b) c" becomes "a c" |

## Left out

- Interactive input and output are not modelled: asking for the answer
  (`input(...).lower()`) and every `print`. The answer is a parameter,
  assumed already lower-cased.
- `GameRound.__init__` reads the round number and the vocabulary from the
  game. The model starts a round directly from the settings with score
  SCORE_ROUND. The word/solution lookup in the vocabulary is replaced by
  the `solution` parameter.
- `correct` is not set in the original's constructor. The model starts it
  at `false`.
- The accent table `ACCENT_EQUIVALENTS` is imported from `definitions.py`
  (round.py:5), which does not define it. It is a parameter of type
  `map<char, set<char>>`.
- `calculate_score` passes a `c_accent` keyword (round.py:56) that
  `strings_score` does not accept: it has no such parameter and no
  `**kwargs` (match_strings.py:8). As written, every round with a general
  mismatch ends in a TypeError before its score is lowered. The model
  computes the intended score instead: it calls `strings_score` with the
  parameters it has, and the character cost is the two-way `costchar`. The
  printed padded strings are not modelled.
- Floating point is modelled as exact reals. The model assumes a finite
  COST_MISALIGNMENT. The default `c_misalignment = inf` of `strings_score`
  is not modelled, and neither is a COST_MISALIGNMENT of `inf` coming from
  the `config` module: the validator would reject it, but on the round's
  call path the validator does not run (see `GameSettings.MakeSettings`
  below).
- The other defaults of `strings_score`, `c_skip=1.0` and `skipchar="-"`
  (match_strings.py:8), are not modelled: the only caller passes every
  argument (round.py:51-58).
- The skip character is a single character. `SKIP_CHARACTER` is a string
  with no length check (settings.py:11), and its default comes from a
  `config` module that is not part of this model. With a longer skip string
  the original's padded strings grow faster than the move list, so
  `AlignedLengths` describes only the one-character case.
- `str.isalnum` and `str.lower` are Unicode library functions. They are
  parameters of `RemoveNewlines`.
- GameSettings.MakeSettings: covers only settings whose SCORE_ROUND is
  supplied explicitly. A pydantic field validator without `always=True`
  does not run on a default value, and `GameRound.__init__` calls
  `get_settings()` with no arguments (round.py:18), so on that path the
  validator never runs. `GameRound` therefore takes plain `Settings`, and
  only the lemmas that state so (such as `OneTypoStillScores`) assume
  validated settings.
- The default values of the settings come from a `config` module that is
  not part of this model.
- The pydantic machinery around the validator is not modelled: type
  coercion, and the lookup failing when COST_SKIP or COST_MISALIGNMENT
  was itself rejected.
- Not part of this model:
  - `game.py`: prompts, shuffling, and the game loop;
  - `user.py`: files, password hashing, persistence;
  - `vocabulary.py`, `data.py` and `game_mode.py`: spreadsheet wrappers;
  - `find_files` and `main` in `converter.py`: file I/O and CSV/Excel
    conversion.
