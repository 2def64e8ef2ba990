/**
 * The arithmetic of src/components/modals/TestWinModal.jsx: the estimated
 * points, the guarded setters for time and mistakes, and the rule that
 * enables the confirm button. Times are whole seconds: the time setter
 * stores `Math.floor` of what it accepts.
 */
module TestWinModal {
  import opened Wrappers
  import opened Scoring

  /** The guard `time <= MAX_TIME && mistakes <= MAX_MISTAKES && time > 0`. */
  predicate InScoringRange(time: int, mistakes: int)
  {
    time <= MaxTime && mistakes <= MaxMistakes && time > 0
  }

  /** The points the effect stores in `estimatedPoints`. */
  function EstimatedPoints(time: int, mistakes: int): (p: int)
    ensures p >= 0
    ensures !InScoringRange(time, mistakes) ==> p == 0
    ensures InScoringRange(time, mistakes) ==> (p > 0 <==> mistakes * MistakePenalty < MaxTime - time)
    ensures InScoringRange(time, mistakes) && mistakes >= 0 ==> p <= MaxTime - time
  {
    if InScoringRange(time, mistakes) then
      var timePoints := MaxTime - time;
      var mistakePenalty := mistakes * MistakePenalty;
      var calculatedPoints := if mistakePenalty < timePoints then timePoints - mistakePenalty else 0;
      calculatedPoints
    else
      0
  }

  /** In range, the estimate is the contract's formula. */
  lemma EstimateIsContractPoints(time: int, mistakes: int)
    requires InScoringRange(time, mistakes)
    ensures EstimatedPoints(time, mistakes) == ContractPoints(time, mistakes)
  {
  }

  /** Within the scoring range, a later time never raises the estimate. */
  lemma EstimateFallsWithTime(time: int, later: int, mistakes: int)
    requires InScoringRange(time, mistakes) && InScoringRange(later, mistakes) && time <= later
    ensures EstimatedPoints(later, mistakes) <= EstimatedPoints(time, mistakes)
  {
  }

  /** Within the scoring range, more mistakes never raise the estimate. */
  lemma EstimateFallsWithMistakes(time: int, mistakes: int, more: int)
    requires InScoringRange(time, mistakes) && InScoringRange(time, more) && mistakes <= more
    ensures EstimatedPoints(time, more) <= EstimatedPoints(time, mistakes)
  {
  }

  /**
   * handleTimeChange: `parseFloat` of the input (None for NaN); a value in
   * 1..MaxTime is stored floored, anything else leaves the time as it was.
   */
  function TimeChange(time: int, input: Option<real>): (t: int)
    ensures t == time || 1 <= t <= MaxTime
    ensures input.Some? && 1.0 <= input.value <= MaxTime as real ==>
              t as real <= input.value < t as real + 1.0
    ensures input.None? || input.value < 1.0 || input.value > MaxTime as real ==> t == time
  {
    match input
    case Some(value) =>
      if 1.0 <= value <= MaxTime as real then value.Floor else time
    case None => time
  }

  /**
   * handleMistakesChange: `parseInt` of the input (None for NaN); a value in
   * 0..MaxMistakes is stored, anything else leaves the count as it was.
   */
  function MistakesChange(mistakes: int, input: Option<int>): (m: int)
    ensures m == mistakes || 0 <= m <= MaxMistakes
    ensures input.Some? && 0 <= input.value <= MaxMistakes ==> m == input.value
    ensures input.None? || input.value < 0 || input.value > MaxMistakes ==> m == mistakes
  {
    match input
    case Some(value) =>
      if 0 <= value <= MaxMistakes then value else mistakes
    case None => mistakes
  }

  /** The setters keep in-range values in range, whatever is typed. */
  lemma SettersKeepRange(time: int, mistakes: int, timeInput: Option<real>, mistakesInput: Option<int>)
    requires InScoringRange(time, mistakes) && 0 <= mistakes
    ensures InScoringRange(TimeChange(time, timeInput), MistakesChange(mistakes, mistakesInput))
    ensures 0 <= MistakesChange(mistakes, mistakesInput)
  {
  }

  /** The confirm button is enabled unless `time <= 0 || time > MAX_TIME || mistakes > MAX_MISTAKES`. */
  function ConfirmEnabled(time: int, mistakes: int): (enabled: bool)
    ensures enabled <==> InScoringRange(time, mistakes)
  {
    !(time <= 0 || time > MaxTime || mistakes > MaxMistakes)
  }
}
