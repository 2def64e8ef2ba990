/**
 * The live points preview of src/components/PointsDisplay.jsx. The game
 * timer it reads counts fractional seconds, so `timer` is a real here.
 */
module PointsDisplay {
  import opened Scoring
  import TestWinModal

  /** The memoised `points`: zero once the penalty reaches the time points, else the floored difference. */
  function Points(timer: real, mistakes: int): (p: int)
    ensures p >= 0
    ensures (mistakes * MistakePenalty) as real >= MaxTime as real - timer ==> p == 0
    ensures (mistakes * MistakePenalty) as real < MaxTime as real - timer ==>
              p as real <= MaxTime as real - timer - (mistakes * MistakePenalty) as real < p as real + 1.0
  {
    var timePoints := MaxTime as real - timer;
    var mistakePenalty := (mistakes * MistakePenalty) as real;
    if mistakePenalty >= timePoints then 0
    else
      var floored := (timePoints - mistakePenalty).Floor;
      if floored < 0 then 0 else floored
  }

  /** More mistakes never raise the points. */
  lemma PointsFallWithMistakes(timer: real, m1: int, m2: int)
    requires m1 <= m2
    ensures Points(timer, m2) <= Points(timer, m1)
  {
  }

  /** A later time never raises the points. */
  lemma PointsFallWithTime(t1: real, t2: real, mistakes: int)
    requires t1 <= t2
    ensures Points(t2, mistakes) <= Points(t1, mistakes)
  {
  }

  /** On whole seconds the preview is the contract's formula. */
  lemma PointsAreContractPoints(time: int, mistakes: int)
    ensures Points(time as real, mistakes) == ContractPoints(time, mistakes)
  {
  }

  /** Within the submission ranges the preview and the test modal's estimate agree. */
  lemma PointsMatchEstimate(time: int, mistakes: int)
    requires 1 <= time <= MaxTime && 0 <= mistakes <= MaxMistakes
    ensures Points(time as real, mistakes) == TestWinModal.EstimatedPoints(time, mistakes)
  {
    PointsAreContractPoints(time, mistakes);
    TestWinModal.EstimateIsContractPoints(time, mistakes);
  }
}
