/**
 * The scoring constants that src/components/PointsDisplay.jsx and
 * src/components/modals/TestWinModal.jsx both copy from the leaderboard
 * contract, and the contract's formula itself, used here as the reference
 * both client-side computations must agree with.
 */
module Scoring {

  /** Two hours, in seconds. */
  const MaxTime := 7200
  /** The most mistakes a submitted score may carry. */
  const MaxMistakes := 9
  const MistakePenalty := 100

  /** The leaderboard contract's points: max(0, (MaxTime - time) - mistakes * MistakePenalty). */
  function ContractPoints(time: int, mistakes: int): int
  {
    var raw := (MaxTime - time) - mistakes * MistakePenalty;
    if raw < 0 then 0 else raw
  }
}
