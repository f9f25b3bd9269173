/** Score-to-reward conversion of the score submission handler. */
module Scoring {

  const PointsPerDiamond := 100

  /** What `parseInt(pontos)` produced: an integer, or NaN when nothing parses. */
  datatype Parsed = NaN | Number(n: int)

  /** `parseInt(pontos) || 0`: NaN is falsy and becomes 0; a negative number is kept as it is. */
  function PointsOrZero(p: Parsed): int
  {
    match p
    case NaN => 0
    case Number(n) => n
  }

  /**
    `Math.floor(pontosNum / 100)`: the largest d with 100 * d <= points, so it
    rounds toward minus infinity for negative points.
  */
  function DiamondReward(points: int): (d: int)
    ensures PointsPerDiamond * d <= points < PointsPerDiamond * d + PointsPerDiamond
  {
    points / PointsPerDiamond
  }

  /** Negative points are not clamped: -250 points take 3 diamonds away; 250 points give 2. */
  lemma RewardExamples()
    ensures DiamondReward(PointsOrZero(Number(-250))) == -3
    ensures DiamondReward(PointsOrZero(Number(250))) == 2
    ensures DiamondReward(PointsOrZero(Number(99))) == 0
    ensures DiamondReward(PointsOrZero(NaN)) == 0
  {
  }
}
