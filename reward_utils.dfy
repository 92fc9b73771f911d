/** `calculateReward`: one coin per 10 points (rounded down) plus 5 per game. */
module RewardUtils {

  const CoinsPerGame := 5
  const PointsPerCoin := 10

  /** `Math.floor(score / 10)`: Dafny's division by a positive divisor rounds down,
      negative scores included. */
  function CoinsFromScore(score: int): (c: int)
    ensures PointsPerCoin * c <= score < PointsPerCoin * c + PointsPerCoin
  {
    score / PointsPerCoin
  }

  function CalculateReward(score: int, games: int): (r: int)
    ensures PointsPerCoin * (r - CoinsPerGame * games) <= score
    ensures score < PointsPerCoin * (r - CoinsPerGame * games) + PointsPerCoin
  {
    CoinsFromScore(score) + games * CoinsPerGame
  }

  lemma CalculateRewardMonotone(s1: int, s2: int, g1: int, g2: int)
    requires s1 <= s2 && g1 <= g2
    ensures CalculateReward(s1, g1) <= CalculateReward(s2, g2)
  {
  }

  lemma CalculateRewardPerGame(score: int, games: int)
    ensures CalculateReward(score, games + 1) == CalculateReward(score, games) + CoinsPerGame
  {
  }

  lemma CalculateRewardSmallScore(score: int, games: int)
    requires 0 <= score < PointsPerCoin
    ensures CalculateReward(score, games) == CoinsPerGame * games
  {
  }
}
