/** `getTierFromScore`: a fixed five-step threshold ladder, 2500 points per step. */
module SeasonUtils {

  /** The tier number of a score: 1 below 2500, then one more per 2500 points, at most 5. */
  function TierFromScore(score: int): (t: int)
    ensures 1 <= t <= 5
    // every tier above 1 is reached at its lower threshold, inclusively
    ensures t > 1 ==> score >= 2500 * (t - 1)
    // and no score reaches the threshold of the next tier
    ensures t < 5 ==> score < 2500 * t
  {
    if score >= 10000 then 5
    else if score >= 7500 then 4
    else if score >= 5000 then 3
    else if score >= 2500 then 2
    else 1
  }

  /** A higher score never gives a lower tier. */
  lemma TierFromScoreMonotone(s1: int, s2: int)
    requires s1 <= s2
    ensures TierFromScore(s1) <= TierFromScore(s2)
  {
  }

  /** The threshold behaviour at the edges of each band. */
  lemma TierFromScoreBoundaries()
    ensures TierFromScore(2499) == 1 && TierFromScore(2500) == 2
    ensures TierFromScore(4999) == 2 && TierFromScore(5000) == 3
    ensures TierFromScore(7499) == 3 && TierFromScore(7500) == 4
    ensures TierFromScore(9999) == 4 && TierFromScore(10000) == 5
    ensures TierFromScore(-1) == 1
  {
  }
}
