/**
 * The points formula and the five-tier league ladder of `rewardService.js`. The intake
 * route awards points by its own size rule (see `MvpRoutes`); the two rules are kept apart.
 */
module RewardService {
  import opened Wrappers

  const BasePoints: nat := 10
  const QualityBonus: nat := 20
  const HighQualityScore: real := 0.7
  const LargeOrderCount: int := 5

  datatype Breakdown = Breakdown(base: nat, quality: nat, streak: nat)

  datatype StreakUpdate = StreakUpdate(streak: nat, isContinued: bool)

  datatype Rewards = Rewards(totalPoints: nat, breakdown: Breakdown, streakUpdate: StreakUpdate)

  /**
   * `calculateRewards({dataQualityScore = 0, orderCount = 0})`; an argument left undefined
   * is `None` and takes its default.
   */
  function CalculateRewards(dataQualityScore: Option<real>, orderCount: Option<int>): (r: Rewards)
    ensures r.breakdown.base == BasePoints
    ensures r.totalPoints == r.breakdown.base + r.breakdown.quality
    ensures r.breakdown.quality == QualityBonus
            <==> dataQualityScore.GetOr(0.0) >= HighQualityScore && orderCount.GetOr(0) >= LargeOrderCount
    ensures r.breakdown.quality == 0 || r.breakdown.quality == QualityBonus
    ensures r.breakdown.streak == 0 && r.streakUpdate == StreakUpdate(0, false)
  {
    var score := dataQualityScore.GetOr(0.0);
    var orders := orderCount.GetOr(0);
    var bonus := if score >= HighQualityScore && orders >= LargeOrderCount then QualityBonus else 0;
    Rewards(BasePoints + bonus, Breakdown(BasePoints, bonus, 0), StreakUpdate(0, false))
  }

  /** A contribution earns either 10 or 30 points, and 10 with every argument left at its default. */
  lemma RewardsAreTenOrThirty(dataQualityScore: Option<real>, orderCount: Option<int>)
    ensures CalculateRewards(dataQualityScore, orderCount).totalPoints in {10, 30}
    ensures CalculateRewards(None, None).totalPoints == 10
  {
  }

  /** A better score or a larger history never earns fewer points. */
  lemma RewardsMonotone(s1: real, s2: real, n1: int, n2: int)
    requires s1 <= s2 && n1 <= n2
    ensures CalculateRewards(Some(s1), Some(n1)).totalPoints <= CalculateRewards(Some(s2), Some(n2)).totalPoints
  {
  }

  // ---------------------------------------------------------------------------
  // Leagues

  datatype League = Bronze | Silver | Gold | Platinum | Diamond

  /** Position of a league on the ladder, Bronze lowest. */
  function Rank(l: League): nat
  {
    match l
    case Bronze => 0
    case Silver => 1
    case Gold => 2
    case Platinum => 3
    case Diamond => 4
  }

  /** The least total that reaches a league (Bronze is reached by every total). */
  function Threshold(l: League): Option<int>
  {
    match l
    case Bronze => None
    case Silver => Some(200)
    case Gold => Some(1000)
    case Platinum => Some(2000)
    case Diamond => Some(5000)
  }

  /** The total reaches the league's threshold. */
  predicate Reaches(totalPoints: int, l: League)
  {
    Threshold(l).None? || Threshold(l).value <= totalPoints
  }

  /** `calculateLeague(totalPoints)`: the highest league whose inclusive threshold the total reaches. */
  function CalculateLeague(totalPoints: int): (l: League)
    ensures Reaches(totalPoints, l)
    ensures forall m: League :: Rank(m) > Rank(l) ==> !Reaches(totalPoints, m)
  {
    if totalPoints >= 5000 then Diamond
    else if totalPoints >= 2000 then Platinum
    else if totalPoints >= 1000 then Gold
    else if totalPoints >= 200 then Silver
    else Bronze
  }

  /** A league is reached exactly when it is at or below the computed one. */
  lemma LeagueLadder(totalPoints: int, m: League)
    ensures Reaches(totalPoints, m) <==> Rank(m) <= Rank(CalculateLeague(totalPoints))
  {
  }

  /** More points never mean a lower league. */
  lemma LeagueMonotone(p: int, q: int)
    requires p <= q
    ensures Rank(CalculateLeague(p)) <= Rank(CalculateLeague(q))
  {
    var l := CalculateLeague(p);
    assert Reaches(q, l);
    LeagueLadder(q, l);
  }
}
