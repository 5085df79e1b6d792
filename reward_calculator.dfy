/**
 * Completing a task: add the task's gold and experience to the profile and
 * turn every full 100 experience into a level.
 */
module RewardCalculator {
  import opened Records
  import opened KotlinText

  const ExpPerLevel: int := 100

  /**
   * Closed form of the level-up loop: below 100 experience nothing converts;
   * otherwise (any sum of at least 100 is positive) every full 100 becomes a level.
   */
  function Apply(s: UserStats, expReward: int, goldReward: int): UserStats {
    var sum := s.currentExp + expReward;
    if sum < ExpPerLevel then s.(currentExp := sum, gold := s.gold + goldReward)
    else s.(level := s.level + sum / ExpPerLevel, currentExp := sum % ExpPerLevel, gold := s.gold + goldReward)
  }

  /** No Kotlin `Int` in the computation wraps around. */
  predicate Fits(s: UserStats, expReward: int, goldReward: int) {
    && IsInt(s.level) && IsInt(s.currentExp) && IsInt(s.gold)
    && IsInt(expReward) && IsInt(goldReward)
    && IsInt(s.currentExp + expReward) && IsInt(s.gold + goldReward)
    && IsInt(Apply(s, expReward, goldReward).level)
  }

  /** `CompleteTaskUseCase.invoke` */
  method Invoke(currentStats: UserStats, expReward: int, goldReward: int) returns (r: UserStats)
    requires Fits(currentStats, expReward, goldReward)
    ensures r == Apply(currentStats, expReward, goldReward)
    ensures r.gold == currentStats.gold + goldReward
    ensures r.level * ExpPerLevel + r.currentExp == currentStats.level * ExpPerLevel + currentStats.currentExp + expReward
    ensures currentStats.currentExp + expReward >= 0 ==> 0 <= r.currentExp < ExpPerLevel
    ensures currentStats.currentExp + expReward >= 0 ==>
              r.level == currentStats.level + (currentStats.currentExp + expReward) / ExpPerLevel
    ensures currentStats.currentExp + expReward < ExpPerLevel ==>
              r.level == currentStats.level && r.currentExp == currentStats.currentExp + expReward
    ensures r.id == currentStats.id && r.userName == currentStats.userName
  {
    var newExp := currentStats.currentExp + expReward;
    var newLevel := currentStats.level;
    var newGold := currentStats.gold + goldReward;
    ghost var sum := newExp;

    while newExp >= ExpPerLevel
      invariant newLevel >= currentStats.level
      invariant newExp == sum - (newLevel - currentStats.level) * ExpPerLevel
      invariant sum >= ExpPerLevel ==> newExp >= 0
      invariant sum < ExpPerLevel ==> newLevel == currentStats.level
      decreases newExp
    {
      newLevel := newLevel + 1;
      newExp := newExp - ExpPerLevel;
    }

    if sum >= ExpPerLevel {
      LevelsFromExp(sum, newLevel - currentStats.level, newExp);
    }
    r := currentStats.(level := newLevel, currentExp := newExp, gold := newGold);
  }

  /** Dividing by 100 is the only way to split a sum into full hundreds and a remainder below 100. */
  lemma LevelsFromExp(sum: int, levels: int, rest: int)
    requires sum == levels * ExpPerLevel + rest && 0 <= rest < ExpPerLevel
    ensures levels == sum / ExpPerLevel && rest == sum % ExpPerLevel
  {
  }

  /** Experience is conserved and gold is added, whatever the sign of the rewards. */
  lemma ApplyConserves(s: UserStats, expReward: int, goldReward: int)
    ensures var r := Apply(s, expReward, goldReward);
      && r.gold == s.gold + goldReward
      && r.level * ExpPerLevel + r.currentExp == s.level * ExpPerLevel + s.currentExp + expReward
      && r.id == s.id && r.userName == s.userName
  {
  }

  /** Non-negative rewards keep the profile well-formed. */
  lemma ApplyKeepsWellFormed(s: UserStats, expReward: int, goldReward: int)
    requires WellFormed(s) && expReward >= 0 && goldReward >= 0
    ensures WellFormed(Apply(s, expReward, goldReward))
  {
  }

  /** Level 1 with 80 experience plus 250 experience is three level-ups in one call: level 4, 30 experience. */
  lemma MultiLevelUpExample(s: UserStats, goldReward: int)
    requires s.level == 1 && s.currentExp == 80
    ensures Apply(s, 250, goldReward).level == 4 && Apply(s, 250, goldReward).currentExp == 30
  {
  }

  /**
   * Applying the same rewards twice (as a second completion of the same task
   * does) grants twice the gold and twice the experience.
   */
  lemma {:induction false} ApplyTwiceGrantsTwice(s: UserStats, expReward: int, goldReward: int)
    ensures var r := Apply(Apply(s, expReward, goldReward), expReward, goldReward);
      && r.gold == s.gold + 2 * goldReward
      && r.level * ExpPerLevel + r.currentExp == s.level * ExpPerLevel + s.currentExp + 2 * expReward
  {
    ApplyConserves(s, expReward, goldReward);
    ApplyConserves(Apply(s, expReward, goldReward), expReward, goldReward);
  }
}
