/**
 * The stored records: tasks, the singleton player profile, reward-shop items
 * and milestones, with the defaults their Kotlin constructors supply.
 */
module Records {
  import opened Wrappers

  /** Placeholder id of a record whose key the store generates on insert */
  const AutoId: int := 0

  /** The only key of the profile table */
  const SingletonId: int := 1

  /**
   * A task (the source calls `title` `label`, a reserved word here). `calendarEventId`, `expReward` and `goldReward` are read by the
   * repository and the reminder scheduler; they carry no default here.
   */
  datatype Task = Task(
    id: int,
    title: string,
    timeInMillis: int,
    rrule: Option<string>,
    checked: bool,
    calendarEventId: Option<int>,
    expReward: int,
    goldReward: int)

  /** The player profile, one row keyed by SingletonId. */
  datatype UserStats = UserStats(id: int, level: int, currentExp: int, gold: int, userName: string)

  /** `UserStats()` with every default taken */
  function DefaultUserStats(): (s: UserStats)
    ensures WellFormed(s)
    ensures s.level == 1 && s.currentExp == 0 && s.gold == 0
  {
    UserStats(SingletonId, 1, 0, 0, "")
  }

  /** A profile in the shape the reward engine keeps it: singleton key, level >= 1, exp in [0, 100), gold >= 0. */
  predicate WellFormed(s: UserStats) {
    s.id == SingletonId && s.level >= 1 && 0 <= s.currentExp < 100 && s.gold >= 0
  }

  datatype RewardItem = RewardItem(id: int, title: string, cost: int)

  datatype Milestone = Milestone(id: int, title: string, currentProgress: int, maxProgress: int)

  /** `Milestone(title = title, maxProgress = maxProgress)`: a not yet stored milestone with no progress */
  function NewMilestone(title: string, maxProgress: int := 10): (m: Milestone)
    ensures m.id == AutoId && m.title == title
    ensures m.currentProgress == 0 && m.maxProgress == maxProgress
  {
    Milestone(AutoId, title, 0, maxProgress)
  }

  /** `RewardItem(title = title, cost = cost)`: a not yet stored shop item */
  function NewRewardItem(title: string, cost: int): (r: RewardItem)
    ensures r.id == AutoId && r.title == title && r.cost == cost
  {
    RewardItem(AutoId, title, cost)
  }
}
