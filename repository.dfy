/**
 * `DefaultTaskRepository`: sequences the writes to the task and profile
 * tables with the best-effort calendar calls and the reminder scheduler.
 *
 * The calendar is seen only through the requests the repository sends it
 * (`calendarCalls`) and, for `addEvent`, the reply it gets back. A raised
 * exception is modelled by a `Fault` argument naming the collaborator call
 * that throws; the operation then stops there and reports `Raised`.
 */
module Repository {
  import opened Wrappers
  import opened Records
  import RewardCalculator
  import opened Reminders
  import TaskTable
  import StatsTable
  import RewardTable
  import MilestoneTable

  /** What one calendar call did: returned a value, or threw */
  datatype CalendarReply<T> = Returned(value: T) | Threw

  /** A request sent to the calendar data source */
  datatype CalendarRequest =
    | AddEvent(title: string, startMillis: int, endMillis: int, rrule: Option<string>)
    | DeleteEvent(eventId: int)
    | UpdateEventTitle(eventId: int, newTitle: string)

  /** The collaborator call that throws during an operation, if any; a call the operation does not make cannot throw */
  datatype Fault = NoFault | StatsWriteThrows | TaskWriteThrows | ReminderThrows

  /** How an operation ends: normally, or by propagating an exception to its caller */
  datatype Outcome = Done | Raised

  const CompletedMark: string := "✅"

  /** The calendar id `addTask` ends up with: the reply, or null when the call threw */
  function EventIdOf(reply: CalendarReply<Option<int>>): (r: Option<int>)
    ensures reply.Threw? ==> r.None?
  {
    match reply
    case Returned(id) => id
    case Threw => None
  }

  // ------------------------------------------------------ default catalog

  const DefaultCatalog: seq<RewardItem> := [
    NewRewardItem("给自己放假半天", 500),
    NewRewardItem("吃顿好的", 200),
    NewRewardItem("买喜欢的游戏", 1000),
    NewRewardItem("喝一杯奶茶", 50)
  ]

  /** The rows that inserting the first n catalog items gives an empty table whose key generator stands at base */
  ghost function Seeded(base: int, n: nat): map<int, RewardItem>
    requires n <= |DefaultCatalog|
  {
    if n == 0 then map[]
    else Seeded(base, n - 1)[base + n - 1 := DefaultCatalog[n - 1].(id := base + n - 1)]
  }

  /** Seeding stores each catalog item once, under the consecutive fresh ids base, base+1, ... */
  lemma {:induction false} SeededRows(base: int, n: nat)
    requires n <= |DefaultCatalog|
    ensures forall i :: i in Seeded(base, n) <==> base <= i < base + n
    ensures |Seeded(base, n)| == n
    ensures forall i :: 0 <= i < n ==> Seeded(base, n)[base + i] == DefaultCatalog[i].(id := base + i)
  {
    if n > 0 {
      SeededRows(base, n - 1);
      assert base + n - 1 !in Seeded(base, n - 1);
    }
  }

  /** The four default items cost 500, 200, 1000 and 50. */
  lemma DefaultCatalogPrices()
    ensures |DefaultCatalog| == 4
    ensures forall i :: 0 <= i < 4 ==> DefaultCatalog[i].id == AutoId && DefaultCatalog[i].cost > 0
    ensures DefaultCatalog[0].cost == 500 && DefaultCatalog[1].cost == 200
    ensures DefaultCatalog[2].cost == 1000 && DefaultCatalog[3].cost == 50
  {
  }

  class DefaultTaskRepository {
    const taskDao: TaskTable.WellnessTaskDao
    const userStatsDao: StatsTable.UserStatsDao
    const rewardItemDao: RewardTable.RewardItemDao
    const milestoneDao: MilestoneTable.MilestoneDao
    const reminderManager: ReminderManager

    /** Every request sent to the calendar data source, oldest first */
    ghost var calendarCalls: seq<CalendarRequest>

    ghost predicate Valid()
      reads this, taskDao, userStatsDao, rewardItemDao, milestoneDao, reminderManager
    {
      taskDao.Valid() && userStatsDao.Valid() && rewardItemDao.Valid() && milestoneDao.Valid() && reminderManager.Valid()
    }

    constructor (taskDao: TaskTable.WellnessTaskDao, userStatsDao: StatsTable.UserStatsDao,
                 rewardItemDao: RewardTable.RewardItemDao, milestoneDao: MilestoneTable.MilestoneDao,
                 reminderManager: ReminderManager)
      requires taskDao.Valid() && userStatsDao.Valid() && rewardItemDao.Valid() && milestoneDao.Valid() && reminderManager.Valid()
      ensures Valid() && calendarCalls == []
      ensures this.taskDao == taskDao && this.userStatsDao == userStatsDao && this.rewardItemDao == rewardItemDao
      ensures this.milestoneDao == milestoneDao && this.reminderManager == reminderManager
    {
      this.taskDao := taskDao;
      this.userStatsDao := userStatsDao;
      this.rewardItemDao := rewardItemDao;
      this.milestoneDao := milestoneDao;
      this.reminderManager := reminderManager;
      calendarCalls := [];
    }

    /** `getUserStats()`: the stored profile, or the default one while none is stored */
    function CurrentStats(): (s: UserStats)
      reads userStatsDao
      requires userStatsDao.Valid()
      ensures s.id == SingletonId
      ensures SingletonId !in userStatsDao.rows ==> s == DefaultUserStats()
      ensures SingletonId in userStatsDao.rows ==> s == userStatsDao.rows[SingletonId]
    {
      userStatsDao.GetUserStats().GetOr(DefaultUserStats())
    }

    // ---------------------------------------------------------------- tasks

    /**
     * `addTask`: ask the calendar for an event (a throw leaves the id null),
     * insert the task under a fresh id, then schedule its reminder with that id.
     * The task's rewards are arguments here.
     */
    method AddTask(title: string, startTimeMillis: int, endTimeMillis: int, rrule: Option<string>,
                   expReward: int, goldReward: int,
                   calendarReply: CalendarReply<Option<int>>, fault: Fault, now: int)
      returns (outcome: Outcome)
      requires Valid()
      modifies this, taskDao, reminderManager
      ensures Valid()
      ensures calendarCalls == old(calendarCalls) + [AddEvent(title, startTimeMillis, endTimeMillis, rrule)]
      ensures fault == TaskWriteThrows ==>
                outcome == Raised && unchanged(taskDao) && reminderManager.pending == old(reminderManager.pending)
      ensures fault != TaskWriteThrows ==>
                var newTask := Task(old(taskDao.nextId), title, startTimeMillis, rrule, false,
                                    EventIdOf(calendarReply), expReward, goldReward);
                && newTask.id !in old(taskDao.rows)
                && taskDao.rows == old(taskDao.rows)[newTask.id := newTask]
                && (fault == ReminderThrows ==> outcome == Raised && reminderManager.pending == old(reminderManager.pending))
                && (fault != ReminderThrows ==>
                      outcome == Done && reminderManager.pending == AfterSchedule(old(reminderManager.pending), newTask, now))
    {
      var calendarEventId: Option<int> := None;
      calendarCalls := calendarCalls + [AddEvent(title, startTimeMillis, endTimeMillis, rrule)];
      if calendarReply.Returned? {
        calendarEventId := calendarReply.value;
      }
      var newTask := Task(AutoId, title, startTimeMillis, rrule, false, calendarEventId, expReward, goldReward);
      if fault == TaskWriteThrows {
        return Raised;
      }
      var rowId := taskDao.Insert(newTask);
      if fault == ReminderThrows {
        return Raised;
      }
      reminderManager.ScheduleReminder(newTask.(id := rowId), now);
      return Done;
    }

    /**
     * `deleteTask`: delete the calendar event when there is one (its failure
     * is swallowed), cancel the reminder, then delete the row.
     */
    method DeleteTask(task: Task, fault: Fault) returns (outcome: Outcome)
      requires Valid()
      modifies this, taskDao, reminderManager
      ensures Valid()
      ensures calendarCalls == old(calendarCalls) +
                (if task.calendarEventId.Some? then [DeleteEvent(task.calendarEventId.value)] else [])
      ensures outcome == Raised <==> fault == ReminderThrows || fault == TaskWriteThrows
      ensures fault == ReminderThrows ==> reminderManager.pending == old(reminderManager.pending)
      ensures fault != ReminderThrows ==> reminderManager.pending == AfterCancel(old(reminderManager.pending), task.id)
      ensures fault == ReminderThrows || fault == TaskWriteThrows ==> unchanged(taskDao)
      ensures outcome == Done ==> taskDao.rows == old(taskDao.rows) - {task.id}
      ensures outcome == Done ==> task.id !in taskDao.ActiveTasks() && task.id !in taskDao.CompletedTasks()
    {
      if task.calendarEventId.Some? {
        calendarCalls := calendarCalls + [DeleteEvent(task.calendarEventId.value)];
      }
      if fault == ReminderThrows {
        return Raised;
      }
      reminderManager.CancelReminder(task.id);
      if fault == TaskWriteThrows {
        return Raised;
      }
      taskDao.Delete(task);
      return Done;
    }

    /** `updateTask`: write the task, then re-schedule its reminder */
    method UpdateTask(task: Task, fault: Fault, now: int) returns (outcome: Outcome)
      requires Valid()
      modifies taskDao, reminderManager
      ensures Valid()
      ensures outcome == Raised <==> fault == ReminderThrows || fault == TaskWriteThrows
      ensures fault == TaskWriteThrows ==> unchanged(taskDao)
      ensures fault != TaskWriteThrows ==>
                taskDao.rows == if task.id in old(taskDao.rows) then old(taskDao.rows)[task.id := task] else old(taskDao.rows)
      ensures fault == NoFault || fault == StatsWriteThrows ==>
                reminderManager.pending == AfterSchedule(old(reminderManager.pending), task, now)
      ensures fault == ReminderThrows || fault == TaskWriteThrows ==> reminderManager.pending == old(reminderManager.pending)
    {
      if fault == TaskWriteThrows {
        return Raised;
      }
      taskDao.Update(task);
      if fault == ReminderThrows {
        return Raised;
      }
      reminderManager.ScheduleReminder(task, now);
      return Done;
    }

    /**
     * `completeTaskAndSync`: store the rewarded profile, then the task with
     * `checked = true`, then cancel the reminder and, for a calendar task
     * whose title has no completed mark yet, rename the event. There is no
     * check of `task.checked`: every call grants the rewards again.
     */
    method CompleteTaskAndSync(task: Task, fault: Fault) returns (outcome: Outcome)
      requires Valid()
      requires RewardCalculator.Fits(CurrentStats(), task.expReward, task.goldReward)
      modifies this, taskDao, userStatsDao, reminderManager
      ensures Valid()
      ensures outcome == Done <==> fault == NoFault
      ensures fault == StatsWriteThrows ==> unchanged(userStatsDao)
      ensures fault != StatsWriteThrows ==>
                var newStats := RewardCalculator.Apply(old(CurrentStats()), task.expReward, task.goldReward);
                userStatsDao.rows == old(userStatsDao.rows)[SingletonId := newStats] && CurrentStats() == newStats
      ensures fault == StatsWriteThrows || fault == TaskWriteThrows ==> unchanged(taskDao)
      ensures fault == NoFault || fault == ReminderThrows ==>
                taskDao.rows == if task.id in old(taskDao.rows) then old(taskDao.rows)[task.id := task.(checked := true)]
                                else old(taskDao.rows)
      ensures fault != NoFault ==> reminderManager.pending == old(reminderManager.pending)
      ensures fault == NoFault ==> reminderManager.pending == AfterCancel(old(reminderManager.pending), task.id)
      ensures calendarCalls == old(calendarCalls) +
                if fault == NoFault && task.calendarEventId.Some? && !(CompletedMark <= task.title)
                then [UpdateEventTitle(task.calendarEventId.value, CompletedMark + " " + task.title)]
                else []
    {
      var currentStats := userStatsDao.GetUserStats().GetOr(DefaultUserStats());
      var newStats := RewardCalculator.Invoke(currentStats, task.expReward, task.goldReward);
      if fault == StatsWriteThrows {
        return Raised;
      }
      userStatsDao.InsertOrUpdate(newStats);
      if fault == TaskWriteThrows {
        return Raised;
      }
      taskDao.Update(task.(checked := true));
      if fault == ReminderThrows {
        return Raised;
      }
      reminderManager.CancelReminder(task.id);
      if task.calendarEventId.Some? {
        if !(CompletedMark <= task.title) {
          calendarCalls := calendarCalls + [UpdateEventTitle(task.calendarEventId.value, CompletedMark + " " + task.title)];
        }
      }
      return Done;
    }

    // -------------------------------------------------------------- profile

    /** `updateUserName`: the current (or default) profile with only the name replaced */
    method UpdateUserName(newName: string)
      requires Valid()
      modifies userStatsDao
      ensures Valid()
      ensures CurrentStats() == old(CurrentStats()).(userName := newName)
      ensures userStatsDao.rows == old(userStatsDao.rows)[SingletonId := old(CurrentStats()).(userName := newName)]
    {
      var currentStats := userStatsDao.GetUserStats().GetOr(DefaultUserStats());
      userStatsDao.InsertOrUpdate(currentStats.(userName := newName));
    }

    /** `updatePlayerGold`: the current (or default) profile with only the gold replaced */
    method UpdatePlayerGold(newGold: int)
      requires Valid()
      modifies userStatsDao
      ensures Valid()
      ensures CurrentStats() == old(CurrentStats()).(gold := newGold)
      ensures userStatsDao.rows == old(userStatsDao.rows)[SingletonId := old(CurrentStats()).(gold := newGold)]
    {
      var stats := userStatsDao.GetUserStats().GetOr(DefaultUserStats());
      userStatsDao.InsertOrUpdate(stats.(gold := newGold));
    }

    // ----------------------------------------------------------------- shop

    /** `addReward` */
    method AddReward(item: RewardItem)
      requires Valid()
      modifies rewardItemDao
      ensures Valid()
      ensures item.id == AutoId ==>
                old(rewardItemDao.nextId) !in old(rewardItemDao.rows) &&
                rewardItemDao.rows == old(rewardItemDao.rows)[old(rewardItemDao.nextId) := item.(id := old(rewardItemDao.nextId))]
      ensures item.id != AutoId ==> rewardItemDao.rows == old(rewardItemDao.rows)[item.id := item]
    {
      var _ := rewardItemDao.Insert(item);
    }

    /** `deleteReward` */
    method DeleteReward(item: RewardItem)
      requires Valid()
      modifies rewardItemDao
      ensures Valid()
      ensures rewardItemDao.rows == old(rewardItemDao.rows) - {item.id}
    {
      rewardItemDao.Delete(item);
    }

    /**
     * `ensureDefaultRewards`: an empty shop gets the four default items under
     * fresh ids; a shop with any item is left alone, so a second call does nothing.
     */
    method EnsureDefaultRewards()
      requires Valid()
      modifies rewardItemDao
      ensures Valid()
      ensures old(rewardItemDao.Count()) == 0 ==> rewardItemDao.rows == Seeded(old(rewardItemDao.nextId), 4)
      ensures old(rewardItemDao.Count()) != 0 ==> unchanged(rewardItemDao)
      ensures rewardItemDao.Count() > 0
    {
      if rewardItemDao.Count() == 0 {
        ghost var base := rewardItemDao.nextId;
        var i := 0;
        while i < |DefaultCatalog|
          invariant 0 <= i <= |DefaultCatalog|
          invariant rewardItemDao.Valid()
          invariant rewardItemDao.nextId == base + i
          invariant rewardItemDao.rows == Seeded(base, i)
        {
          var _ := rewardItemDao.Insert(DefaultCatalog[i]);
          i := i + 1;
        }
        SeededRows(base, 4);
      }
    }

    // ----------------------------------------------------------- milestones

    /** `addMilestone`: a new milestone with no progress, under a fresh id */
    method AddMilestone(title: string, max: int)
      requires Valid()
      modifies milestoneDao
      ensures Valid()
      ensures old(milestoneDao.nextId) !in old(milestoneDao.rows)
      ensures milestoneDao.rows ==
                old(milestoneDao.rows)[old(milestoneDao.nextId) := Milestone(old(milestoneDao.nextId), title, 0, max)]
    {
      var _ := milestoneDao.Insert(NewMilestone(title, maxProgress := max));
    }

    /** `updateMilestoneProgress` */
    method UpdateMilestoneProgress(milestone: Milestone)
      requires Valid()
      modifies milestoneDao
      ensures Valid()
      ensures milestoneDao.rows ==
                if milestone.id in old(milestoneDao.rows) then old(milestoneDao.rows)[milestone.id := milestone]
                else old(milestoneDao.rows)
    {
      milestoneDao.Update(milestone);
    }
  }

  /**
   * Completing the same task twice with no failure stores twice its gold and
   * experience: nothing stops the second grant.
   */
  method CompletingTwiceGrantsTwice(repo: DefaultTaskRepository, task: Task)
    requires repo.Valid()
    requires RewardCalculator.Fits(repo.CurrentStats(), task.expReward, task.goldReward)
    requires RewardCalculator.Fits(RewardCalculator.Apply(repo.CurrentStats(), task.expReward, task.goldReward),
                                   task.expReward, task.goldReward)
    modifies repo, repo.taskDao, repo.userStatsDao, repo.reminderManager
    ensures repo.Valid()
    ensures repo.CurrentStats().gold == old(repo.CurrentStats().gold) + 2 * task.goldReward
    ensures repo.CurrentStats().level * RewardCalculator.ExpPerLevel + repo.CurrentStats().currentExp ==
            old(repo.CurrentStats().level * RewardCalculator.ExpPerLevel + repo.CurrentStats().currentExp) + 2 * task.expReward
  {
    var _ := repo.CompleteTaskAndSync(task, NoFault);
    var _ := repo.CompleteTaskAndSync(task, NoFault);
    RewardCalculator.ApplyTwiceGrantsTwice(old(repo.CurrentStats()), task.expReward, task.goldReward);
  }
}
