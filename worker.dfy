/** The deferred job that fires a task's start reminder. */
module ReminderWorker {
  import opened Wrappers
  import opened Records
  import opened Reminders

  const UnknownTitle := "未知任务"

  /** The notifier call `showTaskReminder(taskId, taskTitle, rewardCoins)` */
  datatype Notification = Notification(taskId: int, title: string, coins: int)

  datatype WorkResult = Success | Failure

  /** What one run of the job does: its result and the notification it asks for, if any */
  datatype Run = Run(result: WorkResult, notification: Option<Notification>)

  /** `Data.getInt(key, default)` */
  function GetInt(input: InputData, key: string, default: int): int {
    if key in input.ints then input.ints[key] else default
  }

  /** `Data.getString(key)`, null when absent */
  function GetString(input: InputData, key: string): Option<string> {
    if key in input.strings then Some(input.strings[key]) else None
  }

  /** `TaskReminderWorker.doWork` */
  function DoWork(input: InputData): (r: Run)
    ensures r.result == Success <==> GetInt(input, TaskIdKey, -1) != -1
    ensures r.result == Failure ==> r.notification == None
    ensures TaskIdKey !in input.ints ==> r == Run(Failure, None)
    ensures r.result == Success ==> r.notification.Some? && r.notification.value.taskId == input.ints[TaskIdKey]
    ensures r.notification.Some? && TaskTitleKey !in input.strings ==> r.notification.value.title == UnknownTitle
    ensures r.notification.Some? && TaskTitleKey in input.strings ==> r.notification.value.title == input.strings[TaskTitleKey]
    ensures r.notification.Some? && RewardCoinsKey in input.ints ==> r.notification.value.coins == input.ints[RewardCoinsKey]
    ensures r.notification.Some? && RewardCoinsKey !in input.ints ==> r.notification.value.coins == 0
  {
    var taskId := GetInt(input, TaskIdKey, -1);
    var taskTitle := GetString(input, TaskTitleKey).GetOr(UnknownTitle);
    var rewardCoins := GetInt(input, RewardCoinsKey, 0);
    if taskId == -1 then Run(Failure, None)
    else Run(Success, Some(Notification(taskId, taskTitle, rewardCoins)))
  }

  /**
   * The payload the reminder manager schedules decodes to the task's own id,
   * title and gold reward; only a task whose id is -1 gets a failed run and no
   * notification.
   */
  lemma ScheduledPayloadNotifies(task: Task)
    ensures task.id != -1 ==> DoWork(Payload(task)) == Run(Success, Some(Notification(task.id, task.title, task.goldReward)))
    ensures task.id == -1 ==> DoWork(Payload(task)) == Run(Failure, None)
  {
  }
}
