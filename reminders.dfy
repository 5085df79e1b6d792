/**
 * Start-of-task reminders: one deferred job per task, fired one minute
 * before the task starts, held by the work scheduler under the unique name
 * "reminder_<id>" and the tag "task_<id>".
 */
module Reminders {
  import opened Wrappers
  import opened Records
  import opened KotlinText

  /** Fire this long before the task's start: 1 * 60 * 1000 ms */
  const LeadMillis: int := 60_000

  const TaskIdKey := "TASK_ID"
  const TaskTitleKey := "TASK_TITLE"
  const RewardCoinsKey := "REWARD_COINS"

  /** A work request's input `Data`: its `putInt` and `putString` entries */
  datatype InputData = InputData(ints: map<string, int>, strings: map<string, string>)

  /** A one-time work request: initial delay in ms, input data and tags */
  datatype WorkRequest = WorkRequest(initialDelay: int, input: InputData, tags: set<string>)

  function UniqueName(id: int): string {
    "reminder_" + IntToString(id)
  }

  function Tag(id: int): string {
    "task_" + IntToString(id)
  }

  function TriggerTime(task: Task): int {
    task.timeInMillis - LeadMillis
  }

  function Delay(task: Task, now: int): int {
    TriggerTime(task) - now
  }

  function Payload(task: Task): InputData {
    InputData(map[TaskIdKey := task.id, RewardCoinsKey := task.goldReward], map[TaskTitleKey := task.title])
  }

  /** The request the manager enqueues for `task` at time `now` */
  function RequestFor(task: Task, now: int): WorkRequest {
    WorkRequest(Delay(task, now), Payload(task), {Tag(task.id)})
  }

  /** The pending job of task `id`, looked up by its unique name */
  function JobOf(pending: map<string, WorkRequest>, id: int): Option<WorkRequest> {
    if UniqueName(id) in pending then Some(pending[UniqueName(id)]) else None
  }

  /** Every pending job sits under the unique name of one task id and carries exactly that id's tag. */
  ghost predicate WellKeyed(pending: map<string, WorkRequest>) {
    forall n :: n in pending ==> exists id :: n == UniqueName(id) && pending[n].tags == {Tag(id)}
  }

  /** `enqueueUniqueWork(name, REPLACE, request)`: the new request replaces whatever was under that name. */
  function EnqueueReplace(pending: map<string, WorkRequest>, name: string, request: WorkRequest): (r: map<string, WorkRequest>)
    ensures r.Keys == pending.Keys + {name} && r[name] == request
    ensures forall n :: n in pending && n != name ==> r[n] == pending[n]
  {
    pending[name := request]
  }

  /** `cancelAllWorkByTag(tag)`: every pending job carrying the tag is dropped, the rest stay. */
  function CancelByTag(pending: map<string, WorkRequest>, tag: string): (r: map<string, WorkRequest>)
    ensures forall n :: n in r <==> n in pending && tag !in pending[n].tags
    ensures forall n :: n in r ==> r[n] == pending[n]
  {
    map n | n in pending && tag !in pending[n].tags :: pending[n]
  }

  /** The job table after `scheduleReminder(task)` at time `now` */
  function AfterSchedule(pending: map<string, WorkRequest>, task: Task, now: int): map<string, WorkRequest> {
    if Delay(task, now) > 0 then EnqueueReplace(pending, UniqueName(task.id), RequestFor(task, now)) else pending
  }

  /** The job table after `cancelReminder(id)` */
  function AfterCancel(pending: map<string, WorkRequest>, id: int): map<string, WorkRequest> {
    CancelByTag(pending, Tag(id))
  }

  lemma UniqueNameInjective(a: int, b: int)
    requires UniqueName(a) == UniqueName(b)
    ensures a == b
  {
    var p := "reminder_";
    assert UniqueName(a)[|p|..] == IntToString(a);
    assert UniqueName(b)[|p|..] == IntToString(b);
    IntToStringInjective(a, b);
  }

  lemma TagInjective(a: int, b: int)
    requires Tag(a) == Tag(b)
    ensures a == b
  {
    var p := "task_";
    assert Tag(a)[|p|..] == IntToString(a);
    assert Tag(b)[|p|..] == IntToString(b);
    IntToStringInjective(a, b);
  }

  /**
   * Scheduling: with a positive delay the task's job becomes exactly the new
   * request (the latest schedule wins); with delay <= 0 the table, including
   * any older job of the task, is untouched. Other tasks' jobs never change.
   */
  lemma ScheduleEffect(pending: map<string, WorkRequest>, task: Task, now: int, other: int)
    requires WellKeyed(pending)
    requires other != task.id
    ensures WellKeyed(AfterSchedule(pending, task, now))
    ensures Delay(task, now) > 0 ==> JobOf(AfterSchedule(pending, task, now), task.id) == Some(RequestFor(task, now))
    ensures Delay(task, now) <= 0 ==> AfterSchedule(pending, task, now) == pending
    ensures JobOf(AfterSchedule(pending, task, now), other) == JobOf(pending, other)
  {
    if UniqueName(other) == UniqueName(task.id) {
      UniqueNameInjective(other, task.id);
    }
  }

  /**
   * Cancelling: afterwards no pending job carries the task's tag, so the task
   * has no job; with nothing to cancel the table is unchanged.
   */
  lemma CancelEffect(pending: map<string, WorkRequest>, id: int)
    requires WellKeyed(pending)
    ensures WellKeyed(AfterCancel(pending, id))
    ensures forall n :: n in AfterCancel(pending, id) ==> Tag(id) !in AfterCancel(pending, id)[n].tags
    ensures JobOf(AfterCancel(pending, id), id).None?
    ensures (forall n :: n in pending ==> Tag(id) !in pending[n].tags) ==> AfterCancel(pending, id) == pending
  {
    var after := AfterCancel(pending, id);
    forall n | n in after
      ensures exists k :: n == UniqueName(k) && after[n].tags == {Tag(k)}
    {
      var k :| n == UniqueName(k) && pending[n].tags == {Tag(k)};
      assert after[n] == pending[n];
    }
    if UniqueName(id) in pending {
      var k :| UniqueName(id) == UniqueName(k) && pending[UniqueName(id)].tags == {Tag(k)};
      UniqueNameInjective(id, k);
    }
  }

  /** Cancelling one task's reminder leaves every other task's job as it was. */
  lemma CancelKeepsOthers(pending: map<string, WorkRequest>, id: int, other: int)
    requires WellKeyed(pending)
    requires other != id
    ensures JobOf(AfterCancel(pending, id), other) == JobOf(pending, other)
  {
    if UniqueName(other) in pending {
      var k :| UniqueName(other) == UniqueName(k) && pending[UniqueName(other)].tags == {Tag(k)};
      UniqueNameInjective(other, k);
      if Tag(id) == Tag(other) {
        TagInjective(id, other);
      }
    }
  }

  /**
   * WorkManager's unique-work table as ReminderManager drives it: each
   * enqueued job stays under its name until it is replaced or cancelled.
   */
  class ReminderManager {
    var pending: map<string, WorkRequest>

    ghost predicate Valid()
      reads this
    {
      WellKeyed(pending)
    }

    constructor ()
      ensures Valid() && pending == map[]
    {
      pending := map[];
    }

    /** `scheduleReminder(task)`; `now` is `System.currentTimeMillis()` */
    method ScheduleReminder(task: Task, now: int)
      requires Valid()
      modifies this
      ensures Valid()
      ensures pending == AfterSchedule(old(pending), task, now)
    {
      var startTime := task.timeInMillis;
      var triggerTime := startTime - 1 * 60 * 1000;
      var delay := triggerTime - now;
      if delay > 0 {
        var data := InputData(map[TaskIdKey := task.id, RewardCoinsKey := task.goldReward], map[TaskTitleKey := task.title]);
        var workRequest := WorkRequest(delay, data, {Tag(task.id)});
        pending := EnqueueReplace(pending, UniqueName(task.id), workRequest);
      }
    }

    /** `cancelReminder(taskId)` */
    method CancelReminder(taskId: int)
      requires Valid()
      modifies this
      ensures Valid()
      ensures pending == AfterCancel(old(pending), taskId)
    {
      pending := CancelByTag(pending, Tag(taskId));
    }
  }
}
