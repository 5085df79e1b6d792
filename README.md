# AiWTasks core in Dafny

AiWTasks is an Android to-do app with a role-playing reward loop. A task can
be created with a calendar event and a start reminder. Completing it grants
experience and gold to a single player profile, where every full 100
experience is one level. The gold buys items in a small shop. Milestones
count progress towards personal goals.

This project models the core of the app:

- the reward engine: the level-up loop and the purchase check;
- the repository, which orders database writes, calendar calls and reminder scheduling;
- the reminder scheduler's job table and the reminder job;
- the four Room tables the repository writes to;
- the shop view model;
- the input rules of the task form and of the shop and profile dialogs.

Layout, one module per file:

- `wrappers.dfy` holds `Option`.
- `kotlin_text.dfy` holds the Kotlin library behaviour the core depends on: the 32-bit `Int` range, `isDigit`, `isWhitespace`/`isBlank`, `Int.toString`, `toIntOrNull`, and `%02d`.
- `records.dfy` holds the stored entities.
- `recurrence.dfy` holds `RecurrenceType`.
- `reward_calculator.dfy` and `purchase.dfy` hold the two use cases.
- `reminders.dfy` holds `ReminderManager` over a map from unique work names to work requests.
- `worker.dfy` holds `TaskReminderWorker.doWork`.
- `task_table.dfy`, `stats_table.dfy`, `reward_table.dfy` and `milestone_table.dfy` hold the DAOs. Each is a class whose rows are a map from primary key to record. The task, reward and milestone tables, whose keys are generated, also keep the key generator's next value (`nextId`); the profile table has a fixed key and no generator.
- `repository.dfy` holds `DefaultTaskRepository`.
- `shop_view_model.dfy` holds `ShopViewModel`.
- `digit_field.dfy`, `task_input.dfy`, `shop_screen.dfy` and `profile_screen.dfy` hold the UI rules.

Collaborators are modelled as follows:

- **Calendar data source.** The calendar is seen only through the requests the repository sends it: the ghost trace `calendarCalls`. The `addEvent` reply is an argument, either an id, null, or a throw.
- **Clock.** `System.currentTimeMillis()` is the argument `now`.
- **Exceptions.** The four task operations `AddTask`, `DeleteTask`, `UpdateTask` and `CompleteTaskAndSync` take a `Fault` argument: an exception raised by the stats table, the task table or the reminder scheduler. The operation stops at that call and reports `Raised`, which is what Kotlin's propagation does. The repository's `catch (e) { throw e }` changes nothing.

The DAO and entity declarations disagree with the code that uses them in places; the model follows the code that reads or writes the data:

- `TaskRepository.kt` and `ReminderManager.kt` read `calendarEventId`, `expReward` and `goldReward` of a task. They also write `userName` into `UserStats`. The `WellnessTask.kt` and `UserStats.kt` files do not declare these fields. The model gives `Task` and `UserStats` these fields. `userName` defaults to `""`, and the rewards of a task created by `addTask` are arguments of `AddTask`.
- `WellnessTaskDao.kt` declares `insert` returning nothing and has no `getAllCompletedTasks`. The repository uses both a returned row id and the completed query. The model's `Insert` returns the row id, and `CompletedTasks` is the `checked = 1` view.
- The task's `label` field is called `title` in the model (`label` is a reserved word in Dafny).

Three behaviours of the code that the model keeps:

- `completeTaskAndSync` (TaskRepository.kt:81-92) does not check `checked`, so completing a task twice grants its rewards twice (`Repository.CompletingTwiceGrantsTwice`).
- In the repository only the calendar calls are caught; failures of `scheduleReminder`, `cancelReminder` and the table writes propagate. The `fault` argument shows which writes have already happened when one propagates.
- Without the calendar permission the add button only requests it and adds nothing (WellnessTaskInput.kt:199-221, `TaskInput.OnAddClick`).

## Model

| member | source | states |
|---|---|---|
| KotlinText.ParseInt | app/src/main/java/com/codelabs/state/ui/compose/ShopScreen.kt:236 | `toIntOrNull` gives an `Int` or null; null for empty text or text starting with neither a sign nor a digit; negative only after '-' |
| KotlinText.IntToString | app/src/main/java/com/codelabs/state/utils/ReminderManager.kt:45 | `Int.toString` is a non-empty text that starts with '-' exactly when the number is negative |
| KotlinText.BlankMeansNoVisibleChar | app/src/main/java/com/codelabs/state/ui/compose/ShopScreen.kt:237 | `isNotBlank` holds exactly when some character is not whitespace; empty text, ASCII whitespace and the ideographic space are blank |
| KotlinText.ParseDigits | app/src/main/java/com/codelabs/state/ui/compose/ShopScreen.kt:236 | `toIntOrNull` of a digit-only text is its decimal value, or null when the text is empty or the value exceeds `Int.MAX_VALUE` |
| KotlinText.IntToStringRoundTrip | app/src/main/java/com/codelabs/state/ui/compose/WellnessTaskInput.kt:211-212 | every `Int` printed with `toString` parses back with `toIntOrNull` to itself |
| KotlinText.CanonicalNumeralRoundTrip | app/src/main/java/com/codelabs/state/ui/compose/WellnessTaskInput.kt:211-212 | a digit-only numeral without a leading zero that fits in an `Int` parses with `toIntOrNull` to its value and prints back with `toString` as the same text |
| KotlinText.IntToStringInjective | app/src/main/java/com/codelabs/state/utils/ReminderManager.kt:45-50 | different ids print differently, so the names and tags built from them differ |
| KotlinText.FormatTwoDigits | app/src/main/java/com/codelabs/state/ui/compose/WellnessTaskInput.kt:279 | `%02d` gives at least two digits denoting the number, exactly two below 100 |
| Records.DefaultUserStats | app/src/main/java/com/codelabs/state/data/UserStats.kt:11-17 | the default profile is row 1, level 1, no experience, no gold, and is well-formed |
| Records.NewMilestone | app/src/main/java/com/codelabs/state/data/Milestone.kt:7-13 | a new milestone carries the auto-generate placeholder id, no progress and, unless given, a total of 10 |
| Records.NewRewardItem | app/src/main/java/com/codelabs/state/data/RewardItem.kt:10-15 | a new shop item carries the placeholder id and the given title and price |
| Recurrence.TokenIsEmptyOnlyForNone | app/src/main/java/com/codelabs/state/data/RecurrenceType.kt:3-9 | only `NONE` has an empty rule token; every other token is an RFC 5545 `FREQ` value |
| Recurrence.TokenRoundTrip | app/src/main/java/com/codelabs/state/data/RecurrenceType.kt:3-9 | each recurrence type is recovered from its rule token |
| Recurrence.TokensDistinct | app/src/main/java/com/codelabs/state/data/RecurrenceType.kt:3-9 | two types with the same rule token are the same type |
| Recurrence.LabelsDistinct | app/src/main/java/com/codelabs/state/data/RecurrenceType.kt:3-9 | every entry has a non-empty label and no two entries share one |
| Recurrence.EntriesEnumerateEachOnce | app/src/main/java/com/codelabs/state/data/RecurrenceType.kt:3-9 | the dropdown lists the five types once each, `NONE` first |
| RewardCalculator.Invoke | app/src/main/java/com/codelabs/state/domain/CompleteTaskUseCase.kt:17-33 | the loop's result is the closed form: gold added, level*100+exp conserved, exp left in [0,100) and one level per full 100 when the sum is not negative, no level-up below 100, id and name kept |
| RewardCalculator.ApplyConserves | app/src/main/java/com/codelabs/state/domain/CompleteTaskUseCase.kt:18-31 | for any rewards, gold is added and total experience (level*100+exp) is conserved |
| RewardCalculator.ApplyKeepsWellFormed | app/src/main/java/com/codelabs/state/domain/CompleteTaskUseCase.kt:22-26 | non-negative rewards keep level >= 1, exp in [0,100) and gold >= 0 |
| RewardCalculator.MultiLevelUpExample | app/src/main/java/com/codelabs/state/domain/CompleteTaskUseCase.kt:23-26 | level 1 with 80 exp plus 250 exp levels up three times, to level 4 with 30 exp |
| RewardCalculator.ApplyTwiceGrantsTwice | app/src/main/java/com/codelabs/state/data/repository/TaskRepository.kt:83-85 | rewarding the same task twice grants twice the gold and twice the experience |
| PurchaseReward.Invoke | app/src/main/java/com/codelabs/state/domain/PurchaseRewardUseCase.kt:14-21 | a purchase succeeds exactly when gold >= cost, and then yields gold - cost, never negative |
| PurchaseReward.ExactBalanceLeavesZero | app/src/main/java/com/codelabs/state/domain/PurchaseRewardUseCase.kt:15-17 | spending the whole balance succeeds and leaves 0 |
| PurchaseReward.FailureShowsBalanceAndCost | app/src/main/java/com/codelabs/state/domain/PurchaseRewardUseCase.kt:19 | a refusal's message contains both the balance and the price as printed numbers |
| Reminders.EnqueueReplace | app/src/main/java/com/codelabs/state/utils/ReminderManager.kt:49-53 | REPLACE puts the new request under the name and leaves every other name's job alone |
| Reminders.CancelByTag | app/src/main/java/com/codelabs/state/utils/ReminderManager.kt:64 | cancelling by tag drops exactly the jobs that carry the tag and keeps the rest unchanged |
| Reminders.UniqueNameInjective | app/src/main/java/com/codelabs/state/utils/ReminderManager.kt:50 | two task ids share a unique work name only if they are equal |
| Reminders.TagInjective | app/src/main/java/com/codelabs/state/utils/ReminderManager.kt:45 | two task ids share a tag only if they are equal |
| Reminders.ScheduleEffect | app/src/main/java/com/codelabs/state/utils/ReminderManager.kt:21-58 | with a positive delay (start - 60000 - now) the task's one job becomes the new request; with delay <= 0 nothing changes; other tasks' jobs never change; one job per name with that id's tag is kept |
| Reminders.CancelEffect | app/src/main/java/com/codelabs/state/utils/ReminderManager.kt:63-66 | after cancelling, no job carries the task's tag and the task has no job; with nothing tagged the table is unchanged; the one-job-per-name invariant is kept |
| Reminders.CancelKeepsOthers | app/src/main/java/com/codelabs/state/utils/ReminderManager.kt:63-66 | cancelling one task's reminder leaves every other task's job as it was |
| Reminders.ReminderManager.ScheduleReminder | app/src/main/java/com/codelabs/state/utils/ReminderManager.kt:21-58 | the job table becomes the schedule of the old table for this task at `now`, and the invariant is kept |
| Reminders.ReminderManager.CancelReminder | app/src/main/java/com/codelabs/state/utils/ReminderManager.kt:63-66 | the job table becomes the old table without the task's tagged jobs, and the invariant is kept |
| ReminderWorker.DoWork | app/src/main/java/com/codelabs/state/worker/TaskReminderWorker.kt:14-35 | the run succeeds exactly when the task id is not -1 (missing counts as -1); a failure notifies nothing; a success notifies that id with the stored title and coins, or "未知任务" for a missing title and 0 for missing coins |
| ReminderWorker.ScheduledPayloadNotifies | app/src/main/java/com/codelabs/state/worker/TaskReminderWorker.kt:18-31 | the payload `scheduleReminder` builds makes the job notify the task's own id, title and gold, unless the id is -1 |
| TaskTable.Active | app/src/main/java/com/codelabs/state/data/WellnessTaskDao.kt:14-15 | the active view holds exactly the unchecked rows, unchanged |
| TaskTable.Completed | app/src/main/java/com/codelabs/state/data/WellnessTaskDao.kt:18-19 | the completed view holds exactly the checked rows, unchanged |
| TaskTable.WellnessTaskDao.ActiveTasks | app/src/main/java/com/codelabs/state/data/WellnessTaskDao.kt:14-15 | `getAllActiveTasks()` returns exactly the unchecked rows, unchanged |
| TaskTable.WellnessTaskDao.CompletedTasks | app/src/main/java/com/codelabs/state/data/repository/TaskRepository.kt:57 | `getAllCompletedTasks()` returns exactly the checked rows, unchanged (the query is not declared in WellnessTaskDao.kt) |
| TaskTable.ActiveCompletedPartition | app/src/main/java/com/codelabs/state/data/WellnessTaskDao.kt:14-19 | every task is in exactly one of the two views and their sizes add up to the table's |
| TaskTable.WellnessTaskDao.CompletedTasksCount | app/src/main/java/com/codelabs/state/data/WellnessTaskDao.kt:18-19 | the completed count is the number of rows not in the active view |
| TaskTable.WellnessTaskDao.Insert | app/src/main/java/com/codelabs/state/data/WellnessTaskDao.kt:21-22 | a placeholder id gets a fresh key; a real id replaces that row; the returned id is the stored row's key |
| TaskTable.WellnessTaskDao.Update | app/src/main/java/com/codelabs/state/data/WellnessTaskDao.kt:24-25 | an existing row is replaced; a missing row changes nothing |
| TaskTable.WellnessTaskDao.Delete | app/src/main/java/com/codelabs/state/data/WellnessTaskDao.kt:27-28 | only the row with the task's id is removed |
| StatsTable.SingletonRow | app/src/main/java/com/codelabs/state/data/UserStatsDao.kt:11-15 | the query returns row 1 when it exists and null otherwise |
| StatsTable.UserStatsDao.GetUserStats | app/src/main/java/com/codelabs/state/data/UserStatsDao.kt:14-15 | a returned profile is always row 1 |
| StatsTable.UserStatsDao.InsertOrUpdate | app/src/main/java/com/codelabs/state/data/UserStatsDao.kt:17-18 | REPLACE stores the profile under its id; for id 1 the next read returns it, otherwise the profile read is unchanged |
| RewardTable.ListedItemIsRow | app/src/main/java/com/codelabs/state/data/RewardItemDao.kt:12-13 | every listed item is the row stored under its own id |
| RewardTable.ListingAsLargeAsTable | app/src/main/java/com/codelabs/state/data/RewardItemDao.kt:12-23 | the list has as many items as `count()` reports rows |
| RewardTable.RewardItemDao.GetAllRewards | app/src/main/java/com/codelabs/state/data/RewardItemDao.kt:12-13 | the list holds every row, nothing else, and as many items as there are rows |
| RewardTable.RewardItemDao.Count | app/src/main/java/com/codelabs/state/data/RewardItemDao.kt:22-23 | `count()` is 0 exactly when the shop table is empty |
| RewardTable.RewardItemDao.Insert | app/src/main/java/com/codelabs/state/data/RewardItemDao.kt:15-16 | a placeholder id gets the next fresh key; a real id replaces that row |
| RewardTable.RewardItemDao.Delete | app/src/main/java/com/codelabs/state/data/RewardItemDao.kt:18-19 | only the row with the item's id is removed |
| MilestoneTable.ListedMilestoneIsRow | app/src/main/java/com/codelabs/state/data/MilestoneDao.kt:13-14 | every listed milestone is the row stored under its own id |
| MilestoneTable.MilestoneDao.GetAllMilestones | app/src/main/java/com/codelabs/state/data/MilestoneDao.kt:13-14 | the list holds every row and nothing else |
| MilestoneTable.MilestoneDao.Insert | app/src/main/java/com/codelabs/state/data/MilestoneDao.kt:16-17 | a placeholder id gets a fresh key; a real id replaces that row |
| MilestoneTable.MilestoneDao.Update | app/src/main/java/com/codelabs/state/data/MilestoneDao.kt:19-20 | an existing row is replaced; a missing row changes nothing |
| MilestoneTable.MilestoneDao.Delete | app/src/main/java/com/codelabs/state/data/MilestoneDao.kt:22-23 | only the row with the milestone's id is removed |
| Repository.EventIdOf | app/src/main/java/com/codelabs/state/data/repository/TaskRepository.kt:61-64 | a failing `addEvent` leaves the task without a calendar id |
| Repository.SeededRows | app/src/main/java/com/codelabs/state/data/repository/TaskRepository.kt:110-119 | seeding n catalog items stores each once under the consecutive fresh keys base..base+n-1 |
| Repository.DefaultCatalogPrices | app/src/main/java/com/codelabs/state/data/repository/TaskRepository.kt:112-117 | the default catalog has four unsaved items costing 500, 200, 1000 and 50 |
| Repository.DefaultTaskRepository.CurrentStats | app/src/main/java/com/codelabs/state/data/repository/TaskRepository.kt:95 | the profile is the stored row 1, or the default profile while none is stored |
| Repository.DefaultTaskRepository.AddTask | app/src/main/java/com/codelabs/state/data/repository/TaskRepository.kt:60-68 | one `addEvent` request is sent; the unchecked task is stored under a fresh id with the reply's event id, or none on a throw; its reminder is then scheduled under that id; a failing insert stores nothing and schedules nothing |
| Repository.DefaultTaskRepository.DeleteTask | app/src/main/java/com/codelabs/state/data/repository/TaskRepository.kt:70-74 | the event is deleted only for a calendar task; the reminder is cancelled before the row is removed; a failing cancel leaves the row |
| Repository.DefaultTaskRepository.UpdateTask | app/src/main/java/com/codelabs/state/data/repository/TaskRepository.kt:76-79 | the row is replaced if present, then the reminder is rescheduled, even when no row had that id |
| Repository.DefaultTaskRepository.CompleteTaskAndSync | app/src/main/java/com/codelabs/state/data/repository/TaskRepository.kt:81-92 | the stored profile becomes the rewarded one; the task is stored checked; its reminder is cancelled; a calendar task without the ✅ prefix is renamed to "✅ " + title; each failure stops the later steps |
| Repository.DefaultTaskRepository.UpdateUserName | app/src/main/java/com/codelabs/state/data/repository/TaskRepository.kt:97-100 | the stored or default profile is written back with only its name replaced |
| Repository.DefaultTaskRepository.UpdatePlayerGold | app/src/main/java/com/codelabs/state/data/repository/TaskRepository.kt:106-109 | the stored or default profile is written back with only its gold replaced |
| Repository.DefaultTaskRepository.AddReward | app/src/main/java/com/codelabs/state/data/repository/TaskRepository.kt:104 | the item is inserted: a new item under a fresh id, an existing id replaced |
| Repository.DefaultTaskRepository.DeleteReward | app/src/main/java/com/codelabs/state/data/repository/TaskRepository.kt:105 | only the item's row is removed |
| Repository.DefaultTaskRepository.EnsureDefaultRewards | app/src/main/java/com/codelabs/state/data/repository/TaskRepository.kt:110-119 | an empty shop receives the four catalog items under fresh keys; a non-empty shop is untouched; afterwards the shop is never empty, so a second call does nothing |
| Repository.DefaultTaskRepository.AddMilestone | app/src/main/java/com/codelabs/state/data/repository/TaskRepository.kt:124-126 | a milestone with no progress and the given total is stored under a fresh id |
| Repository.DefaultTaskRepository.UpdateMilestoneProgress | app/src/main/java/com/codelabs/state/data/repository/TaskRepository.kt:128-130 | an existing milestone row is replaced; a missing one changes nothing |
| Repository.CompletingTwiceGrantsTwice | app/src/main/java/com/codelabs/state/data/repository/TaskRepository.kt:81-92 | completing the same task twice stores twice its gold and twice its experience |
| ShopViewModel.PurchasedMessage | app/src/main/java/com/codelabs/state/viewmodel/ShopViewModel.kt:65 | the success message ends with the item's title |
| ShopViewModel.ShopViewModel.constructor | app/src/main/java/com/codelabs/state/viewmodel/ShopViewModel.kt:31-48 | the cached balance starts at 0, no message is emitted, and an empty shop is seeded with the default items |
| ShopViewModel.ShopViewModel.OnStatsDelivered | app/src/main/java/com/codelabs/state/viewmodel/ShopViewModel.kt:31-37 | the cached balance becomes the current profile's gold |
| ShopViewModel.ShopViewModel.OnPurchaseClick | app/src/main/java/com/codelabs/state/viewmodel/ShopViewModel.kt:53-71 | against the cached balance: an affordable item writes the stored or default profile back with gold = balance - cost as row 1 and emits the purchase message; otherwise nothing is stored and the refusal message is emitted |
| ShopViewModel.ShopViewModel.AddCustomReward | app/src/main/java/com/codelabs/state/viewmodel/ShopViewModel.kt:76-80 | an item with that title and price is stored under a fresh id |
| ShopViewModel.PurchaseWithFreshBalance | app/src/main/java/com/codelabs/state/viewmodel/ShopViewModel.kt:53-71 | with an up-to-date cache an affordable purchase lowers the stored gold by exactly the price and leaves it non-negative |
| DigitField.AcceptDigits | app/src/main/java/com/codelabs/state/ui/compose/WellnessTaskInput.kt:186 | an edit is taken exactly when the new text is all digits, otherwise the field keeps its text; a digit-only field stays digit-only |
| DigitField.EditsKeepDigits | app/src/main/java/com/codelabs/state/ui/compose/ShopScreen.kt:221 | a field that starts digit-only holds only digits after any sequence of edits |
| TaskInput.IntervalOf | app/src/main/java/com/codelabs/state/ui/compose/WellnessTaskInput.kt:211 | the interval is the parsed `Int` when the text parses, and 1 otherwise |
| TaskInput.BuildRrule | app/src/main/java/com/codelabs/state/ui/compose/WellnessTaskInput.kt:210-215 | there is no rule exactly for `NONE`; otherwise the rule starts with `FREQ=` |
| TaskInput.RruleRoundTrip | app/src/main/java/com/codelabs/state/ui/compose/WellnessTaskInput.kt:210-215 | a repeating task's rule reads back as its recurrence type and the interval parsed from the field |
| TaskInput.ZeroIntervalIsSent | app/src/main/java/com/codelabs/state/ui/compose/WellnessTaskInput.kt:211-212 | an interval field holding "0" sends `INTERVAL=0` |
| TaskInput.UnparsableIntervalIsOne | app/src/main/java/com/codelabs/state/ui/compose/WellnessTaskInput.kt:211 | an empty or oversized interval field sends `INTERVAL=1` |
| TaskInput.CanonicalIntervalSentAsTyped | app/src/main/java/com/codelabs/state/ui/compose/WellnessTaskInput.kt:211-212 | an interval typed without leading zeros and within the `Int` range appears in the rule exactly as typed |
| TaskInput.UntouchedIntervalIsOne | app/src/main/java/com/codelabs/state/ui/compose/WellnessTaskInput.kt:85 | the interval field as the form opens ("1") sends `INTERVAL=1` |
| TaskInput.OnAddClick | app/src/main/java/com/codelabs/state/ui/compose/WellnessTaskInput.kt:199-221 | a task is handed over exactly when the title is not blank and calendar permission is held, with that title, start and rule, and the title is then cleared; a non-blank title without permission only requests it |
| TaskInput.FormatTime | app/src/main/java/com/codelabs/state/ui/compose/WellnessTaskInput.kt:276-280 | the label is five characters: two digits for the hour, ':', two digits for the minute |
| TaskInput.FormatTimeInjective | app/src/main/java/com/codelabs/state/ui/compose/WellnessTaskInput.kt:276-280 | different times of day get different labels |
| ShopScreen.ParsedCost | app/src/main/java/com/codelabs/state/ui/compose/ShopScreen.kt:236 | the price is the parsed `Int` when the text parses, and 0 otherwise |
| ShopScreen.ConfirmAddReward | app/src/main/java/com/codelabs/state/ui/compose/ShopScreen.kt:236-238 | an item is confirmed exactly when the title is not blank and the text parses to a positive price, and it carries that title and price |
| ShopScreen.ConfirmAddRewardOnDigits | app/src/main/java/com/codelabs/state/ui/compose/ShopScreen.kt:221-238 | for the digit-only texts the field can hold, an item is confirmed exactly when the title is not blank and the number is in 1..Int.MAX_VALUE |
| ShopScreen.UntouchedPriceIsRefused | app/src/main/java/com/codelabs/state/ui/compose/ShopScreen.kt:196-237 | the dialog as it opens, with an empty price, confirms nothing |
| ProfileScreen.ParsedMax | app/src/main/java/com/codelabs/state/ui/compose/ProfileScreen.kt:339 | the total is the parsed `Int` when the text parses, and 10 otherwise |
| ProfileScreen.ConfirmAddMilestone | app/src/main/java/com/codelabs/state/ui/compose/ProfileScreen.kt:339-340 | a milestone is confirmed exactly when the title is not blank and the total is positive |
| ProfileScreen.ConfirmEditName | app/src/main/java/com/codelabs/state/ui/compose/ProfileScreen.kt:302 | a name is confirmed exactly when it is not blank |
| ProfileScreen.ConfirmAddMilestoneOnDigits | app/src/main/java/com/codelabs/state/ui/compose/ProfileScreen.kt:339-340 | on digit-only texts a milestone is offered exactly for a non-blank title and an empty or non-zero text; the total is the number when it fits in an `Int`, and 10 when the text is empty or too large |
| ProfileScreen.MaxFieldDefaults | app/src/main/java/com/codelabs/state/ui/compose/ProfileScreen.kt:316-340 | the total field as it opens ("10") or emptied gives a total of 10; a typed 0 is refused |
| ProfileScreen.NewMilestoneOffersIncrement | app/src/main/java/com/codelabs/state/ui/compose/ProfileScreen.kt:257-268 | a milestone created through the dialog starts not reached and shows its increment button |
| ProfileScreen.ReachingTotalCompletes | app/src/main/java/com/codelabs/state/ui/compose/ProfileScreen.kt:202 | progress reaching the total marks a milestone reached and hides its increment button |

## Left out

- RewardCalculator.Invoke: requires that no 32-bit `Int` overflows (`Fits`). Kotlin would wrap around silently on overflow; the model does not describe that case.
- PurchaseReward.Invoke: the same for `currentGold - cost`. An overflow happens only for a negative price, which the shop dialog never creates.
- ShopViewModel.ShopViewModel.OnPurchaseClick: inherits that precondition. It reads the cached balance, as the code does. The cache is 0 until the profile stream first delivers, and stays stale until it delivers again. The model updates the cache only through `OnStatsDelivered`, so the ordering of coroutines is not modelled.
- Repository.DefaultTaskRepository.CompleteTaskAndSync: inherits `RewardCalculator.Invoke`'s no-overflow precondition.
- `String.toIntOrNull` and `Char.isDigit` are modelled for ASCII digits only. Kotlin also accepts other Unicode decimal digits.
- Ids are unbounded in the model; `rowId.toInt()` (TaskRepository.kt:67) truncating a `Long` above `Int.MAX_VALUE` is not modelled.
- FormatTime: the default locale's digits are not modelled; `String.format` (WellnessTaskInput.kt:275-279) uses the default locale, whose zero digit may not be '0', while the model's label always has ASCII digits. The same holds for `KotlinText.FormatTwoDigits`.
- Long arithmetic in the reminder delay is unbounded in the model (no 64-bit wrap-around).
- Room's `Flow` queries (`getAllActiveTasks`, `getAllCompletedTasks`, `getCompletedTasksCount`, `getUserStats`, `getAllRewards`, `getAllMilestones`) are modelled as functions of the current rows. Re-emission and its timing are not modelled.
- Lists are modelled as sets of rows, so the order in which Room returns rows is not modelled.
- Coroutines, dispatchers and `viewModelScope` are not modelled: each operation runs to completion on its own.
- Storage failures other than one throwing write per operation are not modelled (`Fault`).
- Repository.DefaultTaskRepository.UpdateUserName, Repository.DefaultTaskRepository.UpdatePlayerGold, Repository.DefaultTaskRepository.AddReward, Repository.DefaultTaskRepository.DeleteReward, Repository.DefaultTaskRepository.EnsureDefaultRewards, Repository.DefaultTaskRepository.AddMilestone, Repository.DefaultTaskRepository.UpdateMilestoneProgress, ShopViewModel.ShopViewModel.constructor, ShopViewModel.ShopViewModel.OnPurchaseClick and ShopViewModel.ShopViewModel.AddCustomReward: modelled without storage failures, so each runs to completion. Two behaviours of the app are therefore not captured. An insert that throws partway through the seeding loop (TaskRepository.kt:117) leaves a partial catalog, which the `count() == 0` guard (TaskRepository.kt:111) never completes. A throwing `updatePlayerGold` (ShopViewModel.kt:64) means the success message (ShopViewModel.kt:65) is never emitted.
- Reminders.ReminderManager: `pending` is WorkManager's unique-work table. A job stays in it until it is replaced or cancelled. Jobs running when their delay expires, and leaving the table, are not modelled.
- The calendar data source is not modelled beyond the requests it receives and the `addEvent` reply. Event creation, deletion, renaming and their permission checks are outside this model.
- The notifier (`TaskNotifier.kt`) is outside this model. The worker's notification is its result.
- `incrementMilestoneProgress`, called by the profile screen, has no definition in `ProfileViewModel.kt`. Only the screen's rule for when the increment button is shown is modelled.
- `WellnessViewModel.kt`, `TasksViewModel.kt` (including the end time `start + 3600000` it passes to `addTask`) and the other screens are not part of this model.
- The profile screen's progress text and bar, avatar handling and all layout and colours are display only and not modelled.
- The time pickers are not modelled. `FormatTime` takes the hour (0..23) and minute (0..59) that `Calendar` reports.
