/** The task table: the active filter, the completed count and keyed writes. */
module TaskTable {
  import opened Records

  /** `WHERE checked = 0` */
  function Active(rows: map<int, Task>): (r: map<int, Task>)
    ensures forall id :: id in r <==> id in rows && !rows[id].checked
    ensures forall id :: id in r ==> r[id] == rows[id]
  {
    map id | id in rows && !rows[id].checked :: rows[id]
  }

  /** `WHERE checked = 1` */
  function Completed(rows: map<int, Task>): (r: map<int, Task>)
    ensures forall id :: id in r <==> id in rows && rows[id].checked
    ensures forall id :: id in r ==> r[id] == rows[id]
  {
    map id | id in rows && rows[id].checked :: rows[id]
  }

  /** Every task is in exactly one of the two views, so the views' sizes add up to the table's. */
  lemma ActiveCompletedPartition(rows: map<int, Task>)
    ensures Active(rows).Keys !! Completed(rows).Keys
    ensures Active(rows).Keys + Completed(rows).Keys == rows.Keys
    ensures |Active(rows)| + |Completed(rows)| == |rows|
  {
    var a, c := Active(rows).Keys, Completed(rows).Keys;
    assert a + c == rows.Keys;
    assert |a + c| == |a| + |c|;
    assert |Active(rows)| == |a| && |Completed(rows)| == |c| && |rows| == |rows.Keys|;
  }

  /** Each row is stored under its own id. */
  ghost predicate KeyedById(rows: map<int, Task>) {
    forall id :: id in rows ==> rows[id].id == id
  }

  /** `WellnessTaskDao`; `nextId` is the table's key generator, above every id it has stored. */
  class WellnessTaskDao {
    var rows: map<int, Task>
    var nextId: int

    ghost predicate Valid()
      reads this
    {
      && KeyedById(rows)
      && AutoId !in rows
      && nextId > AutoId
      && forall id :: id in rows ==> id < nextId
    }

    constructor ()
      ensures Valid() && rows == map[]
    {
      rows := map[];
      nextId := 1;
    }

    /** `getAllActiveTasks()` */
    function ActiveTasks(): (r: map<int, Task>)
      reads this
      ensures forall id :: id in r <==> id in rows && !rows[id].checked
      ensures forall id :: id in r ==> r[id] == rows[id]
    {
      Active(rows)
    }

    /** `getAllCompletedTasks()`: the completed view (`checked = 1`) */
    function CompletedTasks(): (r: map<int, Task>)
      reads this
      ensures forall id :: id in r <==> id in rows && rows[id].checked
      ensures forall id :: id in r ==> r[id] == rows[id]
    {
      Completed(rows)
    }

    /** `getCompletedTasksCount()` */
    function CompletedTasksCount(): (n: nat)
      reads this
      ensures n == |rows| - |ActiveTasks()|
    {
      ActiveCompletedPartition(rows);
      |Completed(rows)|
    }

    /**
     * `insert(task)` with REPLACE: a task carrying the placeholder id gets a
     * fresh id; a task carrying a real id overwrites the row with that id.
     * Returns the row id.
     */
    method Insert(task: Task) returns (rowId: int)
      requires Valid()
      modifies this
      ensures Valid()
      ensures task.id == AutoId ==> rowId == old(nextId) && rowId !in old(rows)
      ensures task.id != AutoId ==> rowId == task.id
      ensures rows == old(rows)[rowId := task.(id := rowId)]
    {
      if task.id == AutoId {
        rowId := nextId;
        nextId := nextId + 1;
      } else {
        rowId := task.id;
        if rowId >= nextId {
          nextId := rowId + 1;
        }
      }
      rows := rows[rowId := task.(id := rowId)];
    }

    /** `update(task)`: replaces the row with the task's id; no row, no change */
    method Update(task: Task)
      requires Valid()
      modifies this
      ensures Valid() && nextId == old(nextId)
      ensures rows == if task.id in old(rows) then old(rows)[task.id := task] else old(rows)
    {
      if task.id in rows {
        rows := rows[task.id := task];
      }
    }

    /** `delete(task)`: removes the row with the task's id */
    method Delete(task: Task)
      requires Valid()
      modifies this
      ensures Valid() && nextId == old(nextId)
      ensures rows == old(rows) - {task.id}
    {
      rows := rows - {task.id};
    }
  }
}
