/** The profile table: reads of row 1 and an upsert. */
module StatsTable {
  import opened Wrappers
  import opened Records

  ghost predicate KeyedById(rows: map<int, UserStats>) {
    forall id :: id in rows ==> rows[id].id == id
  }

  /** `SELECT * FROM user_stats WHERE id = 1`: the singleton row, null when it does not exist */
  function SingletonRow(rows: map<int, UserStats>): (r: Option<UserStats>)
    ensures r.Some? <==> SingletonId in rows
    ensures r.Some? ==> r.value == rows[SingletonId]
  {
    if SingletonId in rows then Some(rows[SingletonId]) else None
  }

  /** `UserStatsDao` */
  class UserStatsDao {
    var rows: map<int, UserStats>

    ghost predicate Valid()
      reads this
    {
      KeyedById(rows)
    }

    constructor ()
      ensures Valid() && rows == map[]
    {
      rows := map[];
    }

    /** `getUserStats()`; the stream `getUserStatsFlow()` runs the same query and observes the same row */
    function GetUserStats(): (r: Option<UserStats>)
      reads this
      requires Valid()
      ensures r.Some? ==> r.value.id == SingletonId
    {
      SingletonRow(rows)
    }

    /** `insertOrUpdate(stats)` with REPLACE */
    method InsertOrUpdate(stats: UserStats)
      requires Valid()
      modifies this
      ensures Valid()
      ensures rows == old(rows)[stats.id := stats]
      ensures stats.id == SingletonId ==> GetUserStats() == Some(stats)
      ensures stats.id != SingletonId ==> GetUserStats() == old(GetUserStats())
    {
      rows := rows[stats.id := stats];
    }
  }
}
