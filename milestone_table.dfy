/** The milestone table: list and keyed writes. */
module MilestoneTable {
  import opened Records

  ghost predicate KeyedById(rows: map<int, Milestone>) {
    forall id :: id in rows ==> rows[id].id == id
  }

  /** The milestones a `SELECT *` lists: one per row */
  function Listing(rows: map<int, Milestone>): set<Milestone> {
    set id | id in rows :: rows[id]
  }

  /** A listed milestone is the row stored under its own id. */
  lemma ListedMilestoneIsRow(rows: map<int, Milestone>, m: Milestone)
    requires KeyedById(rows) && m in Listing(rows)
    ensures m.id in rows && rows[m.id] == m
  {
    var k :| k in rows && rows[k] == m;
  }

  /** `MilestoneDao`; `nextId` is the table's key generator, above every id it has stored. */
  class MilestoneDao {
    var rows: map<int, Milestone>
    var nextId: int

    ghost predicate Valid()
      reads this
    {
      && KeyedById(rows)
      && AutoId !in rows
      && nextId > AutoId
      && forall id :: id in rows ==> id < nextId
    }

    constructor ()
      ensures Valid() && rows == map[]
    {
      rows := map[];
      nextId := 1;
    }

    /** `getAllMilestones()`: every stored milestone */
    function GetAllMilestones(): (r: set<Milestone>)
      reads this
      requires Valid()
      ensures forall id :: id in rows ==> rows[id] in r
      ensures forall m :: m in r ==> m.id in rows && rows[m.id] == m
    {
      forall m | m in Listing(rows)
        ensures m.id in rows && rows[m.id] == m
      {
        ListedMilestoneIsRow(rows, m);
      }
      Listing(rows)
    }

    /** `insert(milestone)` with REPLACE; a milestone with the placeholder id gets a fresh id */
    method Insert(milestone: Milestone) returns (rowId: int)
      requires Valid()
      modifies this
      ensures Valid()
      ensures milestone.id == AutoId ==> rowId == old(nextId) && rowId !in old(rows)
      ensures milestone.id != AutoId ==> rowId == milestone.id
      ensures rows == old(rows)[rowId := milestone.(id := rowId)]
    {
      if milestone.id == AutoId {
        rowId := nextId;
        nextId := nextId + 1;
      } else {
        rowId := milestone.id;
        if rowId >= nextId {
          nextId := rowId + 1;
        }
      }
      rows := rows[rowId := milestone.(id := rowId)];
    }

    /** `update(milestone)`: replaces the row with that id; no row, no change */
    method Update(milestone: Milestone)
      requires Valid()
      modifies this
      ensures Valid() && nextId == old(nextId)
      ensures rows == if milestone.id in old(rows) then old(rows)[milestone.id := milestone] else old(rows)
    {
      if milestone.id in rows {
        rows := rows[milestone.id := milestone];
      }
    }

    /** `delete(milestone)`: removes only the row with that id */
    method Delete(milestone: Milestone)
      requires Valid()
      modifies this
      ensures Valid() && nextId == old(nextId)
      ensures rows == old(rows) - {milestone.id}
    {
      rows := rows - {milestone.id};
    }
  }
}
