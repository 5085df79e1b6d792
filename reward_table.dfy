/** The reward-shop table: list, count and keyed writes. */
module RewardTable {
  import opened Records

  ghost predicate KeyedById(rows: map<int, RewardItem>) {
    forall id :: id in rows ==> rows[id].id == id
  }

  /** The items a `SELECT *` lists: one per row */
  function Listing(rows: map<int, RewardItem>): set<RewardItem> {
    set id | id in rows :: rows[id]
  }

  /** A listed item is the row stored under its own id. */
  lemma ListedItemIsRow(rows: map<int, RewardItem>, item: RewardItem)
    requires KeyedById(rows) && item in Listing(rows)
    ensures item.id in rows && rows[item.id] == item
  {
    var k :| k in rows && rows[k] == item;
  }

  lemma NonEmptyHasKey(rows: map<int, RewardItem>)
    requires |rows| > 0
    ensures exists k :: k in rows
  {
    if forall k :: k !in rows {
      assert false;
    }
  }

  /** When each row is stored under its own id, the listed items are as many as the rows. */
  lemma {:induction false} ListingAsLargeAsTable(rows: map<int, RewardItem>)
    requires KeyedById(rows)
    ensures |Listing(rows)| == |rows|
    decreases |rows|
  {
    if |rows| > 0 {
      NonEmptyHasKey(rows);
      var k :| k in rows;
      var rest := rows - {k};
      assert KeyedById(rest);
      ListingAsLargeAsTable(rest);
      forall item | item in Listing(rows)
        ensures item in Listing(rest) + {rows[k]}
      {
        ListedItemIsRow(rows, item);
        if item.id != k {
          assert rest[item.id] == item;
        }
      }
      forall item | item in Listing(rest) + {rows[k]}
        ensures item in Listing(rows)
      {
        if item in Listing(rest) {
          ListedItemIsRow(rest, item);
          assert rows[item.id] == item;
        }
      }
      assert Listing(rows) == Listing(rest) + {rows[k]};
      if rows[k] in Listing(rest) {
        ListedItemIsRow(rest, rows[k]);
      }
      assert |rows.Keys| == |rest.Keys| + 1;
    }
  }

  /** `RewardItemDao`; `nextId` is the table's key generator, above every id it has stored. */
  class RewardItemDao {
    var rows: map<int, RewardItem>
    var nextId: int

    ghost predicate Valid()
      reads this
    {
      && KeyedById(rows)
      && AutoId !in rows
      && nextId > AutoId
      && forall id :: id in rows ==> id < nextId
    }

    constructor ()
      ensures Valid() && rows == map[]
    {
      rows := map[];
      nextId := 1;
    }

    /** `getAllRewards()`: every stored item */
    function GetAllRewards(): (r: set<RewardItem>)
      reads this
      requires Valid()
      ensures forall id :: id in rows ==> rows[id] in r
      ensures forall item :: item in r ==> item.id in rows && rows[item.id] == item
      ensures |r| == Count()
    {
      ListingAsLargeAsTable(rows);
      forall item | item in Listing(rows)
        ensures item.id in rows && rows[item.id] == item
      {
        ListedItemIsRow(rows, item);
      }
      Listing(rows)
    }

    /** `count()`: the number of stored items */
    function Count(): (n: nat)
      reads this
      ensures n == 0 <==> rows == map[]
    {
      |rows|
    }

    /** `insert(item)` with REPLACE; an item with the placeholder id gets a fresh id */
    method Insert(item: RewardItem) returns (rowId: int)
      requires Valid()
      modifies this
      ensures Valid()
      ensures item.id == AutoId ==> rowId == old(nextId) && rowId !in old(rows) && nextId == old(nextId) + 1
      ensures item.id != AutoId ==> rowId == item.id
      ensures rows == old(rows)[rowId := item.(id := rowId)]
    {
      if item.id == AutoId {
        rowId := nextId;
        nextId := nextId + 1;
      } else {
        rowId := item.id;
        if rowId >= nextId {
          nextId := rowId + 1;
        }
      }
      rows := rows[rowId := item.(id := rowId)];
    }

    /** `delete(item)`: removes only the row with the item's id */
    method Delete(item: RewardItem)
      requires Valid()
      modifies this
      ensures Valid() && nextId == old(nextId)
      ensures rows == old(rows) - {item.id}
    {
      rows := rows - {item.id};
    }
  }
}
