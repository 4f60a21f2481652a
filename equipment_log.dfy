/** The `equipment_log` table both components talk to: its row type and an
    in-memory table that stands in for the hosted store (insert, update by
    id, select by status). */
module EquipmentLog {
  import opened Options
  import opened NumberText

  datatype Status = CheckedIn | CheckedOut

  /** A calendar date as the table holds it: its ISO text ("2024-01-01") and
      the day it names, counted from 1970-01-01 in UTC. */
  datatype CalendarDate = CalendarDate(text: string, epochDay: int)

  /** One row of the table. `rate` is None where `parseFloat` gave NaN,
      which is stored as null; `cost` is in cents. */
  datatype Record = Record(
    id: int,
    equipmentName: string,
    renterNumber: string,
    rate: Option<Decimal>,
    status: Status,
    checkedInAt: Option<CalendarDate>,
    checkedOutAt: Option<CalendarDate>,
    cost: Option<int>)

  /** A row carries a check-out date and a cost exactly when it is checked out. */
  predicate Settled(r: Record) {
    && (r.checkedOutAt.Some? <==> r.status == CheckedOut)
    && (r.cost.Some? <==> r.status == CheckedOut)
  }

  ghost predicate AllSettled(rows: map<int, Record>) {
    forall k :: k in rows ==> Settled(rows[k])
  }

  /** Every row is stored under its own id. */
  predicate Keyed(rows: map<int, Record>) {
    forall k :: k in rows ==> rows[k].id == k
  }

  predicate Ascending(s: seq<Record>) {
    forall i, j :: 0 <= i < j < |s| ==> s[i].id < s[j].id
  }

  /** `s` lists the checked-in rows of the table, each once, by ascending id. */
  ghost predicate ListsCheckedIn(rows: map<int, Record>, s: seq<Record>) {
    && Ascending(s)
    && (forall r :: r in s ==> r.id in rows && rows[r.id] == r && r.status == CheckedIn)
    && (forall k :: k in rows && rows[k].status == CheckedIn ==> rows[k] in s)
  }

  /** The checked-in rows whose ids lie in [lo, hi), in ascending id order. */
  function CheckedInFrom(rows: map<int, Record>, lo: int, hi: int): (s: seq<Record>)
    requires Keyed(rows)
    ensures Ascending(s)
    ensures forall r :: r in s ==>
              lo <= r.id < hi && r.id in rows && rows[r.id] == r && r.status == CheckedIn
    ensures forall k :: lo <= k < hi && k in rows && rows[k].status == CheckedIn ==> rows[k] in s
    decreases hi - lo
  {
    if lo >= hi then []
    else
      var rest := CheckedInFrom(rows, lo + 1, hi);
      if lo in rows && rows[lo].status == CheckedIn then [rows[lo]] + rest else rest
  }

  /** Two id-ascending sequences with the same elements are the same sequence. */
  lemma {:induction false} AscendingUnique(a: seq<Record>, b: seq<Record>)
    requires Ascending(a) && Ascending(b)
    requires forall r :: r in a <==> r in b
    ensures a == b
  {
    assert (a == []) == (b == []) by {
      if a != [] { assert a[0] in b; }
      if b != [] { assert b[0] in a; }
    }
    if a != [] {
      assert a[0] in b;
      assert b[0] in a;
      assert a[0] == b[0];
      forall r | r in a[1..] ensures r in b[1..] {
        assert r in b && r != b[0];
      }
      forall r | r in b[1..] ensures r in a[1..] {
        assert r in a && r != a[0];
      }
      AscendingUnique(a[1..], b[1..]);
      assert a == [a[0]] + a[1..];
      assert b == [b[0]] + b[1..];
    }
  }

  /** The listing of the checked-in rows is determined by the table: two
      selects with no write between them list the same rows in the same order. */
  lemma ListingUnique(rows: map<int, Record>, a: seq<Record>, b: seq<Record>)
    requires ListsCheckedIn(rows, a) && ListsCheckedIn(rows, b)
    ensures a == b
  {
    forall r ensures r in a <==> r in b {
      if r in a {
        assert rows[r.id] == r;
      }
      if r in b {
        assert rows[r.id] == r;
      }
    }
    AscendingUnique(a, b);
  }

  /** The in-memory table: rows by id, and the next id the store assigns. */
  class Table {
    var rows: map<int, Record>
    var nextId: int

    ghost predicate Valid()
      reads this
    {
      && 1 <= nextId
      && Keyed(rows)
      && forall k :: k in rows ==> 1 <= k < nextId
    }

    constructor ()
      ensures Valid() && rows == map[] && nextId == 1
    {
      rows := map[];
      nextId := 1;
    }

    /** `select('*').eq('status', 'checked_in')`, ordered by id. */
    function SelectCheckedIn(): (s: seq<Record>)
      reads this
      requires Valid()
      ensures ListsCheckedIn(rows, s)
    {
      CheckedInFrom(rows, 1, nextId)
    }

    /** `insert([row])`: stores the row under a fresh id, which it returns. */
    method Insert(row: Record) returns (id: int)
      requires Valid()
      modifies this
      ensures Valid()
      ensures id == old(nextId) && id !in old(rows)
      ensures rows == old(rows)[id := row.(id := id)]
      ensures nextId == old(nextId) + 1
    {
      id := nextId;
      rows := rows[id := row.(id := id)];
      nextId := nextId + 1;
    }

    /** `update({status: 'checked_out', checked_out_at, cost}).eq('id', id)`:
        patches those three fields of the row with that id, if there is one,
        whatever its status. */
    method UpdateCheckOut(id: int, checkedOutAt: CalendarDate, cost: int)
      requires Valid()
      modifies this`rows
      ensures Valid()
      ensures id in old(rows) ==>
                rows == old(rows)[id := old(rows)[id].(status := CheckedOut,
                                                     checkedOutAt := Some(checkedOutAt),
                                                     cost := Some(cost))]
      ensures id !in old(rows) ==> rows == old(rows)
    {
      if id in rows {
        rows := rows[id := rows[id].(status := CheckedOut, checkedOutAt := Some(checkedOutAt), cost := Some(cost))];
      }
    }
  }
}
