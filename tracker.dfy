/** The `App` component: the check-in form, the check-out selector and the
    list of available equipment, over the `equipment_log` table. The clock,
    the store's failures and today's date are parameters of each handler. */
module Tracker {
  import opened Options
  import opened NumberText
  import opened Billing
  import opened EquipmentLog

  /** The days used and the cost in cents that the check-out alert reports. */
  datatype Bill = Bill(daysUsed: int, costCents: int)

  /** `new Date(item.checked_in_at)`: the stored date reads back as its UTC
      midnight, and a null date as the epoch. */
  function CheckInInstant(d: Option<CalendarDate>): (t: int)
    ensures d.None? ==> t == 0
    ensures d.Some? ==> t % MS_PER_DAY == 0 && t / MS_PER_DAY == d.value.epochDay
  {
    match d
    case None => 0
    case Some(date) => date.epochDay * MS_PER_DAY
  }

  /** The bill for checking `row` out at instant `nowMs`. A null rate
      multiplies as 0, so it costs nothing. */
  function BillFor(row: Record, nowMs: int): (b: Bill)
    ensures b.daysUsed == DaysUsed(CheckInInstant(row.checkedInAt), nowMs) && b.daysUsed >= 1
    ensures row.rate.None? ==> b.costCents == 0
    ensures row.rate.Some? ==> b.costCents == CostCents(b.daysUsed, row.rate.value)
    ensures row.rate.Some? && row.rate.value.units >= 0 ==> b.costCents >= 0
  {
    var days := DaysUsed(CheckInInstant(row.checkedInAt), nowMs);
    var cost := match row.rate
      case None => 0
      case Some(rate) => CostCents(days, rate);
    assert row.rate.Some? && row.rate.value.units >= 0 ==> cost >= 0 by {
      if row.rate.Some? && row.rate.value.units >= 0 {
        CostMonotone(0, days, row.rate.value);
        assert CostCents(0, row.rate.value) == 0 by {
          CostOfZeroDays(row.rate.value);
        }
      }
    }
    Bill(days, cost)
  }

  lemma CostOfZeroDays(rate: Decimal)
    ensures CostCents(0, rate) == 0
  {
    RoundHalfUpOfMultiple(0, Pow10(rate.scale));
  }

  /** Checked in today and checked out before the next midnight: one day,
      and at a rate of whole cents, exactly that rate. */
  lemma SameDayCheckOut(row: Record, nowMs: int)
    requires row.checkedInAt.Some?
    requires var midnight := row.checkedInAt.value.epochDay * MS_PER_DAY;
             midnight <= nowMs < midnight + MS_PER_DAY
    ensures BillFor(row, nowMs).daysUsed == 1
    ensures row.rate.Some? && row.rate.value.scale <= 2 ==>
              BillFor(row, nowMs).costCents == row.rate.value.units * Pow10(2 - row.rate.value.scale)
  {
  }

  /** The row as `handleCheckIn` inserts it (before the store assigns its id). */
  function NewRow(name: string, renter: string, rate: string, today: CalendarDate): (r: Record)
    ensures r.status == CheckedIn && r.checkedInAt == Some(today) && Settled(r)
    ensures r.equipmentName == name && r.renterNumber == renter && r.rate == ParseDecimal(rate)
  {
    Record(0, name, renter, ParseDecimal(rate), CheckedIn, Some(today), None, None)
  }

  /** The saw's rate as typed in the check-in form reads as 15.5. */
  lemma SawRateParses()
    ensures ParseDecimal("15.5") == Some(Decimal(155, 1))
  {
    assert NaturalText(1) == "1";
    assert NaturalText(15) == NaturalText(1) + "5";
    assert DigitsValue("5") == 5;
    ParseDecimalFraction(15, "5");
    assert NaturalText(15) + "." + "5" == "15.5";
  }

  /** The saw of the rental example, typed in as "15.5" and checked in on
      `today`, checked out exactly three days later: three days, 46.50. */
  lemma SawBilledThroughCheckOut(today: CalendarDate)
    ensures var row := NewRow("Saw", "555-0100", "15.5", today);
            BillFor(row, (today.epochDay + 3) * MS_PER_DAY) == Bill(3, 4650)
  {
    var row := NewRow("Saw", "555-0100", "15.5", today);
    SawRateParses();
    assert row.rate == Some(Decimal(155, 1));
    var checkIn := today.epochDay * MS_PER_DAY;
    assert CheckInInstant(row.checkedInAt) == checkIn;
    assert (today.epochDay + 3) * MS_PER_DAY == checkIn + 3 * MS_PER_DAY;
    SawReturnedAfterThreeDays(checkIn);
  }

  /** The patch `handleCheckOut` applies: only status, check-out date and cost. */
  function MarkCheckedOut(row: Record, today: CalendarDate, cost: int): (r: Record)
    ensures r.status == CheckedOut && Settled(r)
    ensures r.checkedOutAt == Some(today) && r.cost == Some(cost)
    ensures r.(status := row.status, checkedOutAt := row.checkedOutAt, cost := row.cost) == row
  {
    row.(status := CheckedOut, checkedOutAt := Some(today), cost := Some(cost))
  }

  class App {
    const log: Table
    var equipmentName: string
    var renterNumber: string
    var rate: string
    var availableEquipments: seq<Record>
    var selectedId: string

    ghost predicate Valid()
      reads this, log
    {
      log.Valid()
    }

    constructor (log: Table)
      requires log.Valid()
      ensures this.log == log && Valid()
      ensures equipmentName == "" && renterNumber == "" && rate == "" && selectedId == ""
      ensures availableEquipments == []
    {
      this.log := log;
      equipmentName, renterNumber, rate, selectedId := "", "", "", "";
      availableEquipments := [];
    }

    /** `fetchAvailableEquipments`: on success the list becomes the table's
        checked-in rows; on a store error the previous list is kept. */
    method FetchAvailable(ok: bool)
      requires Valid()
      modifies this`availableEquipments
      ensures ok ==> ListsCheckedIn(log.rows, availableEquipments)
      ensures !ok ==> availableEquipments == old(availableEquipments)
    {
      if ok {
        availableEquipments := log.SelectCheckedIn();
      }
    }

    /** `handleCheckIn`: inserts one checked-in row dated today; on success
        the three form fields are cleared and the list is fetched again, on a
        store error nothing changes. */
    method CheckIn(today: CalendarDate, insertOk: bool, refreshOk: bool)
      requires Valid()
      modifies this, log
      ensures Valid()
      ensures insertOk ==>
                var id := old(log.nextId);
                && id !in old(log.rows)
                && log.rows == old(log.rows)[id := NewRow(old(equipmentName), old(renterNumber), old(rate), today).(id := id)]
                && log.nextId == id + 1
                && equipmentName == "" && renterNumber == "" && rate == ""
      ensures insertOk && refreshOk ==> ListsCheckedIn(log.rows, availableEquipments)
      ensures insertOk && !refreshOk ==> availableEquipments == old(availableEquipments)
      ensures !insertOk ==>
                && log.rows == old(log.rows) && log.nextId == old(log.nextId)
                && equipmentName == old(equipmentName) && renterNumber == old(renterNumber)
                && rate == old(rate) && availableEquipments == old(availableEquipments)
      ensures selectedId == old(selectedId)
      ensures AllSettled(old(log.rows)) ==> AllSettled(log.rows)
    {
      if insertOk {
        var _ := log.Insert(NewRow(equipmentName, renterNumber, rate, today));
        equipmentName, renterNumber, rate := "", "", "";
        FetchAvailable(refreshOk);
      }
    }

    /** `handleCheckOut`: bills the selected row and marks it checked out.
        It stops, changing nothing, when the selection is not a number, the
        row cannot be fetched or the update fails. It does not look at the
        row's status: a row already checked out is billed and patched again. */
    method CheckOut(nowMs: int, today: CalendarDate, fetchOk: bool, updateOk: bool, refreshOk: bool)
      returns (bill: Option<Bill>)
      requires Valid()
      requires today.epochDay == nowMs / MS_PER_DAY
      modifies this, log
      ensures Valid()
      ensures bill.Some? <==>
                && ParseInt(old(selectedId)).Some?
                && fetchOk && ParseInt(old(selectedId)).value in old(log.rows)
                && updateOk
      ensures bill.None? ==>
                && log.rows == old(log.rows)
                && selectedId == old(selectedId)
                && availableEquipments == old(availableEquipments)
      ensures bill.Some? ==>
                var id := ParseInt(old(selectedId)).value;
                var row := old(log.rows)[id];
                && bill.value == BillFor(row, nowMs)
                && log.rows == old(log.rows)[id := MarkCheckedOut(row, today, bill.value.costCents)]
                && selectedId == ""
      ensures bill.Some? && refreshOk ==>
                && ListsCheckedIn(log.rows, availableEquipments)
                && forall r :: r in availableEquipments ==> r.id != ParseInt(old(selectedId)).value
      ensures bill.Some? && !refreshOk ==> availableEquipments == old(availableEquipments)
      ensures equipmentName == old(equipmentName) && renterNumber == old(renterNumber) && rate == old(rate)
      ensures log.nextId == old(log.nextId)
      ensures AllSettled(old(log.rows)) ==> AllSettled(log.rows)
      ensures forall k :: k in old(log.rows) && old(log.rows)[k].status == CheckedOut ==>
                k in log.rows && log.rows[k].status == CheckedOut
    {
      bill := None;
      var parsedId := ParseInt(selectedId);
      if parsedId.None? {
        return;
      }
      var id := parsedId.value;
      if !fetchOk || id !in log.rows {
        return;
      }
      var item := log.rows[id];
      var b := BillFor(item, nowMs);
      if !updateOk {
        return;
      }
      log.UpdateCheckOut(id, today, b.costCents);
      assert log.rows[id] == MarkCheckedOut(item, today, b.costCents);
      bill := Some(b);
      selectedId := "";
      FetchAvailable(refreshOk);
    }
  }

  /** After a successful check-out the selection is empty, so submitting the
      form again changes nothing. */
  lemma ClearedSelectionIsIgnored()
    ensures ParseInt("").None?
  {
  }
}
