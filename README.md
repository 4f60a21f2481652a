# Equipment tracker: billing, check-in/check-out lifecycle and maintenance messages

This project models, in Dafny, the logic of a small rental-equipment tracker
written as two React components over one hosted table, `equipment_log`:

- **Billing** (`billing.dfy`): at check-out the rental is billed
  `max(ceil(elapsed / 86 400 000 ms), 1)` days. The cost is
  `Math.round(days × rate × 100) / 100`. Instants are integer milliseconds,
  rates are exact decimals and costs are integer cents.
- **The table** (`equipment_log.dfy`): the row type and the in-memory `Table`
  class that stands in for the hosted store. It supports insert, update by
  id and select of the checked-in rows.
- **The `App` component** (`tracker.dfy`): class `App` holds the form fields
  `equipmentName`, `renterNumber`, `rate` and `selectedId`, and the list
  `availableEquipments`. Its handlers are `FetchAvailable`, `CheckIn` and
  `CheckOut`. Each store round trip that can fail takes an `ok` flag.
- **The `MaintenanceForm` component** (`maintenance.dfy`): it holds the
  checked-in list ordered by id and looks up the selected id. It fills in the
  six-line maintenance template, with `N/A` for an empty check-in date or
  renter contact.
- **Number text** (`number_text.dfy`): the parts of `parseInt`,
  `parseFloat` and `String(n)` that the components rely on.

Where the documented design and the code disagree, the model follows the code:

- Check-out is billed from the stored check-in date (its UTC midnight) to the
  current instant, time of day included. It is not billed between two
  midnight-normalised dates. So a return three calendar days later, after
  midnight, bills four days (`Billing.SawReturnedOnThirdDay`,
  `Billing.DaysUsedByCalendarDay`).
- Check-out does not check that the row is still checked in. A row that is
  already checked out is billed again and its cost and date are overwritten
  (`Tracker.App.CheckOut`).
- Check-in validates neither the name nor the rate; only the browser form
  does. An unparseable rate is stored as null. At check-out a null rate
  multiplies as 0 (`Tracker.BillFor`).
- The `App` list is not ordered by the code. The model lists it by
  ascending id, which is the order the maintenance form asks for.

## Model

| member | source | states |
|---|---|---|
| `NumberText.LeadingDigits` | src/App.jsx:60 | the digit run `parseInt` reads is the longest prefix made of digits |
| `NumberText.ParseInt` | src/App.jsx:60-61 | `parseInt` gives NaN exactly when no digit follows the optional sign; without a minus the value is non-negative |
| `NumberText.NaturalText` | src/App.jsx:157-160 | `String(n)` of an id: at least one digit, digits only, a leading zero only for 0, and the digits denote n |
| `NumberText.IntText` | src/MaintenanceForm.jsx:43 | the text of an id is non-empty and has no newline |
| `NumberText.ParseIntText` | src/App.jsx:157-160 | the id written as an option's value is the id `parseInt(selectedId)` reads back |
| `NumberText.ParseDecimal` | src/App.jsx:40 | `parseFloat(rate)` is NaN exactly when there is no digit before the point and none right after it |
| `NumberText.DecimalOf` | src/App.jsx:40 | the decimal has as many places as fraction digits, and is absent only when both digit runs are empty |
| `NumberText.ParseDecimalWhole` | src/App.jsx:40 | a whole-number rate reads back as itself with no decimals |
| `NumberText.ParseDecimalFraction` | src/App.jsx:40 | a rate typed `whole.frac` reads back as whole × 10^k + frac at k decimals, k being the number of fraction digits |
| `Billing.DaysUsed` | src/App.jsx:79-83 | at least one day; one day when check-out is at or before check-in; otherwise (days − 1) days fall short of the elapsed time and days cover it, so partial days round up |
| `Billing.DaysUsedIsLeast` | src/App.jsx:80-83 | no whole number of days at least 1 that covers the elapsed time is smaller than the days billed |
| `Billing.DaysUsedMonotone` | src/App.jsx:80-83 | a later check-out never bills fewer days |
| `Billing.DaysUsedByCalendarDay` | src/App.jsx:75-83 | check-in at midnight of day i and check-out at time t of day o bills o − i + 1 days, or o − i when t is exactly midnight of a later day |
| `Billing.RoundHalfUp` | src/App.jsx:85 | `Math.round`: the result is within one half of n / d, and a half rounds up |
| `Billing.CostCents` | src/App.jsx:85 | the cost in cents is within half a cent of days × rate, and a half cent rounds up |
| `Billing.RoundHalfUpOfMultiple` | src/App.jsx:85 | rounding an exact amount changes nothing |
| `Billing.RoundHalfUpMonotone` | src/App.jsx:85 | rounding preserves order |
| `Billing.CostOfCentRate` | src/App.jsx:85 | for a rate with at most two decimals the cost is exactly days × rate in cents |
| `Billing.CostMonotone` | src/App.jsx:85 | at a non-negative rate, more days never cost less |
| `Billing.CostMonotoneInCheckOut` | src/App.jsx:79-85 | at a non-negative rate, the cost never decreases as the check-out instant moves later |
| `Billing.DrillReturnedSameDay` | src/App.jsx:79-85 | rate 10 returned on the check-in day: one day, 10.00 |
| `Billing.SawReturnedAfterThreeDays` | src/App.jsx:79-85 | rate 15.5 returned exactly 72 hours later: three days, 46.50 |
| `Billing.SawReturnedOnThirdDay` | src/App.jsx:75-85 | rate 15.5 returned after midnight of the third day: four days, 62.00 |
| `EquipmentLog.CheckedInFrom` | src/App.jsx:19-22 | the selection holds exactly the checked-in rows of the id range, as stored, by strictly ascending id |
| `EquipmentLog.Table.SelectCheckedIn` | src/MaintenanceForm.jsx:13-17 | `select().eq('status', 'checked_in').order('id')` lists every checked-in row of the table once, as stored, by ascending id |
| `EquipmentLog.AscendingUnique` | src/MaintenanceForm.jsx:17 | two id-ascending lists with the same rows are equal |
| `EquipmentLog.ListingUnique` | src/App.jsx:19-22 | the checked-in listing is determined by the table, so two fetches with no write between them give the same list |
| `EquipmentLog.Table.Insert` | src/App.jsx:36-44 | the insert adds exactly one row, under a fresh id, and leaves every other row as it was |
| `EquipmentLog.Table.UpdateCheckOut` | src/App.jsx:87-95 | the update by id patches status, check-out date and cost of that row only, whatever its status; an absent id changes nothing |
| `Tracker.CheckInInstant` | src/App.jsx:75 | a stored check-in date reads back as the UTC midnight of that day; a null date reads back as the epoch |
| `Tracker.BillFor` | src/App.jsx:74-85 | the bill counts the days from the stored date's midnight (the epoch for a null date) to now, at least one; a null rate costs 0; any other rate costs `CostCents` of those days, the product rounded to the cent; a non-negative rate never gives a negative cost |
| `Tracker.SawRateParses` | src/App.jsx:40 | the rate typed as "15.5" is stored as 15.5 |
| `Tracker.SawBilledThroughCheckOut` | src/App.jsx:36-85 | a row inserted with rate "15.5" and checked out exactly three days later is billed three days and 4650 cents |
| `Tracker.SameDayCheckOut` | src/App.jsx:75-85 | a check-out before the next midnight bills one day, and at a rate of whole cents exactly the rate |
| `Tracker.NewRow` | src/App.jsx:37-43 | the inserted row carries the form's name and renter, the parsed rate, status checked_in and today's date, with no check-out date or cost |
| `Tracker.MarkCheckedOut` | src/App.jsx:89-93 | the patched row is checked out with today's date and the cost, and its other fields are unchanged |
| `Tracker.App.constructor` | src/App.jsx:8-12 | the form fields start empty and the list starts empty |
| `Tracker.App.FetchAvailable` | src/App.jsx:18-29 | on success the list is exactly the checked-in rows; on a store error the previous list is kept |
| `Tracker.App.CheckIn` | src/App.jsx:31-55 | on success one new checked-in row dated today is added, the three form fields are cleared and the list is refreshed; the next id moves on by one; on a store error nothing changes; the selection is never touched; rows stay settled |
| `Tracker.App.CheckOut` | src/App.jsx:57-105 | with the check-out date taken as the UTC day of the billed instant: an unparseable selection, a failed fetch, a missing row or a failed update change nothing; otherwise only that row is patched with its bill, the selection is cleared, and a refreshed list no longer holds that id; checked-out rows stay checked out |
| `Tracker.ClearedSelectionIsIgnored` | src/App.jsx:60-61 | the cleared selection parses as NaN, so a repeated submit returns early |
| `Maintenance.OrNA` | src/MaintenanceForm.jsx:45-46 | the falsy fallback shows the value when it is non-empty and `N/A` when it is empty, never a blank |
| `Maintenance.Message` | src/MaintenanceForm.jsx:41-46 | each of the template's six lines (the header, a blank line, the equipment with its id, the issue, the check-in date or N/A, the renter contact or N/A) occurs verbatim in the message; the lemmas below pin where |
| `Maintenance.MessageStartsWithHeader` | src/MaintenanceForm.jsx:41-42 | every message begins with the "Maintenance Request" header line followed by a blank line |
| `Maintenance.MessageNamesEquipment` | src/MaintenanceForm.jsx:43 | the message contains the equipment name and its id verbatim |
| `Maintenance.MessageHoldsIssue` | src/MaintenanceForm.jsx:44 | the message contains the issue description verbatim |
| `Maintenance.MessageShowsCheckInDate` | src/MaintenanceForm.jsx:45 | the message contains "Checked in on: " followed by the date, or by N/A when the date is empty or null |
| `Maintenance.MessageEndsWithRenter` | src/MaintenanceForm.jsx:46 | the message ends with the renter-contact line, showing the number or N/A when it is empty |
| `Maintenance.SplitJoin` | src/MaintenanceForm.jsx:41-46 | splitting newline-joined lines that hold no newline gives the lines back |
| `Maintenance.MessageReadsBack` | src/MaintenanceForm.jsx:41-46 | when the free-text fields hold no newline, splitting the message at newlines gives exactly the six template lines |
| `Maintenance.FindIndex` | src/MaintenanceForm.jsx:32-34 | the index found is the first item with that id, and none is found only when no item has it |
| `Maintenance.Lookup` | src/MaintenanceForm.jsx:32-34 | a found item is the first item of the list with the parsed id; nothing is found exactly when the selection is NaN or no item has that id |
| `Maintenance.SelectedOptionIsFound` | src/MaintenanceForm.jsx:62-66 | choosing an option of the id-ascending list finds exactly that item |
| `Maintenance.MaintenanceForm.constructor` | src/MaintenanceForm.jsx:5-8 | the list, the selection, the issue and the message start empty |
| `Maintenance.MaintenanceForm.FetchEquipments` | src/MaintenanceForm.jsx:12-24 | on success the list is exactly the checked-in rows by ascending id; on a store error it is kept |
| `Maintenance.MaintenanceForm.Generate` | src/MaintenanceForm.jsx:29-49 | when the lookup finds nothing the message is unchanged; otherwise it becomes the template filled in for the found item and the issue |

## Left out

- Spreadsheet export (`src/utils/exportToExcel.js`, and `handleExport` at src/App.jsx:107-114): it is a wrapper around a spreadsheet library and a browser download, with no logic of its own.
- The hosted store client, `async`/`await` and error transport: the table is an in-memory map, and each round trip that can fail takes a success flag.
- The clock and date formatting: the current instant (`nowMs`) and today's date are parameters. A `CalendarDate` carries the ISO text and its day number side by side, and nothing checks that they agree.
- IEEE-754 arithmetic: rates are exact decimals and costs exact cents. Binary floating point can round differently from this (1.005 × 100 is 100.49999… as a double).
- `NumberText.ParseInt`: does not model leading white space, a `0x` prefix or digits beyond the exact range of a double. Option values never contain these.
- `NumberText.ParseDecimal`: does not model exponent notation, `Infinity` or leading white space in `parseFloat`.
- Browser form validation (`required` on the inputs): the handlers are modelled as running with whatever the fields hold.
- React rendering, `useEffect` scheduling, `alert`, `console` and the clipboard. The mount-time fetch is a call to `FetchAvailable` or `FetchEquipments`. The `onChange` setters are plain field writes.
- `Tracker.App.FetchAvailable`: the store returns the `App` list in an order the code does not fix; the model uses ascending id order.
- A null `renter_number` is not distinguished from an empty one: both are falsy and show as N/A.
- Two check-outs of the same id racing each other: concurrency is out of scope, and the code has no guard against it.
