/** The `MaintenanceForm` component: it lists the checked-in equipment by
    ascending id, looks the selected id up in that list and fills in the
    maintenance-request template. */
module Maintenance {
  import opened Options
  import opened NumberText
  import opened EquipmentLog

  /** The first line of every request, wrench emoji included. */
  const HEADER: string := "\U{1F527} Maintenance Request"

  /** `value || 'N/A'` on a text field: the value, unless it is empty. */
  function OrNA(value: string): (shown: string)
    ensures shown != ""
    ensures value != "" ==> shown == value
    ensures value == "" ==> shown == "N/A"
  {
    if value == "" then "N/A" else value
  }

  /** The stored check-in date as text; a null date is empty, hence falsy. */
  function DateText(d: Option<CalendarDate>): string {
    match d
    case None => ""
    case Some(date) => date.text
  }

  /** The six lines of the request for `item` and the issue description:
      the header, a blank line, the equipment with its id, the issue, the
      check-in date or N/A, and the renter contact or N/A. */
  function MessageLines(item: Record, issue: string): (lines: seq<string>)
    ensures |lines| == 6 && lines[0] == HEADER && lines[1] == ""
  {
    [ HEADER,
      "",
      "Equipment: " + item.equipmentName + " (ID: " + IntText(item.id) + ")",
      "Issue: " + issue,
      "Checked in on: " + OrNA(DateText(item.checkedInAt)),
      "Renter contact: " + OrNA(item.renterNumber) ]
  }

  /** `lines.join('\n')`. */
  function JoinLines(lines: seq<string>): string {
    if |lines| == 0 then ""
    else if |lines| == 1 then lines[0]
    else lines[0] + "\n" + JoinLines(lines[1..])
  }

  /** `s.split('\n')`: the pieces between newlines, one more than there are
      newlines. */
  function SplitLines(s: string): (lines: seq<string>)
    ensures |lines| >= 1
  {
    if s == [] then [""]
    else if s[0] == '\n' then [""] + SplitLines(s[1..])
    else
      var rest := SplitLines(s[1..]);
      [[s[0]] + rest[0]] + rest[1..]
  }

  /** The request template filled in for `item`: its lines, one per line of
      the template literal, joined by newlines. Each of the six lines occurs
      verbatim in the message. */
  function Message(item: Record, issue: string): (m: string)
    ensures forall k :: 0 <= k < 6 ==> Contains(m, MessageLines(item, issue)[k])
  {
    var lines := MessageLines(item, issue);
    assert forall k :: 0 <= k < 6 ==> Contains(JoinLines(lines), lines[k]) by {
      forall k | 0 <= k < 6 ensures Contains(JoinLines(lines), lines[k]) {
        JoinContainsLine(lines, k);
      }
    }
    JoinLines(lines)
  }

  /** `u` occurs in `s` at index `i`. */
  predicate OccursAt(s: string, u: string, i: int) {
    0 <= i <= |s| - |u| && s[i..i + |u|] == u
  }

  /** `u` occurs in `s`. */
  ghost predicate Contains(s: string, u: string) {
    exists i :: OccursAt(s, u, i)
  }

  lemma ContainsTransitive(s: string, t: string, u: string)
    requires Contains(s, t) && Contains(t, u)
    ensures Contains(s, u)
  {
    var i :| OccursAt(s, t, i);
    var j :| OccursAt(t, u, j);
    assert s[i..i + |t|][j..j + |u|] == u;
    forall k | 0 <= k < |u| ensures s[i + j..i + j + |u|][k] == u[k] {
      assert s[i + j + k] == s[i..i + |t|][j + k];
    }
    assert OccursAt(s, u, i + j);
  }

  /** Each line occurs verbatim in the joined text. */
  lemma {:induction false} JoinContainsLine(lines: seq<string>, k: int)
    requires 0 <= k < |lines|
    ensures Contains(JoinLines(lines), lines[k])
  {
    var j := JoinLines(lines);
    if |lines| == 1 {
      assert OccursAt(j, lines[0], 0);
    } else if k == 0 {
      assert OccursAt(j, lines[0], 0);
    } else {
      JoinContainsLine(lines[1..], k - 1);
      var i :| OccursAt(JoinLines(lines[1..]), lines[k], i);
      var off := |lines[0]| + 1;
      assert j == (lines[0] + "\n") + JoinLines(lines[1..]);
      assert j[off + i..off + i + |lines[k]|] == JoinLines(lines[1..])[i..i + |lines[k]|];
      assert OccursAt(j, lines[k], off + i);
    }
  }

  /** With at least two lines, the joined text ends with a newline and the
      last line. */
  lemma {:induction false} JoinEndsWithLast(lines: seq<string>)
    requires |lines| >= 2
    ensures var tail := "\n" + lines[|lines| - 1];
            |JoinLines(lines)| >= |tail| && JoinLines(lines)[|JoinLines(lines)| - |tail|..] == tail
  {
    var rest := lines[1..];
    if |lines| > 2 {
      JoinEndsWithLast(rest);
    }
    assert rest[|rest| - 1] == lines[|lines| - 1];
  }

  /** Every message opens with the header line and a blank line. */
  lemma MessageStartsWithHeader(item: Record, issue: string)
    ensures var m := Message(item, issue);
            |m| >= |HEADER| + 2 && m[..|HEADER| + 2] == HEADER + "\n\n"
  {
    var ls := MessageLines(item, issue);
    var m := Message(item, issue);
    assert ls[1..][1..] == ls[2..];
    assert JoinLines(ls[1..]) == "" + "\n" + JoinLines(ls[2..]);
    assert m == HEADER + "\n" + ("" + "\n" + JoinLines(ls[2..]));
    assert m == (HEADER + "\n\n") + JoinLines(ls[2..]);
  }

  /** Every message closes with the renter-contact line: the number, or N/A
      when it is empty. */
  lemma MessageEndsWithRenter(item: Record, issue: string)
    ensures var m := Message(item, issue);
            var last := "\nRenter contact: " + OrNA(item.renterNumber);
            |m| >= |last| && m[|m| - |last|..] == last
  {
    JoinEndsWithLast(MessageLines(item, issue));
    assert "\n" + ("Renter contact: " + OrNA(item.renterNumber))
        == "\nRenter contact: " + OrNA(item.renterNumber);
  }

  /** The message names the equipment and its id verbatim. */
  lemma MessageNamesEquipment(item: Record, issue: string)
    ensures Contains(Message(item, issue), item.equipmentName)
    ensures Contains(Message(item, issue), IntText(item.id))
  {
    var line := MessageLines(item, issue)[2];
    JoinContainsLine(MessageLines(item, issue), 2);
    var pre := "Equipment: " + item.equipmentName + " (ID: ";
    assert line == pre + IntText(item.id) + ")";
    assert OccursAt(line, item.equipmentName, |"Equipment: "|);
    assert OccursAt(line, IntText(item.id), |pre|);
    ContainsTransitive(Message(item, issue), line, item.equipmentName);
    ContainsTransitive(Message(item, issue), line, IntText(item.id));
  }

  /** The message holds the issue description verbatim. */
  lemma MessageHoldsIssue(item: Record, issue: string)
    ensures Contains(Message(item, issue), issue)
  {
    var line := MessageLines(item, issue)[3];
    JoinContainsLine(MessageLines(item, issue), 3);
    assert OccursAt(line, issue, |"Issue: "|);
    ContainsTransitive(Message(item, issue), line, issue);
  }

  /** The message shows the check-in date, or N/A when it is empty or null. */
  lemma MessageShowsCheckInDate(item: Record, issue: string)
    ensures Contains(Message(item, issue), "Checked in on: " + OrNA(DateText(item.checkedInAt)))
  {
    JoinContainsLine(MessageLines(item, issue), 4);
  }

  /** A line without newlines followed by a newline splits off as one piece. */
  lemma {:induction false} SplitAfterLine(line: string, rest: string)
    requires '\n' !in line
    ensures SplitLines(line + "\n" + rest) == [line] + SplitLines(rest)
  {
    if line == [] {
      assert line + "\n" + rest == ['\n'] + rest;
      assert (['\n'] + rest)[1..] == rest;
    } else {
      var s := line + "\n" + rest;
      assert s[0] == line[0];
      assert s[1..] == line[1..] + "\n" + rest;
      SplitAfterLine(line[1..], rest);
      assert [line[0]] + line[1..] == line;
    }
  }

  /** A line without newlines is a single piece. */
  lemma {:induction false} SplitSingleLine(line: string)
    requires '\n' !in line
    ensures SplitLines(line) == [line]
  {
    if line != [] {
      SplitSingleLine(line[1..]);
      assert [line[0]] + line[1..] == line;
    }
  }

  /** Splitting what was joined gives the lines back, when none of them holds
      a newline. */
  lemma {:induction false} SplitJoin(lines: seq<string>)
    requires |lines| >= 1
    requires forall i :: 0 <= i < |lines| ==> '\n' !in lines[i]
    ensures SplitLines(JoinLines(lines)) == lines
  {
    if |lines| == 1 {
      SplitSingleLine(lines[0]);
    } else {
      SplitAfterLine(lines[0], JoinLines(lines[1..]));
      SplitJoin(lines[1..]);
      assert [lines[0]] + lines[1..] == lines;
    }
  }

  /** When the free-text fields hold no newline, the message reads back line
      by line as the template's six lines. */
  lemma MessageReadsBack(item: Record, issue: string)
    requires '\n' !in item.equipmentName && '\n' !in issue
    requires '\n' !in DateText(item.checkedInAt) && '\n' !in item.renterNumber
    ensures SplitLines(Message(item, issue)) == MessageLines(item, issue)
  {
    var ls := MessageLines(item, issue);
    forall i | 0 <= i < |ls| ensures '\n' !in ls[i] { }
    SplitJoin(ls);
  }

  /** Index of the first item whose id is `id`. */
  function FindIndex(items: seq<Record>, id: int): (r: Option<nat>)
    ensures r.Some? ==> r.value < |items| && items[r.value].id == id
    ensures r.Some? ==> forall j :: 0 <= j < r.value ==> items[j].id != id
    ensures r.None? ==> forall j :: 0 <= j < |items| ==> items[j].id != id
  {
    if items == [] then None
    else if items[0].id == id then Some(0)
    else
      match FindIndex(items[1..], id)
      case None => None
      case Some(i) => Some(i + 1)
  }

  /** `items.find(item => item.id === parseInt(selectedId))`: the first item
      with that id; a NaN id matches nothing. */
  function Lookup(items: seq<Record>, selectedId: string): (r: Option<Record>)
    ensures r.Some? ==> r.value in items && ParseInt(selectedId) == Some(r.value.id)
    ensures r.Some? ==>
              exists i :: 0 <= i < |items| && items[i] == r.value &&
                forall j :: 0 <= j < i ==> items[j].id != r.value.id
    ensures r.None? <==>
              ParseInt(selectedId).None? ||
              forall j :: 0 <= j < |items| ==> items[j].id != ParseInt(selectedId).value
  {
    match ParseInt(selectedId)
    case None => None
    case Some(id) =>
      match FindIndex(items, id)
      case None => None
      case Some(i) => Some(items[i])
  }

  /** Choosing an option of the list (its value is the id as text) finds
      exactly that item. */
  lemma SelectedOptionIsFound(items: seq<Record>, i: int)
    requires Ascending(items) && 0 <= i < |items|
    ensures Lookup(items, IntText(items[i].id)) == Some(items[i])
  {
    ParseIntText(items[i].id);
    var k := FindIndex(items, items[i].id);
    assert k.Some?;
  }

  class MaintenanceForm {
    var checkedInEquipments: seq<Record>
    var selectedId: string
    var issueDescription: string
    var generatedMessage: string

    constructor ()
      ensures checkedInEquipments == [] && selectedId == ""
      ensures issueDescription == "" && generatedMessage == ""
    {
      checkedInEquipments, selectedId := [], "";
      issueDescription, generatedMessage := "", "";
    }

    /** `fetchEquipments`: the checked-in rows ordered by ascending id; on a
        store error the list is left as it was. */
    method FetchEquipments(log: Table, ok: bool)
      requires log.Valid()
      modifies this`checkedInEquipments
      ensures ok ==> ListsCheckedIn(log.rows, checkedInEquipments)
      ensures !ok ==> checkedInEquipments == old(checkedInEquipments)
    {
      if ok {
        checkedInEquipments := log.SelectCheckedIn();
      }
    }

    /** `handleGenerate`: fills in the template for the selected item, or
        leaves the message unchanged when no listed item has that id. */
    method Generate()
      modifies this`generatedMessage
      ensures Lookup(checkedInEquipments, selectedId).None? ==>
                generatedMessage == old(generatedMessage)
      ensures Lookup(checkedInEquipments, selectedId).Some? ==>
                generatedMessage == Message(Lookup(checkedInEquipments, selectedId).value, issueDescription)
    {
      var selected := Lookup(checkedInEquipments, selectedId);
      if selected.None? {
        return;
      }
      generatedMessage := Message(selected.value, issueDescription);
    }
  }
}
