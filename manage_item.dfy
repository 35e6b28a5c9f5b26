/**
 * One row of the application list (src/pages/index/components/manage/ManageItem.tsx): the
 * status colour table, where the status dropdown and the actions menu open, the note editor,
 * and how the due date is shown.
 */
module ManageItem {
  import opened Wrappers
  import opened Types

  const Grey := "#9e9e9e"

  /** The seven statuses the colour table names; the first shares the default grey. */
  const Preparing := "준비중"
  const Applied := "지원"
  const Documents := "서류전형"
  const CodingTest := "코테"
  const Interview := "면접"
  const Accepted := "최종합격"
  const Rejected := "불합격"

  /** The statuses with a colour of their own. */
  const Coloured: set<string> := {Applied, Documents, CodingTest, Interview, Accepted, Rejected}

  /** `getStatusColor` (ManageItem.tsx:38-57): total, grey for any status it does not name. */
  function StatusColor(status: string): (c: string)
    ensures c == Grey <==> status !in Coloured
  {
    if status == Preparing then Grey
    else if status == Applied then "#2196f3"
    else if status == Documents then "#ff9800"
    else if status == CodingTest then "#9c27b0"
    else if status == Interview then "#673ab7"
    else if status == Accepted then "#4caf50"
    else if status == Rejected then "#f44336"
    else Grey
  }

  /** The colour table as data: an independent statement of the switch. */
  const ColourTable: map<string, string> := map[
    Preparing := Grey, Applied := "#2196f3", Documents := "#ff9800", CodingTest := "#9c27b0",
    Interview := "#673ab7", Accepted := "#4caf50", Rejected := "#f44336"]

  /** The switch agrees with the table, and falls back to grey off the table. */
  lemma StatusColorMatchesTable(status: string)
    ensures StatusColor(status) == if status in ColourTable then ColourTable[status] else Grey
  {
  }

  /** Two statuses with a colour of their own never share it: the colour tells the status. */
  lemma StatusColorsDistinct(s: string, t: string)
    requires s in Coloured && t in Coloured && s != t
    ensures StatusColor(s) != StatusColor(t)
  {
  }

  /** Height of the status dropdown: a 40px frame and 36px per option (ManageItem.tsx:88). */
  function DropdownHeight(optionCount: nat): (h: int)
    ensures h >= 40
  {
    40 + optionCount * 36
  }

  /** The status dropdown opens upward when it would run past the window's bottom (ManageItem.tsx:89). */
  predicate DropUp(bottom: int, windowHeight: int, optionCount: nat) {
    bottom + DropdownHeight(optionCount) > windowHeight
  }

  /** The actions menu is 70px high and opens upward on the same rule (ManageItem.tsx:100-101). */
  predicate ActionMenuUp(bottom: int, windowHeight: int) {
    bottom + 70 > windowHeight
  }

  /** More options never turn an upward dropdown back downward. */
  lemma DropUpMonotone(bottom: int, windowHeight: int, n: nat, m: nat)
    requires n <= m && DropUp(bottom, windowHeight, n)
    ensures DropUp(bottom, windowHeight, m)
  {
  }

  /** A dropdown with at least one option is taller than the actions menu, so it turns upward first. */
  lemma ActionMenuUpImpliesDropUp(bottom: int, windowHeight: int, n: nat)
    requires n >= 1 && ActionMenuUp(bottom, windowHeight)
    ensures DropUp(bottom, windowHeight, n)
  {
  }

  /** With the page's seven options the dropdown needs 292px below its anchor. */
  lemma SevenOptionsThreshold(bottom: int, windowHeight: int)
    ensures DropUp(bottom, windowHeight, 7) <==> windowHeight - bottom < 292
  {
  }

  /** A callback the row invokes on its parent. */
  datatype RowCall = NoteChange(note: string) | StatusChange(status: string)

  /** The row's editor state and the callbacks it has made. */
  datatype Row = Row(isEditingNote: bool, editedNote: string, showStatusDropdown: bool,
                     showActions: bool, dropUp: bool, actionMenuUp: bool, calls: seq<RowCall>)

  /** `job.note || ''`. */
  function NoteText(note: Option<string>): (t: string)
    ensures Truthy(note) ==> t == note.value
    ensures !Truthy(note) ==> t == ""
  {
    if note.Some? then note.value else ""
  }

  /** The row as first rendered (ManageItem.tsx:25-31). */
  function InitialRow(job: Application): (r: Row)
    ensures !r.isEditingNote && r.editedNote == NoteText(job.note) && r.calls == []
  {
    Row(false, NoteText(job.note), false, false, false, false, [])
  }

  /** `handleNoteEdit` (ManageItem.tsx:109-111). */
  function AfterNoteEdit(r: Row): (s: Row)
    ensures s.isEditingNote && s.editedNote == r.editedNote && s.calls == r.calls
  {
    r.(isEditingNote := true)
  }

  /** The textarea's `onChange`. */
  function AfterType(r: Row, text: string): (s: Row)
    ensures s.editedNote == text && s.isEditingNote == r.isEditingNote && s.calls == r.calls
  {
    r.(editedNote := text)
  }

  /** `handleNoteSave` (ManageItem.tsx:113-116): leave edit mode and report the text once. */
  function AfterNoteSave(r: Row): (s: Row)
    ensures !s.isEditingNote && s.calls == r.calls + [NoteChange(r.editedNote)]
    ensures s.editedNote == r.editedNote
  {
    r.(isEditingNote := false, calls := r.calls + [NoteChange(r.editedNote)])
  }

  /** `handleNoteCancel` (ManageItem.tsx:118-121): restore the job's note and report nothing. */
  function AfterNoteCancel(r: Row, job: Application): (s: Row)
    ensures !s.isEditingNote && s.editedNote == NoteText(job.note) && s.calls == r.calls
  {
    r.(editedNote := NoteText(job.note), isEditingNote := false)
  }

  /** A status option's click (ManageItem.tsx:212-215 and 342-345): report it, close the dropdown. */
  function AfterSelectStatus(r: Row, status: string): (s: Row)
    ensures !s.showStatusDropdown && s.calls == r.calls + [StatusChange(status)]
    ensures s.editedNote == r.editedNote && s.isEditingNote == r.isEditingNote
  {
    r.(calls := r.calls + [StatusChange(status)], showStatusDropdown := false)
  }

  /** Editing, typing and saving reports exactly the typed text, once. */
  lemma EditTypeSave(r: Row, text: string)
    ensures AfterNoteSave(AfterType(AfterNoteEdit(r), text)).calls == r.calls + [NoteChange(text)]
  {
  }

  /** Editing, typing and cancelling reports nothing and leaves the row as a fresh one for that job. */
  lemma EditTypeCancel(job: Application, text: string)
    ensures var r := InitialRow(job);
            AfterNoteCancel(AfterType(AfterNoteEdit(r), text), job) == r
  {
  }

  /** The row's state fields, updated in place through their setters. */
  class RowState {
    var isEditingNote: bool
    var editedNote: string
    var showStatusDropdown: bool
    var showActions: bool
    var dropUp: bool
    var actionMenuUp: bool
    var calls: seq<RowCall>

    function Value(): Row
      reads this
    {
      Row(isEditingNote, editedNote, showStatusDropdown, showActions, dropUp, actionMenuUp, calls)
    }

    constructor (job: Application)
      ensures Value() == InitialRow(job)
    {
      isEditingNote := false;
      editedNote := if job.note.Some? then job.note.value else "";
      showStatusDropdown := false;
      showActions := false;
      dropUp := false;
      actionMenuUp := false;
      calls := [];
    }

    method HandleNoteEdit()
      modifies this
      ensures Value() == AfterNoteEdit(old(Value()))
    {
      isEditingNote := true;
    }

    method SetEditedNote(text: string)
      modifies this
      ensures Value() == AfterType(old(Value()), text)
    {
      editedNote := text;
    }

    method HandleNoteSave()
      modifies this
      ensures Value() == AfterNoteSave(old(Value()))
    {
      isEditingNote := false;
      calls := calls + [NoteChange(editedNote)];
    }

    method HandleNoteCancel(job: Application)
      modifies this
      ensures Value() == AfterNoteCancel(old(Value()), job)
    {
      editedNote := if job.note.Some? then job.note.value else "";
      isEditingNote := false;
    }

    method SelectStatus(status: string)
      modifies this
      ensures Value() == AfterSelectStatus(old(Value()), status)
    {
      calls := calls + [StatusChange(status)];
      showStatusDropdown := false;
    }

    method ToggleStatusDropdown()
      modifies this
      ensures showStatusDropdown == !old(showStatusDropdown)
      ensures Value() == old(Value()).(showStatusDropdown := !old(showStatusDropdown))
    {
      showStatusDropdown := !showStatusDropdown;
    }

    method ToggleActions()
      modifies this
      ensures Value() == old(Value()).(showActions := !old(showActions))
    {
      showActions := !showActions;
    }

    /** The placement effect of ManageItem.tsx:85-95, given the anchor's bottom and the window height. */
    method PlaceStatusDropdown(bottom: int, windowHeight: int, optionCount: nat)
      modifies this
      ensures old(showStatusDropdown) ==> dropUp == DropUp(bottom, windowHeight, optionCount)
      ensures Value() == old(Value()).(dropUp := dropUp)
      ensures !old(showStatusDropdown) ==> dropUp == old(dropUp)
    {
      if showStatusDropdown {
        var dropdownHeight := 40 + optionCount * 36;
        if bottom + dropdownHeight > windowHeight {
          dropUp := true;
        } else {
          dropUp := false;
        }
      }
    }

    /** The placement effect of ManageItem.tsx:97-107. */
    method PlaceActionsMenu(bottom: int, windowHeight: int)
      modifies this
      ensures old(showActions) ==> actionMenuUp == ActionMenuUp(bottom, windowHeight)
      ensures Value() == old(Value()).(actionMenuUp := actionMenuUp)
      ensures !old(showActions) ==> actionMenuUp == old(actionMenuUp)
    {
      if showActions {
        var dropdownHeight := 70;
        if bottom + dropdownHeight > windowHeight {
          actionMenuUp := true;
        } else {
          actionMenuUp := false;
        }
      }
    }
  }

  /** `s.replace(/-/g, '.')`. */
  function ReplaceDashes(s: string): (r: string)
    ensures |r| == |s|
    ensures '-' !in r
    ensures forall i :: 0 <= i < |s| && s[i] != '-' ==> r[i] == s[i]
  {
    if s == [] then []
    else [if s[0] == '-' then '.' else s[0]] + ReplaceDashes(s[1..])
  }

  /** Replacement works piece by piece: it distributes over concatenation. */
  lemma {:induction false} ReplaceDashesAppend(a: string, b: string)
    ensures ReplaceDashes(a + b) == ReplaceDashes(a) + ReplaceDashes(b)
  {
    if a == [] {
      assert a + b == b;
    } else {
      assert (a + b)[1..] == a[1..] + b;
      ReplaceDashesAppend(a[1..], b);
    }
  }

  /** A date written `YYYY-MM-DD` reads `YYYY.MM.DD`. */
  lemma ReplaceDashesInDate(year: string, month: string, day: string)
    requires '-' !in year && '-' !in month && '-' !in day
    ensures ReplaceDashes(year + "-" + month + "-" + day) == year + "." + month + "." + day
  {
    var dash := ReplaceDashes("-");
    assert dash == ".";
    var p1 := year + "-";
    ReplaceDashesAppend(year, "-");
    NoDashUnchanged(year);
    assert ReplaceDashes(p1) == year + ".";
    var p2 := p1 + month;
    ReplaceDashesAppend(p1, month);
    NoDashUnchanged(month);
    assert ReplaceDashes(p2) == year + "." + month;
    var p3 := p2 + "-";
    ReplaceDashesAppend(p2, "-");
    assert ReplaceDashes(p3) == year + "." + month + ".";
    ReplaceDashesAppend(p3, day);
    NoDashUnchanged(day);
  }

  lemma {:induction false} NoDashUnchanged(s: string)
    requires '-' !in s
    ensures ReplaceDashes(s) == s
  {
    if s != [] {
      NoDashUnchanged(s[1..]);
    }
  }

  /** What the due-date slot of a row shows. */
  datatype DueDateView = DueText(text: string) | SetDueDateButton

  /** The suffix "deadline" after a due date. */
  const DueSuffix := " 마감"

  /** A due date worth showing: truthy, and not the text a stringified `undefined` or `null` leaves. */
  predicate HasRealDueDate(due: Option<string>) {
    Truthy(due) && due.value != "undefined" && due.value != "null"
  }

  /** The mobile due-date slot exactly as ManageItem.tsx:172-183 writes it. */
  function MobileDueDateAsWritten(due: Option<string>): (v: DueDateView)
    ensures v.DueText? <==> !HasRealDueDate(due)
  {
    if !Truthy(due) || due.value == "undefined" || due.value == "null" then
      DueText((if Truthy(due) then ReplaceDashes(due.value) else "") + DueSuffix)
    else SetDueDateButton
  }

  /** The written condition is inverted: a real date gets the "set a due date" button instead. */
  lemma MobileDueDateInverted()
    ensures MobileDueDateAsWritten(Some("2025-06-30")) == SetDueDateButton
    ensures MobileDueDateAsWritten(None) == DueText(" 마감")
  {
  }

  /** The mobile slot as evidently intended: the dotted date and the suffix when there is one, else the button. */
  function MobileDueDate(due: Option<string>): (v: DueDateView)
    ensures v.DueText? <==> HasRealDueDate(due)
    ensures v.DueText? ==> v.text == ReplaceDashes(due.value) + DueSuffix
  {
    if HasRealDueDate(due) then DueText(ReplaceDashes(due.value) + DueSuffix) else SetDueDateButton
  }

  /**
   * The intended slot shows the date that was stored, and agrees with the desktop cell
   * (ManageItem.tsx:286), which shows a date exactly when the due date is truthy, on every due
   * date other than the two stringified placeholders; the written slot disagrees on all of them.
   */
  lemma MobileDueDateIntended(due: Option<string>, year: string, month: string, day: string)
    ensures HasRealDueDate(due) ==> MobileDueDate(due).DueText? && MobileDueDateAsWritten(due).SetDueDateButton?
    ensures !HasRealDueDate(due) ==> MobileDueDate(due).SetDueDateButton? && MobileDueDateAsWritten(due).DueText?
    ensures (due == Some(year + "-" + month + "-" + day) && '-' !in year && '-' !in month && '-' !in day) ==>
              MobileDueDate(due) == DueText(year + "." + month + "." + day + DueSuffix)
  {
    if due == Some(year + "-" + month + "-" + day) && '-' !in year && '-' !in month && '-' !in day {
      ReplaceDashesInDate(year, month, day);
      assert due.value != "undefined" && due.value != "null" by {
        assert '-' in due.value by {
          assert due.value[|year|] == '-';
        }
        assert '-' !in "undefined" && '-' !in "null";
      }
    }
  }
}
