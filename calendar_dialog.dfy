/**
 * The due-date picker (src/components/common/dialog/CalendarDialog.tsx): the value the calendar
 * hands over is turned into a `YYYY-MM-DD` string, reported, and the dialog closes.
 */
module CalendarDialog {
  import opened Wrappers
  import opened Text

  /** `getMonth()` counts months from 0. */
  type Month0 = m: int | 0 <= m < 12

  /** `getDate()` is the day of the month. */
  type DayOfMonth = d: int | 1 <= d <= 31 witness 1

  /** A `Date`, reduced to the local calendar fields the dialog reads. */
  datatype Date = Date(year: int, month0: Month0, day: DayOfMonth)

  /** react-calendar's `Value`: one piece, or a `[start, end]` range; a piece may be null. */
  datatype Value = Single(piece: Option<Date>) | Range(first: Option<Date>, second: Option<Date>)

  /** The date `onChangeCalendar` picks (CalendarDialog.tsx:24-29): the value itself, or a range's start. */
  function ChosenDate(v: Value): (d: Option<Date>)
    ensures v.Single? ==> d == v.piece
    ensures v.Range? ==> d == v.first
  {
    match v
    case Single(piece) => piece
    case Range(first, _) => first
  }

  /** `s.padStart(2, '0')`. */
  function PadStart2(s: string): (r: string)
    ensures |r| == if |s| >= 2 then |s| else 2
  {
    if |s| >= 2 then s else if |s| == 1 then "0" + s else "00"
  }

  /** `String(n).padStart(2, '0')`. */
  function Pad2(n: nat): (r: string)
  {
    PadStart2(NatToString(n))
  }

  /** A two-digit field: a leading zero below ten, the plain digits from ten to ninety-nine. */
  lemma Pad2Spec(n: nat)
    requires n < 100
    ensures n < 10 ==> Pad2(n) == "0" + NatToString(n)
    ensures n >= 10 ==> Pad2(n) == NatToString(n)
    ensures |Pad2(n)| == 2 && IsDigit(Pad2(n)[0]) && IsDigit(Pad2(n)[1])
    ensures DigitsValue(Pad2(n)) == n
  {
    NatToStringLength(n);
    NatToStringValue(n);
    var p := Pad2(n);
    if n < 10 {
      assert p[..1] == "0";
      assert DigitsValue(p[..1]) == 0 by {
        assert p[..1][..0] == [];
      }
      assert NatToString(n) == [p[1]];
      assert DigitsValue([p[1]]) == DigitValue(p[1]) by {
        assert [p[1]][..0] == [];
      }
    }
  }

  /** `${year}-${month}-${day}` (CalendarDialog.tsx:32-35). */
  function FormatDate(d: Date): (s: string)
    ensures |s| >= 7
    ensures s[|s| - 3] == '-' && s[|s| - 6] == '-'
  {
    Pad2Spec(d.month0 + 1);
    Pad2Spec(d.day);
    IntToString(d.year) + "-" + Pad2(d.month0 + 1) + "-" + Pad2(d.day)
  }

  /** A formatted date splits at its two dashes into the printed year, month and day. */
  lemma FormatDateParts(d: Date)
    ensures var s := FormatDate(d);
            s[..|s| - 6] == IntToString(d.year) &&
            s[|s| - 5..|s| - 3] == Pad2(d.month0 + 1) &&
            s[|s| - 2..] == Pad2(d.day)
  {
    Pad2Spec(d.month0 + 1);
    Pad2Spec(d.day);
    var y := IntToString(d.year);
    var s := FormatDate(d);
    assert s == y + "-" + Pad2(d.month0 + 1) + "-" + Pad2(d.day);
    assert |s| == |y| + 6;
  }

  /** The pieces of a formatted date read back as the year, the 1-based month and the day. */
  lemma FormatDateReadsBack(d: Date)
    ensures var s := FormatDate(d);
            IntValue(s[..|s| - 6]) == d.year &&
            |s[|s| - 5..|s| - 3]| == 2 && DigitsValue(s[|s| - 5..|s| - 3]) == d.month0 + 1 &&
            |s[|s| - 2..]| == 2 && DigitsValue(s[|s| - 2..]) == d.day
  {
    FormatDateParts(d);
    Pad2Spec(d.month0 + 1);
    Pad2Spec(d.day);
    IntToStringValue(d.year);
  }

  /** Month and day are two digits each; a four-digit year makes the string ten characters long. */
  lemma FormatDateLength(d: Date)
    ensures 1000 <= d.year <= 9999 ==> |FormatDate(d)| == 10
  {
    Pad2Spec(d.month0 + 1);
    Pad2Spec(d.day);
    NatToStringLength(if d.year >= 0 then d.year else 0);
  }

  /** Two `x-pp-qq` strings with two-character fields are equal only field by field. */
  lemma SplitFields(x: string, p: string, q: string, y: string, p2: string, q2: string)
    requires |p| == 2 && |q| == 2 && |p2| == 2 && |q2| == 2
    requires x + "-" + p + "-" + q == y + "-" + p2 + "-" + q2
    ensures x == y && p == p2 && q == q2
  {
    var s := x + "-" + p + "-" + q;
    var t := y + "-" + p2 + "-" + q2;
    assert |x| == |s| - 6 == |y|;
    assert x == s[..|x|] && y == t[..|y|];
    assert p == s[|x| + 1..|x| + 3] && p2 == t[|y| + 1..|y| + 3];
    assert q == s[|x| + 4..] && q2 == t[|y| + 4..];
  }

  /** Distinct dates give distinct strings. */
  lemma FormatDateInjective(a: Date, b: Date)
    requires FormatDate(a) == FormatDate(b)
    ensures a == b
  {
    Pad2Spec(a.month0 + 1);
    Pad2Spec(b.month0 + 1);
    Pad2Spec(a.day);
    Pad2Spec(b.day);
    SplitFields(IntToString(a.year), Pad2(a.month0 + 1), Pad2(a.day),
                IntToString(b.year), Pad2(b.month0 + 1), Pad2(b.day));
    IntToStringInjective(a.year, b.year);
  }

  /** The string reported: empty when no date was picked. */
  function DateString(v: Value): (s: string)
    ensures s == "" <==> ChosenDate(v).None?
    ensures ChosenDate(v).Some? ==> s == FormatDate(ChosenDate(v).value)
  {
    match ChosenDate(v)
    case None => ""
    case Some(d) => FormatDate(d)
  }

  /** What the dialog does to its parent, in order. */
  datatype Effect = SelectDate(date: string) | Toggle

  /**
   * `onChangeCalendar` (CalendarDialog.tsx:22-39): the calendar keeps the value, the parent gets
   * the string, even an empty one, and then the dialog is toggled closed.
   */
  function OnChangeCalendar(v: Value): (r: (Value, seq<Effect>))
    ensures r.0 == v
    ensures |r.1| == 2 && r.1[1] == Toggle && r.1[0].SelectDate?
    ensures r.1[0].date == DateString(v)
  {
    var dateString := DateString(v);
    (v, [SelectDate(dateString), Toggle])
  }

  /** Distinct picked dates reach the parent as distinct strings. */
  lemma OnChangeCalendarReports(v: Value, w: Value)
    requires ChosenDate(v).Some? && ChosenDate(w).Some? && ChosenDate(v) != ChosenDate(w)
    ensures OnChangeCalendar(v).1[0] != OnChangeCalendar(w).1[0]
  {
    var a, b := ChosenDate(v).value, ChosenDate(w).value;
    if FormatDate(a) == FormatDate(b) {
      FormatDateInjective(a, b);
    }
  }
}
