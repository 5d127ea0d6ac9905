/** Display helpers of frontend/src/lib/utils.ts. Statuses arrive as raw
    strings, so the defensive default branches are reachable. */
module Utils {
  import opened Wrappers
  import opened TaskStatus
  import opened Decimal

  const TodoColor := "bg-blue-100 text-blue-800"
  const InProgressColor := "bg-yellow-100 text-yellow-800"
  const CompletedColor := "bg-green-100 text-green-800"
  const UnknownColor := "bg-gray-100 text-gray-800"

  /** `getStatusBadgeColor`: blue, yellow, green for the three statuses, gray
      for anything else. */
  function StatusBadgeColor(status: string): (r: string)
    ensures Parse(status) == Some(Todo) <==> r == TodoColor
    ensures Parse(status) == Some(InProgress) <==> r == InProgressColor
    ensures Parse(status) == Some(Completed) <==> r == CompletedColor
    ensures Parse(status).None? <==> r == UnknownColor
  {
    match status
    case "todo" => TodoColor
    case "in_progress" => InProgressColor
    case "completed" => CompletedColor
    case _ => UnknownColor
  }

  /** `getStatusLabel`: the human label of a status, and any other string unchanged. */
  function StatusLabel(status: string): (r: string)
    ensures Parse(status) == Some(Todo) ==> r == "To Do"
    ensures Parse(status) == Some(InProgress) ==> r == "In Progress"
    ensures Parse(status) == Some(Completed) ==> r == "Completed"
    ensures Parse(status).None? ==> r == status
  {
    match status
    case "todo" => "To Do"
    case "in_progress" => "In Progress"
    case "completed" => "Completed"
    case _ => status
  }

  /** Different statuses never share a label or a badge colour. */
  lemma StatusDisplayDistinguishes(a: Status, b: Status)
    requires StatusLabel(a.Name()) == StatusLabel(b.Name()) || StatusBadgeColor(a.Name()) == StatusBadgeColor(b.Name())
    ensures a == b
  {
    ParseName(a);
    ParseName(b);
  }

  /** `isOverdue`: strictly before now; a due date equal to now is not overdue. */
  predicate IsOverdue(dueDate: int, now: int) {
    dueDate < now
  }

  /** A due date at the current instant is not yet overdue; one a second
      earlier is. */
  lemma OverdueBoundary(now: int)
    ensures !IsOverdue(now, now)
    ensures IsOverdue(now - 1, now)
  {
  }

  /** Once overdue, a task stays overdue as the clock moves on. */
  lemma OverdueStaysOverdue(dueDate: int, now: int, later: int)
    requires IsOverdue(dueDate, now) && now <= later
    ensures IsOverdue(dueDate, later)
  {
  }

  /** The dates of the client's tests, against any clock reading between
      them: 2020-01-01T00:00:00Z is overdue, 2099-01-01T00:00:00Z is not. */
  lemma OverdueExamples(now: int)
    requires 1577836800 < now <= 4070908800
    ensures IsOverdue(1577836800, now)
    ensures !IsOverdue(4070908800, now)
  {
  }

  /** `n.toString().padStart(2, "0")`. */
  function Pad2(n: nat): (r: string)
    ensures AllDigits(r) && DigitsValue(r) == n
    ensures n < 100 ==> |r| == 2
    ensures n >= 100 ==> r == NatToString(n)
  {
    DigitsValueOfNatToString(n);
    var s := NatToString(n);
    if |s| < 2 then
      DigitsValueLeadingZero(s);
      "0" + s
    else s
  }

  /** The local-time reading of a `Date`: `getFullYear`, `getMonth` (0-based),
      `getDate`, `getHours`, `getMinutes`. */
  datatype LocalDateTime = LocalDateTime(year: int, month0: int, day: int, hours: int, minutes: int) {
    predicate InRange() {
      0 <= month0 <= 11 && 1 <= day <= 31 && 0 <= hours <= 23 && 0 <= minutes <= 59
    }
  }

  /** `formatDateForInput`: `YYYY-MM-DDTHH:MM` with a 1-based month and every
      field after the year padded to two digits. */
  function FormatDateForInput(d: LocalDateTime): (r: string)
    requires d.InRange()
    ensures |r| == |IntToString(d.year)| + 12
  {
    IntToString(d.year) + "-" + Pad2(d.month0 + 1) + "-" + Pad2(d.day)
      + "T" + Pad2(d.hours) + ":" + Pad2(d.minutes)
  }

  /** A four-digit year gives the sixteen characters a `datetime-local` input takes. */
  lemma FormatDateForInputLength(d: LocalDateTime)
    requires d.InRange() && 1000 <= d.year <= 9999
    ensures |FormatDateForInput(d)| == 16
  {
    NatToStringFourDigits(d.year);
  }

  /** Two decimal digits read as one number. */
  function TwoDigitValue(hi: char, lo: char): Option<nat> {
    if IsDigit(hi) && IsDigit(lo) then Some(DigitValue(hi) * 10 + DigitValue(lo)) else None
  }

  /** Reads a `YYYY-MM-DDTHH:MM` string back into its fields: the year is
      everything before the last twelve characters. */
  function ParseDateInput(s: string): Option<LocalDateTime> {
    if |s| < 13 then None
    else
      var t := s[|s| - 12..];
      var mo, dd, hh, mi := TwoDigitValue(t[1], t[2]), TwoDigitValue(t[4], t[5]),
                            TwoDigitValue(t[7], t[8]), TwoDigitValue(t[10], t[11]);
      if t[0] == '-' && t[3] == '-' && t[6] == 'T' && t[9] == ':'
         && mo.Some? && dd.Some? && hh.Some? && mi.Some? && ParseInt(s[..|s| - 12]).Some?
      then Some(LocalDateTime(ParseInt(s[..|s| - 12]).value, mo.value - 1, dd.value, hh.value, mi.value))
      else None
  }

  /** A two-character padded field reads back as its number. */
  lemma Pad2Digits(n: nat)
    requires n < 100
    ensures TwoDigitValue(Pad2(n)[0], Pad2(n)[1]) == Some(n)
  {
    var r := Pad2(n);
    assert r[..1][..0] == [];
    assert DigitsValue(r) == DigitsValue(r[..1]) * 10 + DigitValue(r[1]);
  }

  /** The layout of the formatted string, character by character after the year. */
  lemma FormatLayout(ys: string, mo: string, dd: string, hh: string, mi: string)
    requires |mo| == 2 && |dd| == 2 && |hh| == 2 && |mi| == 2
    ensures ys + "-" + mo + "-" + dd + "T" + hh + ":" + mi
         == ys + ['-', mo[0], mo[1], '-', dd[0], dd[1], 'T', hh[0], hh[1], ':', mi[0], mi[1]]
  {
  }

  /** The year and the twelve-character tail separate again. */
  lemma SplitLayout(ys: string, t: string)
    requires |t| == 12
    ensures (ys + t)[..|ys|] == ys && (ys + t)[|ys|..] == t
  {
  }

  /** The formatted string holds every field: reading it back gives the date. */
  lemma FormatDateForInputRoundTrip(d: LocalDateTime)
    requires d.InRange()
    ensures ParseDateInput(FormatDateForInput(d)) == Some(d)
  {
    var ys := IntToString(d.year);
    var mo, dd, hh, mi := Pad2(d.month0 + 1), Pad2(d.day), Pad2(d.hours), Pad2(d.minutes);
    var t := ['-', mo[0], mo[1], '-', dd[0], dd[1], 'T', hh[0], hh[1], ':', mi[0], mi[1]];
    FormatLayout(ys, mo, dd, hh, mi);
    IntToStringRoundTrip(d.year);
    SplitLayout(ys, t);
    Pad2Digits(d.month0 + 1);
    Pad2Digits(d.day);
    Pad2Digits(d.hours);
    Pad2Digits(d.minutes);
  }
}
