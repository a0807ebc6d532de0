/** The date helpers of the utilities: the guards in front of the date
    formatter, the "time ago" phrase and the "2d 4h 30m" duration.

    Times are whole milliseconds. The current time and the locale formatter
    are parameters: the clock and the locale library are outside the model. */
module FormDate {
  import opened Optional
  import opened Text

  /** The letters a duration piece ends with. */
  const UnitLetters: set<char> := {'d', 'h', 'm'}

  const MsPerSecond := 1000
  const MsPerMinute := 60000
  const MsPerHour := 3600000
  const MsPerDay := 86400000

  /** What the date formatter is handed: nothing, a string (with the time the
      `Date` constructor parses it to, or `None` when it cannot), or a `Date`
      object (with its time, or `None` for an invalid date). */
  datatype DateInput =
    | NoDate
    | DateString(text: string, parsed: Option<int>)
    | DateObject(time: Option<int>)

  /** `!date`: nothing, or the empty string. */
  predicate Falsy(date: DateInput) {
    date.NoDate? || (date.DateString? && date.text == "")
  }

  function TimeOf(date: DateInput): Option<int> {
    match date
    case NoDate => None
    case DateString(_, parsed) => parsed
    case DateObject(time) => time
  }

  datatype TimeUnit = Second | Minute | Hour | Day | Month | Year

  function UnitName(u: TimeUnit): string {
    match u
    case Second => "second"
    case Minute => "minute"
    case Hour => "hour"
    case Day => "day"
    case Month => "month"
    case Year => "year"
  }

  /** Units from the smallest to the largest. */
  function Rank(u: TimeUnit): nat {
    match u
    case Second => 0
    case Minute => 1
    case Hour => 2
    case Day => 3
    case Month => 4
    case Year => 5
  }

  /** A count of some unit. */
  datatype Elapsed = Elapsed(unit: TimeUnit, count: nat)

  /** The bucket `getTimeAgo` picks for an elapsed time that is not negative:
      the first of seconds < 60, minutes < 60, hours < 24, days < 30,
      months (30 days) < 12, and otherwise years (12 such months). */
  function AgoBucket(diffMs: nat): (e: Elapsed)
    ensures e.count == match e.unit
      case Second => diffMs / MsPerSecond
      case Minute => diffMs / MsPerMinute
      case Hour => diffMs / MsPerHour
      case Day => diffMs / MsPerDay
      case Month => diffMs / MsPerDay / 30
      case Year => diffMs / MsPerDay / 30 / 12
    ensures e.unit == Second <==> diffMs < 60 * MsPerSecond
    ensures e.unit == Minute <==> 60 * MsPerSecond <= diffMs < 60 * MsPerMinute
    ensures e.unit == Hour <==> 60 * MsPerMinute <= diffMs < 24 * MsPerHour
    ensures e.unit == Day <==> 24 * MsPerHour <= diffMs < 30 * MsPerDay
    ensures e.unit == Month <==> 30 * MsPerDay <= diffMs < 360 * MsPerDay
    ensures e.unit == Year <==> 360 * MsPerDay <= diffMs
  {
    var seconds := diffMs / 1000;
    var minutes := seconds / 60;
    var hours := minutes / 60;
    var days := hours / 24;
    var months := days / 30;
    var years := months / 12;
    if seconds < 60 then Elapsed(Second, seconds)
    else if minutes < 60 then Elapsed(Minute, minutes)
    else if hours < 24 then Elapsed(Hour, hours)
    else if days < 30 then Elapsed(Day, days)
    else if months < 12 then Elapsed(Month, months)
    else Elapsed(Year, years)
  }

  /** "1 <unit> ago" for one, "<n> <unit>s ago" for any other count. */
  function Phrase(e: Elapsed): string {
    if e.count == 1 then "1 " + UnitName(e.unit) + " ago"
    else NatToString(e.count) + " " + UnitName(e.unit) + "s ago"
  }

  /** `getTimeAgo` for the time elapsed since the date. A date in the future
      gives a negative difference, whose floored seconds are below 60 and
      not 1, so it is always rendered in seconds, minus sign included. */
  function GetTimeAgo(diffMs: int): string {
    if diffMs >= 0 then Phrase(AgoBucket(diffMs))
    else IntToString(diffMs / MsPerSecond) + " seconds ago"
  }

  /** Whatever the difference, past or future, the text ends in " ago". */
  lemma TimeAgoEndsInAgo(diffMs: int)
    ensures var r := GetTimeAgo(diffMs); |r| >= 4 && r[|r| - 4..] == " ago"
  {
    var r := GetTimeAgo(diffMs);
    if diffMs >= 0 {
      var e := AgoBucket(diffMs);
      var head := if e.count == 1 then "1 " + UnitName(e.unit) else NatToString(e.count) + " " + UnitName(e.unit) + "s";
      assert r == head + " ago";
    } else {
      assert r == IntToString(diffMs / MsPerSecond) + " seconds" + " ago";
    }
  }

  /** A date in the future reads as a negative number of seconds ago. */
  lemma FutureTimeAgo(diffMs: int)
    requires diffMs < 0
    ensures diffMs / MsPerSecond <= -1
    ensures GetTimeAgo(diffMs) == "-" + NatToString(-(diffMs / MsPerSecond)) + " seconds ago"
  {
  }

  /** Less than a second ahead already counts as minus one second. */
  lemma FutureTimeAgoUnderASecond()
    ensures GetTimeAgo(-1) == "-1 seconds ago"
  {
    assert -1 / MsPerSecond == -1;
    assert DigitChar(1) == '1';
    assert IntToString(-1) == "-1";
  }

  /** Five seconds ahead reads as minus five seconds. */
  lemma FutureTimeAgoFiveSeconds()
    ensures GetTimeAgo(-5000) == "-5 seconds ago"
  {
    assert -5000 / MsPerSecond == -5;
    assert DigitChar(5) == '5';
    assert IntToString(-5) == "-5";
  }

  /** The phrase is the singular one exactly when the count is 1. */
  lemma SingularExactlyForOne(e: Elapsed)
    ensures Phrase(e) == "1 " + UnitName(e.unit) + " ago" <==> e.count == 1
  {
    if e.count != 1 {
      var d := NatToString(e.count);
      var one := "1 " + UnitName(e.unit) + " ago";
      var p := Phrase(e);
      assert p == d + " " + UnitName(e.unit) + "s ago";
      if |d| == 1 {
        NatToStringInjective(e.count, 1);
        assert NatToString(1) == "1";
        assert p[0] == d[0] != '1' == one[0];
      } else {
        assert p[1] == d[1] && IsDigit(d[1]);
        assert one[1] == ' ';
      }
    }
  }

  /** A longer time never lands in a smaller unit, and within one unit never
      gives a smaller count. */
  lemma {:induction false} AgoBucketMonotone(d1: nat, d2: nat)
    requires d1 <= d2
    ensures Rank(AgoBucket(d1).unit) <= Rank(AgoBucket(d2).unit)
    ensures AgoBucket(d1).unit == AgoBucket(d2).unit ==> AgoBucket(d1).count <= AgoBucket(d2).count
  {
    DivMonotone(d1, d2, MsPerSecond);
    DivMonotone(d1, d2, MsPerMinute);
    DivMonotone(d1, d2, MsPerHour);
    DivMonotone(d1, d2, MsPerDay);
    DivMonotone(d1 / MsPerDay, d2 / MsPerDay, 30);
    DivMonotone(d1 / MsPerDay / 30, d2 / MsPerDay / 30, 12);
  }

  lemma DivMonotone(a: nat, b: nat, k: nat)
    requires a <= b && k > 0
    ensures a / k <= b / k
  {
    assert (a / k) * k <= a;
    assert b < (b / k + 1) * k;
    MulCancel(a / k, b / k + 1, k);
  }

  lemma MulCancel(x: int, y: int, k: int)
    requires k > 0 && x * k < y * k
    ensures x < y
  {
    assert (y - x) * k == y * k - x * k;
  }

  /** A moment ago, one second ago, ninety seconds ago. */
  lemma TimeAgoExamples()
    ensures GetTimeAgo(0) == "0 seconds ago"
    ensures GetTimeAgo(1000) == "1 second ago"
    ensures GetTimeAgo(90000) == "1 minute ago"
  {
    assert AgoBucket(0) == Elapsed(Second, 0);
    assert AgoBucket(1000) == Elapsed(Second, 1);
    assert AgoBucket(90000) == Elapsed(Minute, 1);
    assert NatToString(0) == "0";
  }

  /** One day ago, two hours ago. */
  lemma TimeAgoLongerExamples()
    ensures GetTimeAgo(MsPerDay) == "1 day ago"
    ensures GetTimeAgo(2 * MsPerHour) == "2 hours ago"
  {
  }

  /** `formatDate`: 'N/A' for no date, 'Invalid date' for one whose time is
      not a number, and otherwise the requested format; the 'ago' format is
      `getTimeAgo` against the current time, past or future, every other
      format is the locale's rendering. */
  function FormatDate(date: DateInput, format: string, now: int, locale: (string, int) -> string): (r: string)
    ensures Falsy(date) ==> r == "N/A"
    ensures !Falsy(date) && TimeOf(date) == None ==> r == "Invalid date"
    ensures !Falsy(date) && TimeOf(date).Some? && format == "ago" ==> r == GetTimeAgo(now - TimeOf(date).value)
    ensures !Falsy(date) && TimeOf(date).Some? && format != "ago" ==> r == locale(format, TimeOf(date).value)
  {
    if Falsy(date) then "N/A"
    else match TimeOf(date)
      case None => "Invalid date"
      case Some(t) =>
        if format == "ago" then GetTimeAgo(now - t)
        else locale(format, t)
  }

  /** The parts of `formatDuration`: days, hours of the day and minutes of
      the hour, seconds dropped. */
  datatype Duration = Duration(days: nat, hours: nat, minutes: nat)

  function DurationOf(ms: nat): (d: Duration)
    ensures d.hours < 24 && d.minutes < 60
    ensures d.days * MsPerDay + d.hours * MsPerHour + d.minutes * MsPerMinute <= ms
    ensures ms < d.days * MsPerDay + d.hours * MsPerHour + (d.minutes + 1) * MsPerMinute
  {
    var minutes := ms / 1000 / 60;
    var hours := minutes / 60;
    DurationArithmetic(ms);
    Duration(hours / 24, hours % 24, minutes % 60)
  }

  lemma DurationArithmetic(ms: nat)
    ensures var minutes := ms / 1000 / 60; var hours := minutes / 60;
      && minutes == ms / MsPerMinute
      && (hours / 24) * MsPerDay + (hours % 24) * MsPerHour + (minutes % 60) * MsPerMinute == minutes * MsPerMinute
      && minutes * MsPerMinute <= ms < (minutes + 1) * MsPerMinute
  {
    var minutes := ms / 1000 / 60;
    var hours := minutes / 60;
    assert minutes == hours * 60 + minutes % 60;
    assert hours == (hours / 24) * 24 + hours % 24;
    assert ms / 1000 / 60 == ms / 60000 by {
      var s := ms / 1000;
      assert ms == s * 1000 + ms % 1000;
      assert s == (s / 60) * 60 + s % 60;
      assert ms == (s / 60) * 60000 + (s % 60) * 1000 + ms % 1000;
      assert 0 <= (s % 60) * 1000 + ms % 1000 < 60000;
    }
  }

  /** A number followed by its unit letter. */
  function PieceText(n: nat, unit: char): (t: string)
    requires unit in UnitLetters
    ensures PieceShaped(t)
  {
    NatToString(n) + [unit]
  }

  predicate PieceShaped(t: string) {
    |t| >= 2 && IsDigit(t[0]) && t[|t| - 1] in UnitLetters
  }

  /** The pieces, in d, h, m order: the day and hour pieces only when
      present, the minute piece when present or when nothing came before. */
  function Pieces(dayText: string, hourText: string, minuteText: string, days: bool, hours: bool, minutes: bool): (pieces: seq<string>)
    ensures 1 <= |pieces| <= 3
    ensures forall i :: 0 <= i < |pieces| ==> pieces[i] == dayText || pieces[i] == hourText || pieces[i] == minuteText
  {
    var dayPiece := if days then [dayText] else [];
    var hourPiece := if hours then [hourText] else [];
    var minutePiece := if minutes || !(days || hours) then [minuteText] else [];
    dayPiece + hourPiece + minutePiece
  }

  /** The day and hour pieces only when not zero, the minute piece when not
      zero or when there is neither a day nor an hour piece. */
  function DurationPieces(d: Duration): (pieces: seq<string>)
    ensures 1 <= |pieces| <= 3
  {
    Pieces(PieceText(d.days, 'd'), PieceText(d.hours, 'h'), PieceText(d.minutes, 'm'),
      d.days > 0, d.hours > 0, d.minutes > 0)
  }

  /** `formatDuration`, for an input that is absent (`None`) or a whole
      number of milliseconds. */
  method FormatDuration(milliseconds: Option<int>) returns (r: string)
    ensures milliseconds == None || milliseconds.value <= 0 ==> r == "0m"
    ensures milliseconds.Some? && milliseconds.value > 0 ==>
      r == Join(DurationPieces(DurationOf(milliseconds.value)), ' ')
  {
    if milliseconds == None || milliseconds.value <= 0 {
      return "0m";
    }
    var days, remainingHours, remainingMinutes := SplitDuration(milliseconds.value);
    ghost var d := Duration(days, remainingHours, remainingMinutes);
    var dayText, hourText, minuteText := PieceText(days, 'd'), PieceText(remainingHours, 'h'), PieceText(remainingMinutes, 'm');
    var result := AppendPieces(dayText, hourText, minuteText, days > 0, remainingHours > 0, remainingMinutes > 0);
    DurationTextTrimmed(d, result);
    r := Trim(result);
  }

  /** The `+=` steps that append the present pieces, each of the first two
      followed by a space. */
  method AppendPieces(dayText: string, hourText: string, minuteText: string, days: bool, hours: bool, minutes: bool)
    returns (result: string)
    ensures result == Built(dayText, hourText, minuteText, days, hours, minutes)
  {
    result := "";
    if days {
      result := result + dayText + " ";
    }
    if hours {
      result := result + hourText + " ";
    }
    if minutes || result == "" {
      result := result + minuteText;
    }
  }

  /** The chain of divisions that splits the milliseconds into whole days,
      the hours left over and the minutes left over. */
  method SplitDuration(ms: nat) returns (days: nat, remainingHours: nat, remainingMinutes: nat)
    ensures Duration(days, remainingHours, remainingMinutes) == DurationOf(ms)
  {
    var seconds := ms / 1000;
    var minutes := seconds / 60;
    var hours := minutes / 60;
    days := hours / 24;
    remainingHours := hours % 24;
    remainingMinutes := minutes % 60;
  }

  lemma DurationTextTrimmed(d: Duration, result: string)
    requires result == Built(PieceText(d.days, 'd'), PieceText(d.hours, 'h'), PieceText(d.minutes, 'm'), d.days > 0, d.hours > 0, d.minutes > 0)
    ensures Trim(result) == Join(DurationPieces(d), ' ')
  {
    var a, b, c := PieceText(d.days, 'd'), PieceText(d.hours, 'h'), PieceText(d.minutes, 'm');
    assert PieceShaped(a) && PieceShaped(b) && PieceShaped(c);
    assert DurationPieces(d) == Pieces(a, b, c, d.days > 0, d.hours > 0, d.minutes > 0);
    BuiltTrimsToJoin(a, b, c, d.days > 0, d.hours > 0, d.minutes > 0);
  }

  /** The text the source's `+=` steps build, before the final trim. */
  function Built(dayText: string, hourText: string, minuteText: string, days: bool, hours: bool, minutes: bool): string {
    var built := (if days then dayText + " " else "") + (if hours then hourText + " " else "");
    if minutes || built == "" then built + minuteText else built
  }

  /** Trimming what was built gives the pieces joined with spaces. */
  lemma BuiltTrimsToJoin(dayText: string, hourText: string, minuteText: string, days: bool, hours: bool, minutes: bool)
    requires PieceShaped(dayText) && PieceShaped(hourText) && PieceShaped(minuteText)
    ensures Trim(Built(dayText, hourText, minuteText, days, hours, minutes)) == Join(Pieces(dayText, hourText, minuteText, days, hours, minutes), ' ')
  {
    var pieces := Pieces(dayText, hourText, minuteText, days, hours, minutes);
    var j := Join(pieces, ' ');
    JoinBuilt(dayText, hourText, minuteText, days, hours, minutes);
    PiecesUnpadded(pieces);
    if minutes || !(days || hours) {
      TrimUnpadded(j);
    } else {
      TrimTrailingSpace(j);
    }
  }

  /** What the source's `+=` steps build is the pieces joined with spaces,
      with one trailing space when the minute piece is left out. */
  lemma JoinBuilt(dayText: string, hourText: string, minuteText: string, days: bool, hours: bool, minutes: bool)
    ensures var j := Join(Pieces(dayText, hourText, minuteText, days, hours, minutes), ' ');
      Built(dayText, hourText, minuteText, days, hours, minutes) ==
        if minutes || !(days || hours) then j else j + " "
  {
    var pieces := Pieces(dayText, hourText, minuteText, days, hours, minutes);
    if days && hours && minutes {
      assert pieces == [dayText, hourText, minuteText];
      assert pieces[1..] == [hourText, minuteText];
      assert Join(pieces[1..], ' ') == hourText + [' '] + minuteText;
      assert Join(pieces, ' ') == dayText + [' '] + (hourText + [' '] + minuteText);
    } else if days && hours {
      assert pieces == [dayText, hourText];
      assert Join(pieces, ' ') == dayText + [' '] + hourText;
    } else if days && minutes {
      assert pieces == [dayText, minuteText];
      assert Join(pieces, ' ') == dayText + [' '] + minuteText;
    } else if hours && minutes {
      assert pieces == [hourText, minuteText];
      assert Join(pieces, ' ') == hourText + [' '] + minuteText;
    } else if days {
      assert pieces == [dayText];
    } else if hours {
      assert pieces == [hourText];
    } else {
      assert pieces == [minuteText];
    }
  }

  /** Every piece starts with a digit and ends with a unit letter, so the
      joined text neither starts nor ends with whitespace. */
  lemma PiecesUnpadded(pieces: seq<string>)
    requires 1 <= |pieces| <= 3
    requires forall i :: 0 <= i < |pieces| ==> PieceShaped(pieces[i])
    ensures var j := Join(pieces, ' '); j != [] && IsDigit(j[0]) && j[|j| - 1] in UnitLetters
  {
    if |pieces| == 2 {
      assert Join(pieces, ' ') == pieces[0] + [' '] + pieces[1];
    } else if |pieces| == 3 {
      assert Join(pieces[1..], ' ') == pieces[1] + [' '] + pieces[2];
      assert Join(pieces, ' ') == pieces[0] + [' '] + (pieces[1] + [' '] + pieces[2]);
    }
  }

  lemma TrimTrailingSpace(s: string)
    requires s != [] && !IsWhitespace(s[0]) && !IsWhitespace(s[|s| - 1])
    ensures Trim(s + " ") == s
  {
    assert TrimStart(s + " ") == s + " ";
    assert (s + " ")[..|s|] == s;
  }

  /** The duration text is never empty, starts with a digit, ends with a unit
      letter and holds at most three pieces. */
  lemma DurationTextShape(ms: nat)
    ensures var j := Join(DurationPieces(DurationOf(ms)), ' '); j != [] && IsDigit(j[0]) && j[|j| - 1] in UnitLetters
  {
    var d := DurationOf(ms);
    var pieces := DurationPieces(d);
    assert forall i :: 0 <= i < |pieces| ==> pieces[i] in {NatToString(d.days) + "d", NatToString(d.hours) + "h", NatToString(d.minutes) + "m"};
    PiecesUnpadded(pieces);
  }

  /** One day, two hours, thirty minutes and some milliseconds. */
  lemma DurationExampleFull()
    ensures Join(DurationPieces(DurationOf(MsPerDay + 2 * MsPerHour + 30 * MsPerMinute + 999)), ' ') == "1d 2h 30m"
  {
    assert DurationOf(MsPerDay + 2 * MsPerHour + 30 * MsPerMinute + 999) == Duration(1, 2, 30);
    assert NatToString(1) + "d" == "1d" && NatToString(2) + "h" == "2h" && NatToString(30) + "m" == "30m";
    assert DurationPieces(Duration(1, 2, 30)) == ["1d", "2h", "30m"];
  }

  /** Exactly one day shows only the day. */
  lemma DurationExampleDay()
    ensures Join(DurationPieces(DurationOf(MsPerDay)), ' ') == "1d"
  {
    assert DurationOf(MsPerDay) == Duration(1, 0, 0);
    assert NatToString(1) + "d" == "1d";
  }

  /** Under a minute shows zero minutes. */
  lemma DurationExampleUnderMinute()
    ensures Join(DurationPieces(DurationOf(59999)), ' ') == "0m"
  {
    assert DurationOf(59999) == Duration(0, 0, 0);
    assert NatToString(0) + "m" == "0m";
  }
}
