/**
 * The demo-data generator: the anchor dates it derives from "today" and the
 * mock A/B-test frames it builds from them. "Today" is a parameter; each
 * random draw is an arbitrary value within the range the script asks for.
 */
module DemoData {
  import opened Results
  import opened Calendar
  import opened Frames

  const MonthlyFile: string := "mock_monthly_data.xlsx"
  const LastWeekFile: string := "mock_last_week_data.xlsx"
  const ThisWeekFile: string := "mock_this_week_data.xlsx"

  /** Generated dates cycle through this many consecutive days. */
  const DateCycle: int := 30

  // ---------------------------------------------------------------------
  // Anchor dates

  /** `today.replace(day=1)`: the first day of today's month. */
  function FirstOfMonth(today: Date): (first: Date)
    requires Valid(today)
    ensures Valid(first)
    ensures var c := ToCivil(today); ToCivil(first) == Civil(c.year, c.month, 1)
    ensures first.ordinal <= today.ordinal < first.ordinal + DaysInMonth(ToCivil(today).year, ToCivil(today).month)
  {
    var c := ToCivil(today);
    ToCivilFromCivil(Civil(c.year, c.month, 1));
    FromCivil(Civil(c.year, c.month, 1))
  }

  /** `today - timedelta(days=today.weekday() + 2)`: the Saturday that ended last week. */
  function EndOfLastWeek(today: Date): (r: Result<Date, DateError>)
    requires Valid(today)
    ensures r.Success? <==> today.ordinal >= 8
    ensures r.Success? ==> Valid(r.value)
    ensures r.Success? ==> Weekday(r.value) == 5 && 2 <= today.ordinal - r.value.ordinal <= 8
  {
    var r := AddDays(today, -(Weekday(today) + 2));
    if r.Success? then WeekdayAfter(today, -(Weekday(today) + 2)); r else r
  }

  /** `end_of_last_week - timedelta(days=6)`: six days earlier. */
  function StartOfLastWeek(endOfLastWeek: Date): (r: Result<Date, DateError>)
    requires Valid(endOfLastWeek)
    ensures r.Success? <==> endOfLastWeek.ordinal >= 7
    ensures r.Success? ==> Valid(r.value)
    ensures r.Success? ==> endOfLastWeek.ordinal - r.value.ordinal == 6
    ensures r.Success? ==> Weekday(r.value) == (Weekday(endOfLastWeek) + 1) % 7
  {
    var r := AddDays(endOfLastWeek, -6);
    if r.Success? then WeekdayAfter(endOfLastWeek, -6); r else r
  }

  /** `today - timedelta(days=today.weekday())`: the Monday of today's week. */
  function StartOfThisWeek(today: Date): (r: Result<Date, DateError>)
    requires Valid(today)
    ensures r.Success? && Valid(r.value)
    ensures Weekday(r.value) == 0 && 0 <= today.ordinal - r.value.ordinal <= 6
  {
    var r := AddDays(today, -Weekday(today));
    if r.Success? then WeekdayAfter(today, -Weekday(today)); r else r
  }

  /** Last week's Sunday exists exactly from 0001-01-15 on. */
  lemma LastWeekFitsFrom(today: Date)
    requires Valid(today)
    ensures today.ordinal - (Weekday(today) + 2) - 6 >= 1 <==> today.ordinal >= 15
  {
    var o := today.ordinal;
    assert o - 1 == 7 * ((o - 1) / 7) + Weekday(today);
  }

  datatype Anchors = Anchors(firstOfMonth: Date, endOfLastWeek: Date, startOfLastWeek: Date, startOfThisWeek: Date)

  /** Last week's Saturday and Sunday and this week's Monday, or the overflow that stops the script. */
  function WeekAnchors(today: Date): (r: Result<(Date, Date, Date), DateError>)
    requires Valid(today)
    ensures r.Success? <==> today.ordinal >= 15
    ensures r.Success? ==> var w := Weekday(today);
      && r.value.0 == Date(today.ordinal - w - 2)
      && r.value.1 == Date(today.ordinal - w - 8)
      && r.value.2 == Date(today.ordinal - w)
  {
    LastWeekFitsFrom(today);
    match EndOfLastWeek(today)
    case Failure(e) => Failure(e)
    case Success(endLast) =>
      match StartOfLastWeek(endLast)
      case Failure(e) => Failure(e)
      case Success(startLast) => Success((endLast, startLast, StartOfThisWeek(today).value))
  }

  /** The four anchor dates, computed in the script's order; the first overflow ends the script. */
  function ComputeAnchors(today: Date): (r: Result<Anchors, DateError>)
    requires Valid(today)
    ensures r.Success? <==> today.ordinal >= 15
    ensures r.Success? ==> var w := Weekday(today);
      && r.value.firstOfMonth == FirstOfMonth(today)
      && r.value.endOfLastWeek == Date(today.ordinal - w - 2)
      && r.value.startOfLastWeek == Date(today.ordinal - w - 8)
      && r.value.startOfThisWeek == Date(today.ordinal - w)
  {
    match WeekAnchors(today)
    case Failure(e) => Failure(e)
    case Success((endLast, startLast, startThis)) => Success(Anchors(FirstOfMonth(today), endLast, startLast, startThis))
  }

  /** Six days before a Saturday is a Sunday. */
  lemma SundayBeforeSaturday(endOfLastWeek: Date)
    requires Valid(endOfLastWeek) && Weekday(endOfLastWeek) == 5 && StartOfLastWeek(endOfLastWeek).Success?
    ensures Weekday(StartOfLastWeek(endOfLastWeek).value) == 6
  {
    var w := Weekday(endOfLastWeek);
    assert Weekday(StartOfLastWeek(endOfLastWeek).value) == (w + 1) % 7;
  }

  /**
   * How the anchors sit around today: last week runs Sunday to Saturday and
   * ends 2 to 8 days before today, this week starts on Monday, and the
   * Sunday between the two belongs to neither.
   */
  lemma AnchorLayout(today: Date)
    requires Valid(today) && today.ordinal >= 15
    ensures ComputeAnchors(today).Success?
    ensures var a := ComputeAnchors(today).value;
      && Valid(a.firstOfMonth) && Valid(a.endOfLastWeek) && Valid(a.startOfLastWeek) && Valid(a.startOfThisWeek)
      && ToCivil(a.firstOfMonth) == ToCivil(today).(day := 1) && a.firstOfMonth.ordinal <= today.ordinal
      && Weekday(a.startOfLastWeek) == 6 && Weekday(a.endOfLastWeek) == 5 && Weekday(a.startOfThisWeek) == 0
      && a.endOfLastWeek.ordinal - a.startOfLastWeek.ordinal == 6
      && AddDays(a.endOfLastWeek, 2) == Success(a.startOfThisWeek)
      && a.startOfThisWeek.ordinal <= today.ordinal < a.startOfThisWeek.ordinal + 7
  {
    var w := Weekday(today);
    var endLast := EndOfLastWeek(today).value;
    var startLast := StartOfLastWeek(endLast).value;
    var startThis := StartOfThisWeek(today).value;
    assert ComputeAnchors(today).value == Anchors(FirstOfMonth(today), endLast, startLast, startThis);
    SundayBeforeSaturday(endLast);
    assert endLast.ordinal + 2 == today.ordinal - w == startThis.ordinal;
    var next := AddDays(endLast, 2);
    assert next.Success? && next.value.ordinal == startThis.ordinal;
  }

  /** Thirty days from any first of a month stay within 9999-12-31. */
  lemma FirstOfMonthHeadroom(today: Date)
    requires Valid(today)
    ensures FirstOfMonth(today).ordinal + DateCycle - 1 <= MaxOrdinal
  {
    var c := ToCivil(today);
    MonthHeadroom(c.year, c.month);
  }

  // ---------------------------------------------------------------------
  // Random draws

  /** `random.randint(lo, hi)`: some integer from `lo` to `hi`, both included. */
  method RandInt(lo: int, hi: int) returns (x: int)
    requires lo <= hi
    ensures lo <= x <= hi
  {
    x :| lo <= x <= hi;
  }

  /** `random.choice(options)`: one of the options. */
  method Choice<T>(options: seq<T>) returns (x: T)
    requires |options| > 0
    ensures x in options
  {
    var k :| 0 <= k < |options|;
    x := options[k];
  }

  /** A lower-case hexadecimal digit, as `str(uuid.UUID)` writes them. */
  predicate IsHexDigit(c: char) {
    '0' <= c <= '9' || 'a' <= c <= 'f'
  }

  /**
   * The text of a version-4 UUID (RFC 4122, sections 3 and 4.4): 32 hex
   * digits in groups of 8-4-4-4-12 joined by hyphens, the version digit `4`
   * and a variant digit among `8`, `9`, `a`, `b`.
   */
  predicate IsUuid4Text(s: string) {
    && |s| == 36
    && (forall k :: 0 <= k < 36 ==> (s[k] == '-' <==> k == 8 || k == 13 || k == 18 || k == 23))
    && (forall k :: 0 <= k < 36 && k != 8 && k != 13 && k != 18 && k != 23 ==> IsHexDigit(s[k]))
    && s[14] == '4'
    && (s[19] == '8' || s[19] == '9' || s[19] == 'a' || s[19] == 'b')
  }

  /** `fake.uuid4()`: the text of some random version-4 UUID. */
  method Uuid4() returns (id: string)
    ensures IsUuid4Text(id)
  {
    var sample := "00000000-0000-4000-8000-000000000000";
    assert IsUuid4Text(sample);
    id :| IsUuid4Text(id);
  }

  // ---------------------------------------------------------------------
  // Mock frames

  /** What row `i` of a mock frame starting at `start` holds. */
  predicate IsMockRow(row: Row, start: Date, i: int)
    requires Valid(start)
  {
    && AddDays(start, i % DateCycle) == Success(row.date)
    && IsUuid4Text(row.userId)
    && (row.variant == "Control" || row.variant == "Treatment")
    && 100 <= row.metricC <= 1000
    && (row.conversions == 0 || row.conversions == 1)
  }

  /** A frame `create_mock_data(start, numRows)` may return. */
  predicate IsMockFrame(f: Frame, start: Date, numRows: int)
    requires Valid(start)
  {
    && |f.rows| == (if numRows < 0 then 0 else numRows)
    && f.index == RangeIndex(|f.rows|)
    && forall i :: 0 <= i < |f.rows| ==> IsMockRow(f.rows[i], start, i)
  }

  /** Some row's date would lie after 9999-12-31. */
  predicate MockDatesOverflow(start: Date, numRows: int)
    requires Valid(start)
  {
    numRows > 0 && start.ordinal + (if numRows < DateCycle then numRows else DateCycle) - 1 > MaxOrdinal
  }

  /**
   * `create_mock_data(start_date, num_rows)`: one row per `i` in
   * `range(num_rows)`, dated `start_date + timedelta(days=i % 30)`; the
   * first date past 9999-12-31 raises OverflowError and no frame is made.
   */
  method CreateMockData(start: Date, numRows: int) returns (r: Result<Frame, DateError>)
    requires Valid(start)
    ensures r.Failure? <==> MockDatesOverflow(start, numRows)
    ensures r.Success? ==> IsMockFrame(r.value, start, numRows)
  {
    var data: seq<Row> := [];
    var i := 0;
    while i < numRows
      invariant 0 <= i <= (if numRows < 0 then 0 else numRows)
      invariant |data| == i
      invariant forall k :: 0 <= k < i ==> IsMockRow(data[k], start, k)
    {
      var currentDate := AddDays(start, i % DateCycle);
      if currentDate.Failure? {
        assert i % DateCycle <= i && i % DateCycle < DateCycle;
        return Failure(currentDate.error);
      }
      var userId := Uuid4();
      var variant := Choice(["Control", "Treatment"]);
      var metricC := RandInt(100, 1000);
      var conversions := Choice([0, 1]);
      data := data + [Row(currentDate.value, userId, variant, metricC, conversions)];
      i := i + 1;
    }
    if numRows > 0 {
      var last := if numRows < DateCycle then numRows - 1 else DateCycle - 1;
      assert IsMockRow(data[last], start, last);
      assert last % DateCycle == last;
    }
    var frame := FromRecords(data);
    assert IsMockFrame(frame, start, numRows);
    return Success(frame);
  }

  /** Every date of a mock frame lies in the 30 days from `start`. */
  lemma MockDatesInCycle(f: Frame, start: Date, numRows: int)
    requires Valid(start) && IsMockFrame(f, start, numRows)
    ensures forall i :: 0 <= i < |f.rows| ==>
      Valid(f.rows[i].date) && start.ordinal <= f.rows[i].date.ordinal < start.ordinal + DateCycle
  {
    forall i | 0 <= i < |f.rows|
      ensures Valid(f.rows[i].date) && start.ordinal <= f.rows[i].date.ordinal < start.ordinal + DateCycle
    {
      assert IsMockRow(f.rows[i], start, i);
    }
  }

  /** Rows 30 apart share a date. */
  lemma MockDatesRepeat(f: Frame, start: Date, numRows: int)
    requires Valid(start) && IsMockFrame(f, start, numRows)
    ensures forall i :: 0 <= i < |f.rows| - DateCycle ==> f.rows[i].date == f.rows[i + DateCycle].date
  {
    forall i | 0 <= i < |f.rows| - DateCycle
      ensures f.rows[i].date == f.rows[i + DateCycle].date
    {
      assert IsMockRow(f.rows[i], start, i) && IsMockRow(f.rows[i + DateCycle], start, i + DateCycle);
      assert (i + DateCycle) % DateCycle == i % DateCycle;
    }
  }

  /** With 30 rows or more, each of the 30 days from `start` is the date of row `day - start`. */
  lemma MockDatesCoverCycle(f: Frame, start: Date, numRows: int, d: Date)
    requires Valid(start) && IsMockFrame(f, start, numRows) && numRows >= DateCycle
    requires start.ordinal <= d.ordinal < start.ordinal + DateCycle
    ensures f.rows[d.ordinal - start.ordinal].date == d
  {
    var i := d.ordinal - start.ordinal;
    assert IsMockRow(f.rows[i], start, i);
  }

  /**
   * The weekly extracts are not confined to their week: with 30 rows or
   * more, both reach dates after today, the last-week one at least 15 days.
   */
  lemma WeeklyFramesReachPastToday(today: Date, lastWeek: Frame, thisWeek: Frame, n: int, m: int)
    requires Valid(today) && ComputeAnchors(today).Success? && n >= DateCycle && m >= DateCycle
    requires IsMockFrame(lastWeek, ComputeAnchors(today).value.startOfLastWeek, n)
    requires IsMockFrame(thisWeek, ComputeAnchors(today).value.startOfThisWeek, m)
    ensures lastWeek.rows[DateCycle - 1].date.ordinal >= today.ordinal + 15
    ensures thisWeek.rows[DateCycle - 1].date.ordinal >= today.ordinal + 23
  {
    assert IsMockRow(lastWeek.rows[DateCycle - 1], ComputeAnchors(today).value.startOfLastWeek, DateCycle - 1);
    assert IsMockRow(thisWeek.rows[DateCycle - 1], ComputeAnchors(today).value.startOfThisWeek, DateCycle - 1);
  }

  // ---------------------------------------------------------------------
  // The script

  /**
   * The generator script run on `today`: the anchors first, then the
   * monthly, last-week and this-week frames (8000, 1000 and 500 rows), each
   * written as soon as it is made. `written` maps each file name to the
   * frame saved under it; `failure` is the OverflowError that ended the
   * script early, if one did.
   */
  method GenerateDemoData(today: Date) returns (written: map<string, Frame>, failure: Option<DateError>)
    requires Valid(today)
    ensures failure.None? <==> today.ordinal >= 15 && today.ordinal - Weekday(today) + DateCycle - 1 <= MaxOrdinal
    ensures written.Keys <= {MonthlyFile, LastWeekFile, ThisWeekFile}
    ensures MonthlyFile in written <==> today.ordinal >= 15
    ensures LastWeekFile in written <==>
      today.ordinal >= 15 && today.ordinal - Weekday(today) - 8 + DateCycle - 1 <= MaxOrdinal
    ensures ThisWeekFile in written <==> failure.None?
    ensures MonthlyFile in written ==> IsMockFrame(written[MonthlyFile], FirstOfMonth(today), 8000)
    ensures LastWeekFile in written ==>
      IsMockFrame(written[LastWeekFile], ComputeAnchors(today).value.startOfLastWeek, 1000)
    ensures ThisWeekFile in written ==>
      IsMockFrame(written[ThisWeekFile], ComputeAnchors(today).value.startOfThisWeek, 500)
  {
    written := map[];
    var anchors := ComputeAnchors(today);
    if anchors.Failure? {
      return written, Some(anchors.error);
    }
    var a := anchors.value;
    var w := Weekday(today);

    FirstOfMonthHeadroom(today);
    var monthly := CreateMockData(a.firstOfMonth, 8000);
    // Thirty days from a first of a month never pass 9999-12-31.
    assert monthly.Success?;
    assert MonthlyFile != LastWeekFile && MonthlyFile != ThisWeekFile && LastWeekFile != ThisWeekFile;
    written := written[MonthlyFile := monthly.value];

    var lastWeek := CreateMockData(a.startOfLastWeek, 1000);
    assert lastWeek.Failure? <==> today.ordinal - w - 8 + DateCycle - 1 > MaxOrdinal;
    if lastWeek.Failure? {
      return written, Some(lastWeek.error);
    }
    written := written[LastWeekFile := lastWeek.value];

    var thisWeek := CreateMockData(a.startOfThisWeek, 500);
    assert thisWeek.Failure? <==> today.ordinal - w + DateCycle - 1 > MaxOrdinal;
    if thisWeek.Failure? {
      return written, Some(thisWeek.error);
    }
    written := written[ThisWeekFile := thisWeek.value];
    failure := None;
  }
}
