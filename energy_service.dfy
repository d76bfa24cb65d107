/**
 * The client-side reshaping done by `getEnergyData` in
 * `src/services/energyService.ts`: every day-binned aggregate row of the
 * sensor backend becomes a display record with a `year-month-day` date and
 * the day's energy in kWh, and a failure becomes one error carrying the
 * backend's message or a fixed one.
 *
 * The HTTP request is not modelled: its outcome is an input value.
 */
module EnergyService {
  import opened Wrappers
  import opened Text

  /** One aggregate row of the backend: a sensor's readings over one day. */
  datatype EnergyRecord = EnergyRecord(
    sensorId: string,
    year: int,
    month: int,
    day: int,
    count: real,
    sum: real,
    min: real,
    max: real)

  /** One day of energy as the dashboard shows it, with its source row. */
  datatype EnergyData = EnergyData(date: string, kWh: real, raw: EnergyRecord)

  /**
   * What the request produced. A reply body is a list whose entries may be
   * `null`, or a value that is not a list at all. A failed request carries
   * `error.response?.data?.message` (`None` when any link of that chain is
   * absent).
   */
  datatype EnergyResponse =
    | Received(rows: seq<Option<EnergyRecord>>)
    | ReceivedNonList
    | Failed(message: Option<string>)

  /** The outcome of `getEnergyData`: the records, or the error it throws. */
  datatype Result<T> = Success(value: T) | Failure(message: string)

  const FallbackMessage: string := "Error fetching energy data"

  /** `String(n).padStart(2, '0')`: a "0" in front of a single digit only. */
  function Pad2(n: int): (s: string)
    ensures s == if 0 <= n < 10 then "0" + IntStr(n) else IntStr(n)
  {
    PadStart(IntStr(n), 2, '0')
  }

  /**
   * The template string `${year}-${month padded}-${day padded}`; nothing
   * checks the calendar. The three fields stand in order, with a dash right
   * after the year and right after the month.
   */
  function FormatDate(year: int, month: int, day: int): (s: string)
    ensures |s| == |IntStr(year)| + |Pad2(month)| + |Pad2(day)| + 2
    ensures s[|IntStr(year)|] == '-' && s[|IntStr(year)| + 1 + |Pad2(month)|] == '-'
  {
    var y, m, d := IntStr(year), Pad2(month), Pad2(day);
    DashLayout(y, m, d);
    y + "-" + m + "-" + d
  }

  /** Where the pieces of `y-m-d` stand. */
  lemma DashLayout(y: string, m: string, d: string)
    ensures var s := y + "-" + m + "-" + d;
      && |s| == |y| + |m| + |d| + 2
      && s[..|y|] == y && s[|y|] == '-'
      && s[|y| + 1..|y| + 1 + |m|] == m && s[|y| + 1 + |m|] == '-'
      && s[|y| + 2 + |m|..] == d
  {
    var s := y + "-" + m + "-" + d;
    assert s == y + ("-" + (m + ("-" + d)));
  }

  /** `(max - min) / 1000`: the day's Wh difference in kWh. */
  function KWh(item: EnergyRecord): (k: real)
    ensures k * 1000.0 == item.max - item.min
    ensures item.max >= item.min ==> k >= 0.0
    ensures item.max > item.min ==> k > 0.0
  {
    (item.max - item.min) / 1000.0
  }

  /** The `map` callback: one row to one display record. */
  function FormatRecord(item: EnergyRecord): (e: EnergyData)
    ensures e.raw == item
  {
    EnergyData(FormatDate(item.year, item.month, item.day), KWh(item), item)
  }

  /** `response.data.map(...)`: the rows reshaped one by one, in order. */
  function FormatAll(data: seq<EnergyRecord>): (r: seq<EnergyData>)
    ensures |r| == |data|
    ensures forall i :: 0 <= i < |r| ==>
      && r[i].raw == data[i]
      && r[i].date == FormatDate(data[i].year, data[i].month, data[i].day)
      && r[i].kWh * 1000.0 == data[i].max - data[i].min
  {
    seq(|data|, i requires 0 <= i < |data| => FormatRecord(data[i]))
  }

  /**
   * `error.response?.data?.message || 'Error fetching energy data'`: `||`
   * tests truthiness, so an empty message falls back too.
   */
  function ErrorMessage(message: Option<string>): (m: string)
    ensures m != ""
    ensures message.Some? && message.value != "" ==> m == message.value
    ensures message.None? || message.value == "" ==> m == FallbackMessage
  {
    if message.Some? && message.value != "" then message.value else FallbackMessage
  }

  /** No entry of the list is `null`. */
  predicate AllRows(rows: seq<Option<EnergyRecord>>) {
    forall i :: 0 <= i < |rows| ==> rows[i].Some?
  }

  /** The rows of a list without `null` entries. */
  function Rows(rows: seq<Option<EnergyRecord>>): (r: seq<EnergyRecord>)
    requires AllRows(rows)
    ensures |r| == |rows| && forall i :: 0 <= i < |r| ==> rows[i] == Some(r[i])
  {
    seq(|rows|, i requires 0 <= i < |rows| => rows[i].value)
  }

  /**
   * `getEnergyData`: all rows reshaped, or one error and no records at all.
   * A body that is not a list, or a `null` row, makes the `map` throw a
   * `TypeError` inside the `try`; it has no `response`, so its message is
   * the fixed one.
   */
  function GetEnergyData(response: EnergyResponse): (r: Result<seq<EnergyData>>)
    ensures r.Success? <==> response.Received? && AllRows(response.rows)
    ensures r.Success? ==>
      && |r.value| == |response.rows|
      && forall i :: 0 <= i < |r.value| ==>
           && Some(r.value[i].raw) == response.rows[i]
           && r.value[i] == FormatRecord(r.value[i].raw)
    ensures r.Failure? && response.Failed? ==> r.message == ErrorMessage(response.message)
    ensures r.Failure? && !response.Failed? ==> r.message == FallbackMessage
  {
    match response
    case Received(rows) =>
      if AllRows(rows) then Success(FormatAll(Rows(rows))) else Failure(ErrorMessage(None))
    case ReceivedNonList => Failure(ErrorMessage(None))
    case Failed(message) => Failure(ErrorMessage(message))
  }

  // ---------------------------------------------------------------------
  // Properties of the date format

  /** Month and day in `0..99` are always exactly two characters. */
  lemma Pad2Width(n: int)
    requires 0 <= n <= 99
    ensures |Pad2(n)| == 2 && AllDigits(Pad2(n))
  {
    if n >= 10 {
      NatStrLength(n, 2);
    }
  }

  /** For a four-digit year and a calendar month and day the date is `YYYY-MM-DD`. */
  lemma IsoShape(year: int, month: int, day: int)
    requires 1000 <= year <= 9999 && 1 <= month <= 12 && 1 <= day <= 31
    ensures var s := FormatDate(year, month, day);
      && |s| == 10 && s[4] == '-' && s[7] == '-'
      && AllDigits(s[..4]) && AllDigits(s[5..7]) && AllDigits(s[8..])
  {
    assert Pow10(3) == 1000 && Pow10(4) == 10000;
    NatStrLength(year, 4);
    Pad2Width(month);
    Pad2Width(day);
    JoinedShape(IntStr(year), Pad2(month), Pad2(day));
  }

  /** Fields of widths 4, 2 and 2 joined by dashes, and where they end up. */
  lemma JoinedShape(y: string, m: string, d: string)
    requires |y| == 4 && |m| == 2 && |d| == 2
    requires AllDigits(y) && AllDigits(m) && AllDigits(d)
    ensures var s := y + "-" + m + "-" + d;
      && |s| == 10 && s[4] == '-' && s[7] == '-'
      && AllDigits(s[..4]) && AllDigits(s[5..7]) && AllDigits(s[8..])
  {
    var s := y + "-" + m + "-" + d;
    assert s[..4] == y && s[5..7] == m && s[8..] == d;
  }

  /** Out-of-range months and days are formatted as they come. */
  lemma NoCalendarCheck()
    ensures FormatDate(2025, 13, 32) == "2025-13-32"
    ensures FormatDate(2025, 3, 1) == "2025-03-01"
  {
    Year2025();
    Pad2Literals();
    assert FormatDate(2025, 13, 32) == "2025" + "-" + "13" + "-" + "32";
    assert FormatDate(2025, 3, 1) == "2025" + "-" + "03" + "-" + "01";
  }

  lemma Pad2Literals()
    ensures Pad2(13) == "13" && Pad2(32) == "32"
    ensures Pad2(3) == "03" && Pad2(1) == "01"
  {
    TwoDigitStr(13);
    TwoDigitStr(32);
    assert IntStr(3) == "3" && IntStr(1) == "1";
  }

  lemma TwoDigitStr(n: nat)
    requires 10 <= n <= 99
    ensures Pad2(n) == [DigitChar(n / 10), DigitChar(n % 10)]
  {
    assert NatStr(n) == NatStr(n / 10) + [DigitChar(n % 10)];
  }

  lemma Year2025()
    ensures IntStr(2025) == "2025"
  {
    assert NatStr(20) == NatStr(2) + [DigitChar(0)];
    assert NatStr(202) == NatStr(20) + [DigitChar(2)];
    assert NatStr(2025) == NatStr(202) + [DigitChar(5)];
  }

  /** Cuts `s` at its first `c`, or `None` when there is no `c`. */
  function SplitAt(s: string, c: char): Option<(string, string)>
  {
    var i := IndexOf(s, c);
    if i == |s| then None else Some((s[..i], s[i + 1..]))
  }

  /** A non-empty digit string and its number. */
  function Field(t: string): Option<nat>
  {
    if t != [] && AllDigits(t) then Some(Value(t)) else None
  }

  /** Reading a `y-m-d` string back; the inverse of `FormatDate`. */
  function ParseDate(s: string): Option<(nat, nat, nat)>
  {
    match SplitAt(s, '-')
    case None => None
    case Some((y, rest)) =>
      match SplitAt(rest, '-')
      case None => None
      case Some((m, d)) =>
        if Field(y).Some? && Field(m).Some? && Field(d).Some?
        then Some((Field(y).value, Field(m).value, Field(d).value))
        else None
  }

  lemma SplitAtJoined(a: string, c: char, b: string)
    requires forall i :: 0 <= i < |a| ==> a[i] != c
    ensures SplitAt(a + [c] + b, c) == Some((a, b))
  {
    var s := a + [c] + b;
    IndexOfAfter(a, c, b);
    assert s[..|a|] == a && s[|a| + 1..] == b;
  }

  /** The padded field reads back as the number. */
  lemma Pad2Value(n: int)
    requires n >= 0
    ensures AllDigits(Pad2(n)) && Pad2(n) != [] && Value(Pad2(n)) == n
  {
    ValueNatStr(n);
    if n < 10 {
      ValueLeadingZero(NatStr(n));
    }
  }

  /**
   * The date format loses nothing: for non-negative fields the three
   * numbers are read back from the string, so distinct rows get distinct
   * dates.
   */
  lemma DateRoundTrip(year: int, month: int, day: int)
    requires year >= 0 && month >= 0 && day >= 0
    ensures ParseDate(FormatDate(year, month, day)) == Some((year, month, day))
  {
    ValueNatStr(year);
    Pad2Value(month);
    Pad2Value(day);
    ParseJoined(IntStr(year), Pad2(month), Pad2(day));
  }

  /** Three non-empty digit strings joined by dashes are read back field by field. */
  lemma ParseJoined(y: string, m: string, d: string)
    requires y != [] && m != [] && d != []
    requires AllDigits(y) && AllDigits(m) && AllDigits(d)
    ensures ParseDate(y + "-" + m + "-" + d) == Some((Value(y), Value(m), Value(d)))
  {
    assert y + "-" + m + "-" + d == y + ['-'] + (m + "-" + d);
    SplitAtJoined(y, '-', m + "-" + d);
    assert m + "-" + d == m + ['-'] + d;
    SplitAtJoined(m, '-', d);
  }

  lemma DateInjective(y1: int, m1: int, d1: int, y2: int, m2: int, d2: int)
    requires y1 >= 0 && m1 >= 0 && d1 >= 0 && y2 >= 0 && m2 >= 0 && d2 >= 0
    requires FormatDate(y1, m1, d1) == FormatDate(y2, m2, d2)
    ensures y1 == y2 && m1 == m2 && d1 == d2
  {
    DateRoundTrip(y1, m1, d1);
    DateRoundTrip(y2, m2, d2);
  }

  // ---------------------------------------------------------------------
  // Properties of the error policy

  /** A backend failure with message "boom" is thrown as "boom". */
  lemma FailureKeepsBackendMessage()
    ensures GetEnergyData(Failed(Some("boom"))) == Failure("boom")
    ensures GetEnergyData(Failed(None)) == Failure(FallbackMessage)
    ensures GetEnergyData(Failed(Some(""))) == Failure(FallbackMessage)
  {
  }

  /** A malformed reply body throws a `TypeError`, reported with the fixed message. */
  lemma MalformedBodyGivesFixedMessage(rows: seq<Option<EnergyRecord>>, i: nat)
    requires i < |rows| && rows[i].None?
    ensures GetEnergyData(Received(rows)) == Failure(FallbackMessage)
    ensures GetEnergyData(ReceivedNonList) == Failure(FallbackMessage)
  {
  }
}
