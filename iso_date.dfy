/**
 * Date strings: date-fns `format(d, 'yyyy-MM-dd')` of a calendar day, and
 * `Date.prototype.toISOString()` of an instant (ECMAScript's date time string
 * format, whose date part is the ISO 8601 extended calendar date
 * YYYY-MM-DD, section 4.1.2.2 of ISO 8601:2004), with a reader for the
 * ten-character form.
 */
module IsoDate {
  import opened Options
  import opened Text
  import opened Calendar

  const MsPerDay: int := 86400000

  /** A JavaScript `Date` holds instants within 8.64e15 ms of the epoch; beyond, it is invalid. */
  const MaxTimeValue: int := 8640000000000000

  predicate InTimeRange(t: int) {
    -MaxTimeValue <= t <= MaxTimeValue
  }

  /** The UTC calendar date of an instant given in milliseconds since the epoch. */
  function UtcDate(t: int): (d: Date)
    ensures ValidDate(d)
    ensures DayNumber(d) * MsPerDay <= t < (DayNumber(d) + 1) * MsPerDay
  {
    FromDayNumber(t / MsPerDay)
  }

  /** Conversely, the one valid date whose 24 hours contain `t` is the UTC date of `t`. */
  lemma UtcDateUnique(t: int, d: Date)
    requires ValidDate(d)
    requires DayNumber(d) * MsPerDay <= t < (DayNumber(d) + 1) * MsPerDay
    ensures UtcDate(t) == d
  {
    var u := UtcDate(t);
    assert DayNumber(u) == DayNumber(d);
    DayNumberInjective(u, d);
  }

  function Pad2(n: nat): string {
    PadStart(NatToString(n), 2, '0')
  }

  function Pad4(n: nat): string {
    PadStart(NatToString(n), 4, '0')
  }

  // ------------------------------------------------------------ date-fns format

  /** date-fns renders years up to 0 as era years: 0 is 1, -1 is 2. */
  function EraYear(y: int): (e: nat)
    ensures e >= 1
  {
    if y > 0 then y else 1 - y
  }

  /** `format(d, 'yyyy-MM-dd')`. */
  function FormatYmd(d: Date): string
    requires ValidDate(d)
  {
    Pad4(EraYear(d.year)) + "-" + Pad2(d.month) + "-" + Pad2(d.day)
  }

  // ------------------------------------------------------------ toISOString

  /** Four digits for years 0..9999, otherwise a sign and six digits. */
  function IsoYear(y: int): string {
    if 0 <= y <= 9999 then Pad4(y)
    else (if y < 0 then "-" else "+") + PadStart(NatToString(if y < 0 then -y else y), 6, '0')
  }

  /** The date part of `toISOString()`, the text before its `T`. */
  function IsoDatePart(d: Date): string
    requires ValidDate(d)
  {
    IsoYear(d.year) + "-" + Pad2(d.month) + "-" + Pad2(d.day)
  }

  /** `new Date(t).toISOString()` for a valid instant: `YYYY-MM-DDTHH:mm:ss.sssZ` in UTC. */
  function ToIsoString(t: int): string
    requires InTimeRange(t)
  {
    IsoDatePart(UtcDate(t)) + "T" + IsoTimePart(t % MsPerDay)
  }

  /** `HH:mm:ss.sssZ` for a millisecond of the day. */
  function IsoTimePart(ms: nat): string {
    Pad2(ms / 3600000) + ":" + Pad2(ms / 60000 % 60) + ":" + Pad2(ms / 1000 % 60)
      + "." + PadStart(NatToString(ms % 1000), 3, '0') + "Z"
  }

  /**
   * `new Date(t).toISOString().split("T")[0]`; `None` where an out-of-range
   * instant makes `toISOString` throw.
   */
  function IsoDateString(t: int): Option<string> {
    if InTimeRange(t) then Some(Split(ToIsoString(t), 'T')[0]) else None
  }

  lemma DigitsHaveNoT(n: nat, width: nat)
    ensures 'T' !in PadStart(NatToString(n), width, '0')
  {
    PaddedNumberRoundTrip(n, width);
  }

  /** The string the source stores is exactly the date part of the UTC date of the instant. */
  lemma IsoDateStringIsDatePart(t: int)
    requires InTimeRange(t)
    ensures IsoDateString(t) == Some(IsoDatePart(UtcDate(t)))
  {
    var d := UtcDate(t);
    var a := IsoDatePart(d);
    DatePartHasNoT(d);
    SplitFirst(a, 'T', IsoTimePart(t % MsPerDay));
  }

  lemma DatePartHasNoT(d: Date)
    requires ValidDate(d)
    ensures 'T' !in IsoDatePart(d)
  {
    var y := d.year;
    DigitsHaveNoT(d.month, 2);
    DigitsHaveNoT(d.day, 2);
    DigitsHaveNoT(if 0 <= y <= 9999 then y else if y < 0 then -y else y, if 0 <= y <= 9999 then 4 else 6);
  }

  // ------------------------------------------------------------ reading dates back

  /** Reads `DDDD-DD-DD`; anything else is not a date string of this form. */
  function ParseYmd(s: string): (r: Option<Date>)
    ensures r.Some? <==> (|s| == 10 && s[4] == '-' && s[7] == '-'
      && AllDigits(s[..4]) && AllDigits(s[5..7]) && AllDigits(s[8..]))
  {
    if |s| == 10 && s[4] == '-' && s[7] == '-'
      && AllDigits(s[..4]) && AllDigits(s[5..7]) && AllDigits(s[8..])
    then Some(Date(DigitsValue(s[..4]), DigitsValue(s[5..7]), DigitsValue(s[8..])))
    else None
  }

  /** A four-digit year, month and day written in `YYYY-MM-DD` read back as themselves. */
  lemma ParseWritten(y: nat, m: nat, d: nat)
    requires y <= 9999 && m <= 99 && d <= 99
    ensures ParseYmd(Pad4(y) + "-" + Pad2(m) + "-" + Pad2(d)) == Some(Date(y, m, d))
  {
    PaddedNumberLength(y, 4);
    PaddedNumberLength(m, 2);
    PaddedNumberLength(d, 2);
    PaddedNumberRoundTrip(y, 4);
    PaddedNumberRoundTrip(m, 2);
    PaddedNumberRoundTrip(d, 2);
    DateShape(Pad4(y), Pad2(m), Pad2(d));
  }

  lemma DateShape(a: string, b: string, c: string)
    requires |a| == 4 && |b| == 2 && |c| == 2
    ensures var s := a + "-" + b + "-" + c;
      |s| == 10 && s[4] == '-' && s[7] == '-' && s[..4] == a && s[5..7] == b && s[8..] == c
  {
  }

  /** For years 0..9999 the ISO date part is ten characters and reads back as the date. */
  lemma IsoDatePartRoundTrip(d: Date)
    requires ValidDate(d) && 0 <= d.year <= 9999
    ensures |IsoDatePart(d)| == 10
    ensures ParseYmd(IsoDatePart(d)) == Some(d)
  {
    var s := Pad4(d.year) + "-" + Pad2(d.month) + "-" + Pad2(d.day);
    assert IsoDatePart(d) == s;
    PaddedNumberLength(d.year, 4);
    PaddedNumberLength(d.month, 2);
    PaddedNumberLength(d.day, 2);
    DateShape(Pad4(d.year), Pad2(d.month), Pad2(d.day));
    ParseWritten(d.year, d.month, d.day);
  }

  /** For years 1..9999 date-fns and `toISOString` write the same date string. */
  lemma FormatYmdIsIsoDatePart(d: Date)
    requires ValidDate(d) && 1 <= d.year <= 9999
    ensures FormatYmd(d) == IsoDatePart(d)
  {
  }

  /** For years 1..9999 the formatted string identifies the day: its reading gives the date back. */
  lemma FormatYmdRoundTrip(d: Date)
    requires ValidDate(d) && 1 <= d.year <= 9999
    ensures |FormatYmd(d)| == 10
    ensures ParseYmd(FormatYmd(d)) == Some(d)
  {
    IsoDatePartRoundTrip(d);
  }

  /** Two days of years 1..9999 format alike only when they are the same day. */
  lemma FormatYmdInjective(a: Date, b: Date)
    requires ValidDate(a) && 1 <= a.year <= 9999
    requires ValidDate(b) && 1 <= b.year <= 9999
    ensures FormatYmd(a) == FormatYmd(b) <==> a == b
  {
    FormatYmdRoundTrip(a);
    FormatYmdRoundTrip(b);
  }
}
