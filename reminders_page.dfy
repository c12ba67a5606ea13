/**
 * The schedule page (`app/reminders/page.tsx`): a month calendar whose
 * cells carry a dot for days that have reminders, and the selected day's
 * active and done lists with their toggle and delete handlers. All dates
 * here are calendar days in the browser's local time zone, as date-fns
 * sees them.
 */
module RemindersPage {
  import opened Text
  import opened Calendar
  import opened IsoDate
  import opened Seqs
  import opened ReminderModel

  // ------------------------------------------------------------ the month query

  /**
   * `.gte('date', lo).lte('date', hi)` on the `date` column: the row's day
   * lies between the two bounds, both included.
   */
  predicate DateBetween(s: string, lo: string, hi: string) {
    var a, l, h := ParseYmd(s), ParseYmd(lo), ParseYmd(hi);
    a.Some? && l.Some? && h.Some?
    && ValidDate(a.value) && ValidDate(l.value) && ValidDate(h.value)
    && DayNumber(l.value) <= DayNumber(a.value) <= DayNumber(h.value)
  }

  /** The bounds `fetchMonthReminders` sends: the first and the last day of the month. */
  function MonthBounds(month: Date): (string, string)
    requires ValidDate(month)
  {
    (FormatYmd(StartOfMonth(month.year, month.month)), FormatYmd(EndOfMonth(month.year, month.month)))
  }

  /** The `date` column of every row inside the month of `month`, in table order. */
  function MonthDates(rows: seq<Reminder>, month: Date): seq<string>
    requires ValidDate(month)
  {
    var (lo, hi) := MonthBounds(month);
    Map(Filter(rows, (r: Reminder) => DateBetween(r.date, lo, hi)), (r: Reminder) => r.date)
  }

  /**
   * The month range is inclusive at both ends: a day (of years 1..9999) is
   * inside it exactly when it belongs to that month.
   */
  lemma MonthRangeInclusive(month: Date, d: Date)
    requires ValidDate(month) && 1 <= month.year <= 9999
    requires ValidDate(d) && 1 <= d.year <= 9999
    ensures var (lo, hi) := MonthBounds(month);
      DateBetween(FormatYmd(d), lo, hi) <==> (d.year == month.year && d.month == month.month)
  {
    var y, m := month.year, month.month;
    var start, end := StartOfMonth(y, m), EndOfMonth(y, m);
    FormatYmdRoundTrip(d);
    FormatYmdRoundTrip(start);
    FormatYmdRoundTrip(end);
    WithinMonthBounds(y, m, d);
  }

  /** `hasReminders(d)`: some fetched month row carries `d`'s `yyyy-MM-dd` string. */
  function HasReminders(monthDates: seq<string>, d: Date): (b: bool)
    requires ValidDate(d)
    ensures b <==> FormatYmd(d) in monthDates
  {
    var key := FormatYmd(d);
    Any(monthDates, (s: string) => s == key)
  }

  /**
   * After a month fetch, a day of that month shows a dot exactly when the
   * table holds a row dated that day.
   */
  lemma DotIffStored(rows: seq<Reminder>, month: Date, d: Date)
    requires ValidDate(month) && 1 <= month.year <= 9999
    requires ValidDate(d) && d.year == month.year && d.month == month.month
    ensures HasReminders(MonthDates(rows, month), d)
        <==> exists i :: 0 <= i < |rows| && rows[i].date == FormatYmd(d)
  {
    if exists i :: 0 <= i < |rows| && rows[i].date == FormatYmd(d) {
      var i :| 0 <= i < |rows| && rows[i].date == FormatYmd(d);
      StoredShowsDot(rows, month, d, i);
    }
    if HasReminders(MonthDates(rows, month), d) {
      DotComesFromRow(rows, month, FormatYmd(d));
    }
  }

  lemma StoredShowsDot(rows: seq<Reminder>, month: Date, d: Date, i: int)
    requires ValidDate(month) && 1 <= month.year <= 9999
    requires ValidDate(d) && d.year == month.year && d.month == month.month
    requires 0 <= i < |rows| && rows[i].date == FormatYmd(d)
    ensures FormatYmd(d) in MonthDates(rows, month)
  {
    var (lo, hi) := MonthBounds(month);
    var p := (r: Reminder) => DateBetween(r.date, lo, hi);
    var inMonth := Filter(rows, p);
    MonthRangeInclusive(month, d);
    assert p(rows[i]);
    FilterMembership(rows, p, rows[i]);
    var j :| 0 <= j < |inMonth| && inMonth[j] == rows[i];
    assert MonthDates(rows, month)[j] == FormatYmd(d);
  }

  lemma DotComesFromRow(rows: seq<Reminder>, month: Date, key: string)
    requires ValidDate(month)
    requires key in MonthDates(rows, month)
    ensures exists i :: 0 <= i < |rows| && rows[i].date == key
  {
    var (lo, hi) := MonthBounds(month);
    var p := (r: Reminder) => DateBetween(r.date, lo, hi);
    var inMonth := Filter(rows, p);
    var dates := MonthDates(rows, month);
    var j :| 0 <= j < |dates| && dates[j] == key;
    FilterMembership(rows, p, inMonth[j]);
    assert inMonth[j] in rows && inMonth[j].date == key;
  }

  // ------------------------------------------------------------ the grid

  /** A grid cell: a leading blank, or a day button with its reminder dot. */
  datatype Cell = Blank | DayCell(date: Date, dot: bool)

  /**
   * The calendar grid of a month: as many blanks as the weekday of day 1
   * (0 = Sunday), then every day of the month in order, each flagged with
   * `hasReminders`. `GridFollowsInterval` shows the day cells are exactly
   * the days `eachDayOfInterval` lists from the month's start to its end.
   */
  function MonthGrid(y: int, m: int, monthDates: seq<string>): (g: seq<Cell>)
    requires 1 <= m <= 12
    ensures var lead := DayOfWeek(StartOfMonth(y, m));
      && 0 <= lead <= 6
      && |g| == lead + DaysInMonth(y, m)
      && (forall i :: 0 <= i < lead ==> g[i] == Blank)
      && (forall i :: lead <= i < |g| ==> g[i] == DayCell(DayOfMonth(y, m, i - lead), DotOn(monthDates, y, m, i - lead)))
  {
    var lead := DayOfWeek(StartOfMonth(y, m));
    var blanks := seq(lead, _ => Blank);
    var n := DaysInMonth(y, m);
    var cells := seq(n, i requires 0 <= i < n => DayCell(DayOfMonth(y, m, i), DotOn(monthDates, y, m, i)));
    blanks + cells
  }

  /**
   * The grid's day cells, after the blanks, are the days of
   * `eachDayOfInterval({ start: startOfMonth, end: endOfMonth })`, one to
   * one and in the same order.
   */
  lemma GridFollowsInterval(y: int, m: int, monthDates: seq<string>)
    requires 1 <= m <= 12
    ensures DayNumber(StartOfMonth(y, m)) <= DayNumber(EndOfMonth(y, m))
    ensures var g, lead := MonthGrid(y, m, monthDates), DayOfWeek(StartOfMonth(y, m));
      var days := EachDayOfInterval(StartOfMonth(y, m), EndOfMonth(y, m));
      && |g| == lead + |days|
      && forall i :: 0 <= i < |days| ==> g[lead + i] == DayCell(days[i], HasReminders(monthDates, days[i]))
  {
    MonthDays(y, m);
  }

  /** Day `i + 1` of the month. */
  function DayOfMonth(y: int, m: int, i: int): (d: Date)
    requires 1 <= m <= 12 && 0 <= i < DaysInMonth(y, m)
    ensures ValidDate(d) && d.year == y && d.month == m && d.day == i + 1
  {
    Date(y, m, i + 1)
  }

  /** Whether day `i + 1` of the month carries a dot. */
  function DotOn(monthDates: seq<string>, y: int, m: int, i: int): bool
    requires 1 <= m <= 12 && 0 <= i < DaysInMonth(y, m)
  {
    HasReminders(monthDates, DayOfMonth(y, m, i))
  }

  /**
   * With seven columns, every day lands in the column of its own weekday:
   * the leading blanks line day 1 up under its weekday header.
   */
  lemma GridColumns(y: int, m: int, monthDates: seq<string>, k: int)
    requires 1 <= m <= 12 && 1 <= k <= DaysInMonth(y, m)
    ensures var lead := DayOfWeek(StartOfMonth(y, m));
      && MonthGrid(y, m, monthDates)[lead + k - 1].date == Date(y, m, k)
      && (lead + k - 1) % 7 == DayOfWeek(Date(y, m, k))
  {
    GridCellDate(y, m, monthDates, k);
    WeekdayInMonth(y, m, k);
  }

  lemma GridCellDate(y: int, m: int, monthDates: seq<string>, k: int)
    requires 1 <= m <= 12 && 1 <= k <= DaysInMonth(y, m)
    ensures MonthGrid(y, m, monthDates)[DayOfWeek(StartOfMonth(y, m)) + k - 1].date == Date(y, m, k)
  {
    var g, lead := MonthGrid(y, m, monthDates), DayOfWeek(StartOfMonth(y, m));
    assert g[lead + k - 1] == DayCell(DayOfMonth(y, m, k - 1), DotOn(monthDates, y, m, k - 1));
  }

  /** Day `k` of a month falls `k - 1` weekdays after day 1. */
  lemma WeekdayInMonth(y: int, m: int, k: int)
    requires 1 <= m <= 12 && 1 <= k <= DaysInMonth(y, m)
    ensures (DayOfWeek(StartOfMonth(y, m)) + k - 1) % 7 == DayOfWeek(Date(y, m, k))
  {
    var first := DayNumber(StartOfMonth(y, m));
    assert DayNumber(Date(y, m, k)) == first + k - 1;
    ShiftWeekday(first + 4, k - 1);
  }

  /** A grid built for a single stored day marks that day's cell and no other. */
  lemma SingleDateMarksOneCell(y: int, m: int, d: Date)
    requires 1 <= y <= 9999 && 1 <= m <= 12
    requires ValidDate(d) && d.year == y && d.month == m
    ensures var g, lead := MonthGrid(y, m, [FormatYmd(d)]), DayOfWeek(StartOfMonth(y, m));
      forall i :: lead <= i < |g| ==> (g[i].dot <==> i == lead + d.day - 1)
  {
    var g, lead := MonthGrid(y, m, [FormatYmd(d)]), DayOfWeek(StartOfMonth(y, m));
    forall i | lead <= i < |g|
      ensures g[i].dot <==> i == lead + d.day - 1
    {
      FormatYmdInjective(DayOfMonth(y, m, i - lead), d);
    }
  }

  lemma ShiftWeekday(x: int, k: nat)
    ensures (x % 7 + k) % 7 == (x + k) % 7
  {
    assert x == 7 * (x / 7) + x % 7;
  }

  // ------------------------------------------------------------ cells and headings

  /** The four class branches of a day button. */
  datatype CellStyle = SelectedStyle | TodayStyle | PastStyle | UpcomingStyle

  /**
   * The style branch that applies to `day`. Exactly one applies: the
   * selected day wins; otherwise today, a past day or a later day, where a
   * past day is never today.
   */
  function CellStyleOf(day: Date, selected: Date, today: Date): (s: CellStyle)
    requires ValidDate(day) && ValidDate(selected) && ValidDate(today)
    ensures s == SelectedStyle <==> day == selected
    ensures s == TodayStyle <==> day != selected && day == today
    ensures s == PastStyle <==> day != selected && IsBefore(day, today)
    ensures s == UpcomingStyle <==> day != selected && day != today && !IsBefore(day, today)
  {
    var isSelected := day == selected;
    var isTodayDate := day == today;
    var isPastDate := IsBefore(day, today);
    if isSelected then SelectedStyle
    else if isTodayDate then TodayStyle
    else if isPastDate && !isTodayDate then PastStyle
    else UpcomingStyle
  }

  /** `format(d, 'M월 d일')`: month and day numbers, unpadded. */
  function MonthDayLabel(d: Date): string
    requires ValidDate(d)
  {
    NatToString(d.month) + "월 " + NatToString(d.day) + "일"
  }

  /**
   * The heading of a section of the selected day: "오늘 " and the section's
   * noun for today, else the day's `M월 d일` label and the noun. The to-do
   * section passes "할일", the done section "완료".
   */
  function SectionHeading(selected: Date, today: Date, noun: string): (h: string)
    requires ValidDate(selected) && ValidDate(today)
    ensures h == "오늘 " + noun <==> selected == today
    ensures selected != today ==> h == MonthDayLabel(selected) + " " + noun
  {
    if selected == today then "오늘 " + noun
    else
      LabelIsNotToday(selected, noun);
      MonthDayLabel(selected) + " " + noun
  }

  /** A day's label starts with a digit, so no label heading reads as today's. */
  lemma LabelIsNotToday(d: Date, noun: string)
    requires ValidDate(d)
    ensures MonthDayLabel(d) + " " + noun != "오늘 " + noun
  {
    NatToStringRoundTrip(d.month);
    assert (MonthDayLabel(d) + " " + noun)[0] == NatToString(d.month)[0];
  }

  /** What the to-do section shows. */
  datatype TodoView = LoadingNote | EmptyNote(text: string) | Items(items: seq<Reminder>)

  /**
   * Loading wins; an empty list shows a note, in the past tense exactly
   * for a selected day before today; otherwise the list itself.
   */
  function TodoSection(loading: bool, active: seq<Reminder>, selected: Date, today: Date): (v: TodoView)
    requires ValidDate(selected) && ValidDate(today)
    ensures v == LoadingNote <==> loading
    ensures v.EmptyNote? <==> !loading && active == []
    ensures v.EmptyNote? ==> (v.text == "할일이 없었어요" <==> IsBefore(selected, today))
    ensures v.EmptyNote? ==> (v.text == "할일이 없어요" <==> !IsBefore(selected, today))
    ensures v.Items? ==> v.items == active && active != []
  {
    var isPast := IsBefore(selected, today);
    if loading then LoadingNote
    else if |active| == 0 then EmptyNote(if isPast then "할일이 없었어요" else "할일이 없어요")
    else Items(active)
  }

  /** Today's empty list is announced in the present tense. */
  lemma TodayGetsPresentNote(today: Date)
    requires ValidDate(today)
    ensures TodoSection(false, [], today, today) == EmptyNote("할일이 없어요")
  {
  }

  // ------------------------------------------------------------ the page

  class Page {
    var selectedDate: Date
    var reminders: seq<Reminder>
    var doneReminders: seq<Reminder>
    var loading: bool
    var currentMonth: Date
    var monthReminders: seq<string>

    ghost predicate Valid()
      reads this
    {
      ValidDate(selectedDate) && ValidDate(currentMonth)
    }

    /** Both the selected day and the shown month start at today. */
    constructor (today: Date)
      requires ValidDate(today)
      ensures Valid()
      ensures selectedDate == today && currentMonth == today
      ensures reminders == [] && doneReminders == [] && monthReminders == [] && !loading
    {
      selectedDate := today;
      reminders := [];
      doneReminders := [];
      loading := false;
      currentMonth := today;
      monthReminders := [];
    }

    /**
     * `fetchMonthReminders`: the dates of the month's rows; on an error the
     * previous dots stay.
     */
    method FetchMonthReminders(store: ReminderStore, fails: bool)
      requires Valid()
      modifies this`monthReminders
      ensures Valid()
      ensures monthReminders == if fails then old(monthReminders) else MonthDates(store.rows, currentMonth)
      ensures selectedDate == old(selectedDate) && currentMonth == old(currentMonth)
      ensures reminders == old(reminders) && doneReminders == old(doneReminders) && loading == old(loading)
    {
      var rows := store.rows;
      if !fails {
        monthReminders := MonthDates(rows, currentMonth);
      }
    }

    /**
     * `fetchReminders(date)`: raises `loading`, then splits the day's rows
     * into active and done. On an error it returns early: both lists keep
     * their old contents and `loading` stays raised.
     */
    method FetchReminders(date: Date, store: ReminderStore, fails: bool)
      requires Valid() && ValidDate(date)
      modifies this
      ensures Valid()
      ensures fails ==> loading && reminders == old(reminders) && doneReminders == old(doneReminders)
      ensures !fails ==> (!loading
        && reminders == ActiveOf(store.SelectDay(FormatYmd(date)))
        && doneReminders == DoneOf(store.SelectDay(FormatYmd(date))))
      ensures selectedDate == old(selectedDate) && currentMonth == old(currentMonth)
      ensures monthReminders == old(monthReminders)
    {
      loading := true;
      var dateStr := FormatYmd(date);
      if fails {
        return;
      }
      var data := store.SelectDay(dateStr);
      reminders := ActiveOf(data);
      doneReminders := DoneOf(data);
      loading := false;
    }

    /** A click on a day selects it; the effect on `selectedDate` then fetches that day. */
    method SelectDay(day: Date) returns (refetch: bool)
      requires Valid() && ValidDate(day)
      modifies this
      ensures Valid()
      ensures refetch
      ensures selectedDate == day
      ensures currentMonth == old(currentMonth) && monthReminders == old(monthReminders)
      ensures reminders == old(reminders) && doneReminders == old(doneReminders) && loading == old(loading)
    {
      selectedDate := day;
      refetch := true;
    }

    /**
     * `handleToggleDone`: writes 'done' or 'pending' to the row with `id`;
     * the selected day is fetched again only when the write succeeds.
     */
    method ToggleDone(id: string, isDone: bool, store: ReminderStore, fails: bool) returns (refetch: bool)
      modifies store
      ensures refetch == !fails
      ensures store.rows == if fails then old(store.rows) else WithStatus(old(store.rows), id, StatusFor(isDone))
    {
      var ok := store.UpdateStatus(id, StatusFor(isDone), fails);
      refetch := ok;
    }

    /** `handleDeleteDone`: deletes the row with `id`; the day is fetched again whatever the outcome. */
    method DeleteDone(id: string, store: ReminderStore, fails: bool) returns (refetch: bool)
      modifies store
      ensures refetch
      ensures store.rows == if fails then old(store.rows) else WithoutId(old(store.rows), id)
    {
      var _ := store.DeleteById(id, fails);
      refetch := true;
    }

    /**
     * `handleDeleteAllDone`: deletes the done rows of the selected day; the
     * day and the month are fetched again whatever the outcome.
     */
    method DeleteAllDone(store: ReminderStore, fails: bool) returns (refetchDay: bool, refetchMonth: bool)
      requires Valid()
      modifies store
      ensures refetchDay && refetchMonth
      ensures store.rows == if fails then old(store.rows) else WithoutDoneOn(old(store.rows), FormatYmd(selectedDate))
    {
      var dateStr := FormatYmd(selectedDate);
      var _ := store.DeleteDoneOn(dateStr, fails);
      refetchDay, refetchMonth := true, true;
    }

    /**
     * The `onAdded` callback handed to the add button: after a reminder is
     * added, the selected day and the month are fetched again. Nothing else
     * changes.
     */
    method OnAdded() returns (refetchDay: bool, refetchMonth: bool)
      ensures refetchDay && refetchMonth
    {
      refetchDay, refetchMonth := true, true;
    }
  }
}
