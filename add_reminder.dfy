/**
 * The floating "add reminder" sheet (`components/home/FloatingAddButton.tsx`):
 * a text field, a date picked from a calendar popover, and the save
 * handler that checks the user and the text in that order before
 * inserting a pending reminder. Instants are milliseconds since the epoch;
 * the browser's time zone is a fixed offset `offsetMs` from UTC.
 */
module AddReminder {
  import opened Options
  import opened Text
  import opened Calendar
  import opened IsoDate
  import opened ReminderModel
  import opened TodayReminders

  /** The toasts `handleAddReminder` ends with. */
  datatype Outcome = NeedLogin | EmptyTask | InsertFailed | Added

  /**
   * The row that is inserted: the user's id, the text as typed (not
   * trimmed), the date string and status 'pending'. The table assigns `id`;
   * `is_important` is not sent and takes its column default, here false.
   */
  function NewReminder(id: string, userId: string, content: string, date: string): (r: Reminder)
    ensures IsActive(r) && r.status == StatusFor(false)
    ensures r.userId == userId && r.content == content && r.date == date && !r.isImportant
  {
    Reminder(id, userId, date, content, Pending, false)
  }

  // ------------------------------------------------------------ the stored date

  /** As written: `selectedDate.toISOString().split("T")[0]`, the UTC date of the instant. */
  function StoredDateAsWritten(t: int): Option<string> {
    IsoDateString(t)
  }

  /** The calendar day on the browser's clock at instant `t`. */
  function LocalDay(t: int, offsetMs: int): (d: Date)
    ensures ValidDate(d)
  {
    UtcDate(t + offsetMs)
  }

  /**
   * As intended: the day the sheet shows on its date button, written
   * `yyyy-MM-dd` in the browser's time zone.
   */
  function StoredDate(t: int, offsetMs: int): string {
    FormatYmd(LocalDay(t, offsetMs))
  }

  /** Between 09:00 and 24:00 KST the UTC date and the Korean date agree; before 09:00 they do not. */
  lemma UtcDayVersusKstDay(t: int)
    ensures KstDay(t) == UtcDate(t) <==> t % MsPerDay < MsPerDay - KstOffsetMs
    ensures t % MsPerDay >= MsPerDay - KstOffsetMs ==> DayNumber(KstDay(t)) == DayNumber(UtcDate(t)) + 1
  {
    var q, r := t / MsPerDay, t % MsPerDay;
    assert t == q * MsPerDay + r;
    if r < MsPerDay - KstOffsetMs {
      assert (t + KstOffsetMs) / MsPerDay == q;
    } else {
      assert t + KstOffsetMs == (q + 1) * MsPerDay + (r + KstOffsetMs - MsPerDay);
      assert (t + KstOffsetMs) / MsPerDay == q + 1;
    }
    if KstDay(t) == UtcDate(t) {
      assert DayNumber(KstDay(t)) == DayNumber(UtcDate(t));
    }
  }

  /** For years 0..9999 two ISO date parts agree only for the same day. */
  lemma IsoDatePartInjective(a: Date, b: Date)
    requires ValidDate(a) && 0 <= a.year <= 9999
    requires ValidDate(b) && 0 <= b.year <= 9999
    ensures IsoDatePart(a) == IsoDatePart(b) <==> a == b
  {
    IsoDatePartRoundTrip(a);
    IsoDatePartRoundTrip(b);
  }

  /**
   * As written, the reminder saved with the default date lands on the day
   * the home list shows exactly when it is 09:00 KST or later: from 00:00
   * to 09:00 KST it is stored under the previous day.
   */
  lemma AsWrittenDefaultDate(t: int)
    requires InTimeRange(t) && InTimeRange(t + KstOffsetMs)
    requires 0 <= UtcDate(t).year <= 9999 && 0 <= KstDay(t).year <= 9999
    ensures StoredDateAsWritten(t) == KstDate(t) <==> t % MsPerDay < MsPerDay - KstOffsetMs
  {
    IsoDateStringIsDatePart(t);
    IsoDateStringIsDatePart(t + KstOffsetMs);
    IsoDatePartInjective(UtcDate(t), KstDay(t));
    UtcDayVersusKstDay(t);
  }

  /**
   * At 2024-01-31T23:00:00Z (08:00 on 1 February in Korea) the row is
   * stored under 31 January while the home list asks for 1 February.
   */
  lemma AsWrittenMorningExample()
    ensures UtcDate(1706742000000) == Date(2024, 1, 31)
    ensures KstDay(1706742000000) == Date(2024, 2, 1)
    ensures StoredDateAsWritten(1706742000000) != KstDate(1706742000000)
  {
    DayNumberInjective(UtcDate(1706742000000), Date(2024, 1, 31));
    DayNumberInjective(KstDay(1706742000000), Date(2024, 2, 1));
    AsWrittenDefaultDate(1706742000000);
  }

  /**
   * As written, a day picked in the calendar (local midnight) by a browser
   * in Korea is stored as the day before.
   */
  lemma AsWrittenPickedDayInKorea(d: Date)
    requires ValidDate(d)
    requires InTimeRange(DayNumber(d) * MsPerDay - KstOffsetMs)
    ensures StoredDateAsWritten(DayNumber(d) * MsPerDay - KstOffsetMs)
         == Some(IsoDatePart(FromDayNumber(DayNumber(d) - 1)))
  {
    var t := DayNumber(d) * MsPerDay - KstOffsetMs;
    assert t == (DayNumber(d) - 1) * MsPerDay + (MsPerDay - KstOffsetMs);
    assert t / MsPerDay == DayNumber(d) - 1;
    IsoDateStringIsDatePart(t);
  }

  /** Corrected: in Korea the default date is stored as the day the home list shows. */
  lemma DefaultDateIsToday(t: int)
    requires InTimeRange(t + KstOffsetMs)
    requires 1 <= KstDay(t).year <= 9999
    ensures KstDate(t) == Some(StoredDate(t, KstOffsetMs))
  {
    KstDateIsKoreanDay(t);
  }

  /** Corrected: a day picked in the calendar (local midnight) is stored as that day, in any time zone. */
  lemma PickedDayIsStored(d: Date, offsetMs: int)
    requires ValidDate(d)
    ensures StoredDate(DayNumber(d) * MsPerDay - offsetMs, offsetMs) == FormatYmd(d)
  {
    assert (DayNumber(d) * MsPerDay - offsetMs + offsetMs) / MsPerDay == DayNumber(d);
    DayNumberRoundTrip(d);
  }

  /**
   * The order of the save handler's checks: a missing user first, then a
   * text that trims to nothing, then the insert's own outcome.
   */
  function SaveOutcome(user: Option<string>, task: string, fails: bool): Outcome {
    if user.None? then NeedLogin
    else if Trim(task) == [] then EmptyTask
    else if fails then InsertFailed
    else Added
  }

  /**
   * The four outcomes are exclusive and come in that order: a blank text
   * (white space only) is reported only for a signed-in user, and only a
   * signed-in user with a non-blank text reaches the insert.
   */
  lemma SaveOutcomeOrder(user: Option<string>, task: string, fails: bool)
    ensures SaveOutcome(user, task, fails) == NeedLogin <==> user.None?
    ensures SaveOutcome(user, task, fails) == EmptyTask <==> user.Some? && IsBlank(task)
    ensures SaveOutcome(user, task, fails) == InsertFailed <==> user.Some? && !IsBlank(task) && fails
    ensures SaveOutcome(user, task, fails) == Added <==> user.Some? && !IsBlank(task) && !fails
  {
    TrimEmptyIffBlank(task);
  }

  // ------------------------------------------------------------ the sheet

  class AddSheet {
    var isOpen: bool
    var newTask: string
    var selectedDate: int
    var calendarOpen: bool

    ghost predicate Valid()
      reads this
    {
      InTimeRange(selectedDate)
    }

    /** Closed, empty, dated now. */
    constructor (now: int)
      requires InTimeRange(now)
      ensures Valid()
      ensures !isOpen && newTask == "" && selectedDate == now && !calendarOpen
    {
      isOpen := false;
      newTask := "";
      selectedDate := now;
      calendarOpen := false;
    }

    /** The floating button opens the sheet; the sheet's own close control closes it. */
    method SetOpen(open: bool)
      modifies this
      ensures isOpen == open
      ensures newTask == old(newTask) && selectedDate == old(selectedDate) && calendarOpen == old(calendarOpen)
    {
      isOpen := open;
    }

    /** The date button opens the calendar popover, and the popover's own close control closes it. */
    method SetCalendarOpen(open: bool)
      modifies this
      ensures calendarOpen == open
      ensures isOpen == old(isOpen) && newTask == old(newTask) && selectedDate == old(selectedDate)
    {
      calendarOpen := open;
    }

    /** Typing replaces the text. */
    method EditTask(text: string)
      modifies this
      ensures newTask == text
      ensures isOpen == old(isOpen) && selectedDate == old(selectedDate) && calendarOpen == old(calendarOpen)
    {
      newTask := text;
    }

    /**
     * The calendar's `onSelect`: a given date replaces the selection, no
     * date keeps it; the popover closes either way.
     */
    method SelectCalendarDate(date: Option<int>)
      requires date.Some? ==> InTimeRange(date.value)
      requires Valid()
      modifies this
      ensures Valid()
      ensures !calendarOpen
      ensures selectedDate == if date.Some? then date.value else old(selectedDate)
      ensures isOpen == old(isOpen) && newTask == old(newTask)
    {
      if date.Some? {
        selectedDate := date.value;
      }
      calendarOpen := false;
    }

    /**
     * `handleAddReminder` with the signed-in user's id (if any), the id
     * the table assigns and the clock reading `now`. A missing user is
     * reported before the text is looked at; a blank text is reported
     * next; neither inserts anything. Otherwise the pending row is
     * inserted; on success the text is cleared, the date reset to now, the
     * sheet closed and `onAdded` called (`notified`); on an insert error
     * the form keeps its state.
     */
    method Save(user: Option<string>, id: string, now: int, store: ReminderStore, fails: bool)
      returns (outcome: Outcome, notified: bool)
      requires Valid() && InTimeRange(now)
      modifies this, store
      ensures Valid()
      ensures outcome == SaveOutcome(user, old(newTask), fails)
      ensures notified <==> outcome == Added
      ensures store.rows == if outcome == Added
        then old(store.rows) + [NewReminder(id, user.value, old(newTask), StoredDateAsWritten(old(selectedDate)).value)]
        else old(store.rows)
      ensures outcome == Added ==> newTask == "" && selectedDate == now && !isOpen
      ensures outcome != Added ==> newTask == old(newTask) && selectedDate == old(selectedDate) && isOpen == old(isOpen)
      ensures calendarOpen == old(calendarOpen)
    {
      notified := false;
      if user.None? {
        outcome := NeedLogin;
        return;
      }
      if Trim(newTask) == [] {
        outcome := EmptyTask;
        return;
      }
      var dateStr := StoredDateAsWritten(selectedDate).value;
      outcome, notified := InsertPending(user.value, id, dateStr, now, store, fails);
    }

    /**
     * The part of `handleAddReminder` after both checks: the pending row
     * dated `dateStr` is inserted; on success the form is reset and
     * `onAdded` called.
     */
    method InsertPending(userId: string, id: string, dateStr: string, now: int, store: ReminderStore, fails: bool)
      returns (outcome: Outcome, notified: bool)
      requires Valid() && InTimeRange(now)
      modifies this, store
      ensures Valid()
      ensures outcome == if fails then InsertFailed else Added
      ensures notified <==> outcome == Added
      ensures store.rows == if outcome == Added
        then old(store.rows) + [NewReminder(id, userId, old(newTask), dateStr)]
        else old(store.rows)
      ensures outcome == Added ==> newTask == "" && selectedDate == now && !isOpen
      ensures outcome != Added ==> newTask == old(newTask) && selectedDate == old(selectedDate) && isOpen == old(isOpen)
      ensures calendarOpen == old(calendarOpen)
    {
      var ok := store.Insert(NewReminder(id, userId, newTask, dateStr), fails);
      if !ok {
        outcome, notified := InsertFailed, false;
      } else {
        outcome, notified := Added, true;
        newTask := "";
        selectedDate := now;
        isOpen := false;
      }
    }
  }
}
