/**
 * The home screen's list of today's reminders
 * (`components/home/TodayReminders.tsx`). "Today" is the calendar date in
 * Korea Standard Time (UTC+9), whatever the browser's own time zone; the
 * clock reading is a parameter.
 */
module TodayReminders {
  import opened Options
  import opened Text
  import opened Calendar
  import opened IsoDate
  import opened Seqs
  import opened ReminderModel

  /** Nine hours in milliseconds: KST is UTC+9 all year. */
  const KstOffsetMs: int := 9 * 60 * 60 * 1000

  /**
   * `getKSTDate()` at instant `now`: the `toISOString` date of `now` shifted
   * by nine hours; `None` where the shifted instant is beyond the range of
   * a JavaScript `Date` and `toISOString` throws.
   */
  function KstDate(now: int): Option<string> {
    IsoDateString(now + KstOffsetMs)
  }

  /** The calendar day in Korea at instant `now`. */
  function KstDay(now: int): (d: Date)
    ensures ValidDate(d)
  {
    UtcDate(now + KstOffsetMs)
  }

  /**
   * `getKSTDate` gives the ten-character `YYYY-MM-DD` form of the Korean
   * calendar day, and reading it back gives that day.
   */
  lemma KstDateIsKoreanDay(now: int)
    requires InTimeRange(now + KstOffsetMs)
    requires 0 <= KstDay(now).year <= 9999
    ensures KstDate(now).Some?
    ensures |KstDate(now).value| == 10
    ensures ParseYmd(KstDate(now).value) == Some(KstDay(now))
    ensures KstDay(now).year >= 1 ==> KstDate(now).value == FormatYmd(KstDay(now))
  {
    IsoDateStringIsDatePart(now + KstOffsetMs);
    IsoDatePartRoundTrip(KstDay(now));
    if KstDay(now).year >= 1 {
      FormatYmdIsIsoDatePart(KstDay(now));
    }
  }

  /** 2024-01-31T15:00:00Z is midnight of 1 February in Korea; a millisecond earlier it is still 31 January. */
  lemma KstDayExample()
    ensures KstDay(1706713200000) == Date(2024, 2, 1)
    ensures KstDay(1706713199999) == Date(2024, 1, 31)
  {
    assert DayNumber(Date(2024, 2, 1)) == 19754;
    UtcDateUnique(1706713200000 + KstOffsetMs, Date(2024, 2, 1));
    assert DayNumber(Date(2024, 1, 31)) == 19753;
    UtcDateUnique(1706713199999 + KstOffsetMs, Date(2024, 1, 31));
  }

  /** What the "오늘 할일" section shows. */
  datatype TodayView = LoadingNote | EmptyNote | Items(items: seq<Reminder>)

  /** Loading wins, then the empty note "오늘 할일이 없어요", then the list. */
  function TodaySection(loading: bool, active: seq<Reminder>): (v: TodayView)
    ensures v == LoadingNote <==> loading
    ensures v == EmptyNote <==> !loading && active == []
    ensures v.Items? ==> v.items == active && active != []
  {
    if loading then LoadingNote else if |active| == 0 then EmptyNote else Items(active)
  }

  class TodayList {
    var todayReminders: seq<Reminder>
    var doneReminders: seq<Reminder>
    var loading: bool

    constructor ()
      ensures todayReminders == [] && doneReminders == [] && !loading
    {
      todayReminders := [];
      doneReminders := [];
      loading := false;
    }

    /** The active list agrees with the table's active rows of `day`. */
    ghost predicate ActiveInSync(store: ReminderStore, day: string)
      reads this, store
    {
      todayReminders == ActiveOf(store.SelectDay(day))
    }

    /**
     * `fetchReminders()` at instant `now`: raises `loading`, then splits
     * the Korean day's rows into active and done. On an error it returns
     * early: both lists keep their old contents and `loading` stays raised.
     */
    method FetchReminders(now: int, store: ReminderStore, fails: bool)
      requires InTimeRange(now + KstOffsetMs)
      modifies this
      ensures fails ==> loading && todayReminders == old(todayReminders) && doneReminders == old(doneReminders)
      ensures !fails ==> (!loading
        && todayReminders == ActiveOf(store.SelectDay(KstDate(now).value))
        && doneReminders == DoneOf(store.SelectDay(KstDate(now).value)))
    {
      loading := true;
      var today := KstDate(now).value;
      if fails {
        return;
      }
      var data := store.SelectDay(today);
      todayReminders := ActiveOf(data);
      doneReminders := DoneOf(data);
      loading := false;
    }

    /**
     * `handleToggleDone`: writes 'done' or 'pending' to the row with `id`.
     * On success the active list drops `id` at once when it was marked
     * done, and is left as it is when it was marked pending; a fetch
     * follows. If the list was in sync with the table for `day`, marking
     * done keeps it in sync without waiting for that fetch.
     */
    method ToggleDone(id: string, isDone: bool, store: ReminderStore, fails: bool, ghost day: string)
      returns (refetch: bool)
      modifies this, store
      ensures refetch == !fails
      ensures store.rows == if fails then old(store.rows) else WithStatus(old(store.rows), id, StatusFor(isDone))
      ensures todayReminders == if !fails && isDone then WithoutId(old(todayReminders), id) else old(todayReminders)
      ensures doneReminders == old(doneReminders) && loading == old(loading)
      ensures old(ActiveInSync(store, day)) && !fails && isDone ==> ActiveInSync(store, day)
    {
      var ok := store.UpdateStatus(id, StatusFor(isDone), fails);
      if ok {
        if isDone {
          MarkDoneLeavesActive(old(store.rows), id, day);
          todayReminders := WithoutId(todayReminders, id);
        }
      }
      refetch := ok;
    }

    /** `handleDeleteDone`: deletes the row with `id`; a fetch follows whatever the outcome. */
    method DeleteDone(id: string, store: ReminderStore, fails: bool) returns (refetch: bool)
      modifies store
      ensures refetch
      ensures store.rows == if fails then old(store.rows) else WithoutId(old(store.rows), id)
    {
      var _ := store.DeleteById(id, fails);
      refetch := true;
    }

    /**
     * `handleDeleteAllDone` at instant `now`: deletes the done rows dated
     * today in Korea; a fetch follows whatever the outcome.
     */
    method DeleteAllDone(now: int, store: ReminderStore, fails: bool) returns (refetch: bool)
      requires InTimeRange(now + KstOffsetMs)
      modifies store
      ensures refetch
      ensures store.rows == if fails then old(store.rows) else WithoutDoneOn(old(store.rows), KstDate(now).value)
    {
      var today := KstDate(now).value;
      var _ := store.DeleteDoneOn(today, fails);
      refetch := true;
    }
  }
}
