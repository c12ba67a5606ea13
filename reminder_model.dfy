/**
 * The `reminders` table as both reminder views see it: the record, the two
 * status values, the active/done split of one day's list, the row filters
 * the views send to the backend, and an in-memory stand-in for the table.
 */
module ReminderModel {
  import opened Seqs

  /** One row of `reminders`; `date` is the `YYYY-MM-DD` text the backend returns. */
  datatype Reminder = Reminder(
    id: string,
    userId: string,
    date: string,
    content: string,
    status: string,
    isImportant: bool)

  const Done: string := "done"
  const Pending: string := "pending"

  /** `isDone ? 'done' : 'pending'`: the only two statuses a toggle writes. */
  function StatusFor(isDone: bool): (s: string)
    ensures s == Done || s == Pending
    ensures s == Done <==> isDone
  {
    if isDone then Done else Pending
  }

  predicate IsDone(r: Reminder) {
    r.status == Done
  }

  predicate IsActive(r: Reminder) {
    r.status != Done
  }

  /** `data.filter(r => r.status !== 'done')`. */
  function ActiveOf(rs: seq<Reminder>): seq<Reminder> {
    Filter(rs, IsActive)
  }

  /** `data.filter(r => r.status === 'done')`. */
  function DoneOf(rs: seq<Reminder>): seq<Reminder> {
    Filter(rs, IsDone)
  }

  /** Both views render the done section, with its delete-all icon, only for a non-empty done list. */
  function ShowDoneSection(done: seq<Reminder>): (b: bool)
    ensures b <==> done != []
  {
    |done| > 0
  }

  /**
   * The split is complementary: active entries are exactly those not done,
   * done entries exactly those done, and together they hold the whole list.
   */
  lemma PartitionComplete(rs: seq<Reminder>)
    ensures |ActiveOf(rs)| + |DoneOf(rs)| == |rs|
    ensures multiset(ActiveOf(rs)) + multiset(DoneOf(rs)) == multiset(rs)
    ensures forall i :: 0 <= i < |ActiveOf(rs)| ==> ActiveOf(rs)[i].status != Done
    ensures forall i :: 0 <= i < |DoneOf(rs)| ==> DoneOf(rs)[i].status == Done
  {
    FilterComplement(rs, IsActive, IsDone);
  }

  /** The split is stable: each list keeps the input order (it distributes over concatenation). */
  lemma PartitionStable(a: seq<Reminder>, b: seq<Reminder>)
    ensures ActiveOf(a + b) == ActiveOf(a) + ActiveOf(b)
    ensures DoneOf(a + b) == DoneOf(a) + DoneOf(b)
  {
    FilterAppend(a, b, IsActive);
    FilterAppend(a, b, IsDone);
  }

  /** Statuses pending, done, pending, done split into items 1, 3 and items 2, 4. */
  lemma PartitionExample(r1: Reminder, r2: Reminder, r3: Reminder, r4: Reminder)
    requires r1.status == Pending && r2.status == Done && r3.status == Pending && r4.status == Done
    ensures ActiveOf([r1, r2, r3, r4]) == [r1, r3]
    ensures DoneOf([r1, r2, r3, r4]) == [r2, r4]
  {
    ExampleActive(r1, r2, r3, r4);
    ExampleDone(r1, r2, r3, r4);
  }

  lemma ExampleActive(r1: Reminder, r2: Reminder, r3: Reminder, r4: Reminder)
    requires IsActive(r1) && !IsActive(r2) && IsActive(r3) && !IsActive(r4)
    ensures ActiveOf([r1, r2, r3, r4]) == [r1, r3]
  {
    assert [r4] == [r4] + [];
    assert [r3, r4] == [r3] + [r4];
    assert [r2, r3, r4] == [r2] + [r3, r4];
    assert [r1, r2, r3, r4] == [r1] + [r2, r3, r4];
    FilterCons(r4, [], IsActive);
    FilterCons(r3, [r4], IsActive);
    FilterCons(r2, [r3, r4], IsActive);
    FilterCons(r1, [r2, r3, r4], IsActive);
  }

  lemma ExampleDone(r1: Reminder, r2: Reminder, r3: Reminder, r4: Reminder)
    requires !IsDone(r1) && IsDone(r2) && !IsDone(r3) && IsDone(r4)
    ensures DoneOf([r1, r2, r3, r4]) == [r2, r4]
  {
    assert [r4] == [r4] + [];
    assert [r3, r4] == [r3] + [r4];
    assert [r2, r3, r4] == [r2] + [r3, r4];
    assert [r1, r2, r3, r4] == [r1] + [r2, r3, r4];
    FilterCons(r4, [], IsDone);
    FilterCons(r3, [r4], IsDone);
    FilterCons(r2, [r3, r4], IsDone);
    FilterCons(r1, [r2, r3, r4], IsDone);
  }

  // ------------------------------------------------------------ row filters

  /** `.eq('date', date)`: one day's rows, in table order. */
  function OnDate(rs: seq<Reminder>, date: string): seq<Reminder> {
    Filter(rs, (r: Reminder) => r.date == date)
  }

  /** `.filter(r => r.id !== id)`. */
  function WithoutId(rs: seq<Reminder>, id: string): seq<Reminder> {
    Filter(rs, (r: Reminder) => r.id != id)
  }

  /** What is left after `.delete().eq('status', 'done').eq('date', date)`. */
  function WithoutDoneOn(rs: seq<Reminder>, date: string): seq<Reminder> {
    Filter(rs, (r: Reminder) => !(r.status == Done && r.date == date))
  }

  /** The rows after `.update({ status }).eq('id', id)`. */
  function WithStatus(rs: seq<Reminder>, id: string, status: string): (r: seq<Reminder>)
    ensures |r| == |rs|
    ensures forall i :: 0 <= i < |rs| ==>
      r[i] == if rs[i].id == id then rs[i].(status := status) else rs[i]
  {
    seq(|rs|, i requires 0 <= i < |rs| => if rs[i].id == id then rs[i].(status := status) else rs[i])
  }

  /**
   * The bulk delete removes exactly the done rows of `date`: that day keeps
   * its active list and loses its done list, and every other day is untouched.
   */
  lemma {:induction false} DeleteDoneOnEffect(rs: seq<Reminder>, date: string, other: string)
    requires other != date
    ensures ActiveOf(OnDate(WithoutDoneOn(rs, date), date)) == ActiveOf(OnDate(rs, date))
    ensures DoneOf(OnDate(WithoutDoneOn(rs, date), date)) == []
    ensures OnDate(WithoutDoneOn(rs, date), other) == OnDate(rs, other)
  {
    if rs != [] {
      var x, t := rs[0], rs[1..];
      assert rs == [x] + t;
      DeleteDoneOnEffect(t, date, other);
      FilterCons(x, t, (r: Reminder) => !(r.status == Done && r.date == date));
      var kept := if !(x.status == Done && x.date == date) then [x] else [];
      var wt := WithoutDoneOn(t, date);
      assert WithoutDoneOn(rs, date) == kept + wt;
      FilterAppend(kept, wt, (r: Reminder) => r.date == date);
      FilterAppend(kept, wt, (r: Reminder) => r.date == other);
      FilterAppend(rs[..1], t, (r: Reminder) => r.date == date);
      assert rs[..1] == [x];
      var ok := OnDate(kept, date);
      var ot := OnDate(wt, date);
      assert OnDate(WithoutDoneOn(rs, date), date) == ok + ot;
      FilterAppend(ok, ot, IsActive);
      FilterAppend(ok, ot, IsDone);
      var ox := OnDate([x], date);
      FilterAppend(ox, OnDate(t, date), IsActive);
      FilterCons(x, [], (r: Reminder) => r.date == date);
      FilterCons(x, [], (r: Reminder) => r.date == other);
      FilterCons(x, [], IsActive);
      FilterCons(x, [], IsDone);
      assert [x] + [] == [x];
    }
  }

  /**
   * Marking a row done and reading the day back gives the old active list
   * with that id removed: the optimistic update of the home list agrees
   * with what the next fetch returns.
   */
  lemma {:induction false} MarkDoneLeavesActive(rs: seq<Reminder>, id: string, date: string)
    ensures ActiveOf(OnDate(WithStatus(rs, id, StatusFor(true)), date))
         == WithoutId(ActiveOf(OnDate(rs, date)), id)
  {
    if rs != [] {
      var x, t := rs[0], rs[1..];
      assert rs == [x] + t;
      MarkDoneLeavesActive(t, id, date);
      assert WithStatus(rs, id, Done) == WithStatus([x], id, Done) + WithStatus(t, id, Done);
      DayActiveAppend(WithStatus([x], id, Done), WithStatus(t, id, Done), date);
      DayActiveAppend([x], t, date);
      FilterAppend(ActiveOf(OnDate([x], date)), ActiveOf(OnDate(t, date)), (r: Reminder) => r.id != id);
      MarkDoneOne(x, id, date);
    }
  }

  /** The active list of one day distributes over concatenation of the rows. */
  lemma DayActiveAppend(a: seq<Reminder>, b: seq<Reminder>, date: string)
    ensures ActiveOf(OnDate(a + b, date)) == ActiveOf(OnDate(a, date)) + ActiveOf(OnDate(b, date))
  {
    FilterAppend(a, b, (r: Reminder) => r.date == date);
    FilterAppend(OnDate(a, date), OnDate(b, date), IsActive);
  }

  /** The single-row case of `MarkDoneLeavesActive`. */
  lemma MarkDoneOne(x: Reminder, id: string, date: string)
    ensures ActiveOf(OnDate(WithStatus([x], id, Done), date)) == WithoutId(ActiveOf(OnDate([x], date)), id)
  {
    var x' := if x.id == id then x.(status := Done) else x;
    assert WithStatus([x], id, Done) == [x'];
    assert [x] == [x] + [] && [x'] == [x'] + [];
    FilterCons(x', [], (r: Reminder) => r.date == date);
    FilterCons(x, [], (r: Reminder) => r.date == date);
    FilterCons(x', [], IsActive);
    FilterCons(x, [], IsActive);
    FilterCons(x, [], (r: Reminder) => r.id != id);
  }

  // ------------------------------------------------------------ the table

  /**
   * An in-memory stand-in for the `reminders` table. Rows are kept in
   * insertion order, which is `created_at` ascending. Each operation takes
   * whether the backend reports an error; on an error nothing changes.
   */
  class ReminderStore {
    var rows: seq<Reminder>

    constructor (initial: seq<Reminder>)
      ensures rows == initial
    {
      rows := initial;
    }

    /** `.select('*').eq('date', date).order('created_at', { ascending: true })`. */
    function SelectDay(date: string): seq<Reminder>
      reads this
    {
      OnDate(rows, date)
    }

    method Insert(r: Reminder, fails: bool) returns (ok: bool)
      modifies this
      ensures ok == !fails
      ensures rows == if ok then old(rows) + [r] else old(rows)
    {
      ok := !fails;
      if ok {
        rows := rows + [r];
      }
    }

    method UpdateStatus(id: string, status: string, fails: bool) returns (ok: bool)
      modifies this
      ensures ok == !fails
      ensures rows == if ok then WithStatus(old(rows), id, status) else old(rows)
    {
      ok := !fails;
      if ok {
        rows := WithStatus(rows, id, status);
      }
    }

    method DeleteById(id: string, fails: bool) returns (ok: bool)
      modifies this
      ensures ok == !fails
      ensures rows == if ok then WithoutId(old(rows), id) else old(rows)
    {
      ok := !fails;
      if ok {
        rows := WithoutId(rows, id);
      }
    }

    method DeleteDoneOn(date: string, fails: bool) returns (ok: bool)
      modifies this
      ensures ok == !fails
      ensures rows == if ok then WithoutDoneOn(old(rows), date) else old(rows)
    {
      ok := !fails;
      if ok {
        rows := WithoutDoneOn(rows, date);
      }
    }
  }
}
