/** The two emergency access jobs running at the same time, row by row, over the lists they loaded. */
module EmergencyAccessJobs {
  import opened Common
  import opened EmergencyAccess

  /** One row handled by the timeout job or by the reminder job. */
  datatype Turn = TimeoutTurn(row: Row) | ReminderTurn(row: Row)

  /** The turns are those of the two lists, each list in its order. */
  predicate Interleaves(turns: seq<Turn>, timeouts: seq<Row>, reminders: seq<Row>) {
    if turns == [] then timeouts == [] && reminders == []
    else
      var before := turns[..|turns| - 1];
      match turns[|turns| - 1]
      case TimeoutTurn(row) =>
        && timeouts != [] && timeouts[|timeouts| - 1] == row
        && Interleaves(before, timeouts[..|timeouts| - 1], reminders)
      case ReminderTurn(row) =>
        && reminders != [] && reminders[|reminders| - 1] == row
        && Interleaves(before, timeouts, reminders[..|reminders| - 1])
  }

  function RunTurns(t: Table, turns: seq<Turn>, timeoutNow: int, reminderNow: int): Table {
    if turns == [] then t
    else
      var before := RunTurns(t, turns[..|turns| - 1], timeoutNow, reminderNow);
      match turns[|turns| - 1]
      case TimeoutTurn(row) => TimeoutRow(before, row, timeoutNow)
      case ReminderTurn(row) => ReminderRow(before, row, reminderNow)
  }

  /** The status column of one table and the date column of another, over the rows of a third. */
  function Combine(t: Table, statuses: Table, dates: Table): Table
    requires statuses.Keys == t.Keys && dates.Keys == t.Keys
  {
    map id | id in t :: t[id].(status := statuses[id].status, lastNotification := dates[id].lastNotification)
  }

  lemma {:induction false} TimeoutAlone(t: Table, rows: seq<Row>, now: int)
    ensures var r := TimeoutRows(t, rows, now);
            r.Keys == t.Keys && forall id :: id in t ==> r[id] == t[id].(status := r[id].status)
  {
    if rows != [] { TimeoutAlone(t, rows[..|rows| - 1], now); }
  }

  lemma {:induction false} ReminderAlone(t: Table, rows: seq<Row>, now: int)
    ensures var r := ReminderRows(t, rows, now);
            r.Keys == t.Keys && forall id :: id in t ==> r[id] == t[id].(lastNotification := r[id].lastNotification)
  {
    if rows != [] { ReminderAlone(t, rows[..|rows| - 1], now); }
  }

  lemma CombineTimeout(t: Table, statuses: Table, dates: Table, row: Row, now: int)
    requires statuses.Keys == t.Keys && dates.Keys == t.Keys
    ensures TimeoutRow(statuses, row, now).Keys == t.Keys
    ensures TimeoutRow(Combine(t, statuses, dates), row, now) == Combine(t, TimeoutRow(statuses, row, now), dates)
  {
  }

  lemma CombineReminder(t: Table, statuses: Table, dates: Table, row: Row, now: int)
    requires statuses.Keys == t.Keys && dates.Keys == t.Keys
    ensures ReminderRow(dates, row, now).Keys == t.Keys
    ensures ReminderRow(Combine(t, statuses, dates), row, now) == Combine(t, statuses, ReminderRow(dates, row, now))
  {
  }

  lemma {:induction false} NothingIsLostFrom(t: Table, turns: seq<Turn>, timeouts: seq<Row>, reminders: seq<Row>,
                                             timeoutNow: int, reminderNow: int)
    requires Interleaves(turns, timeouts, reminders)
    requires TimeoutRows(t, timeouts, timeoutNow).Keys == t.Keys
    requires ReminderRows(t, reminders, reminderNow).Keys == t.Keys
    ensures RunTurns(t, turns, timeoutNow, reminderNow)
            == Combine(t, TimeoutRows(t, timeouts, timeoutNow), ReminderRows(t, reminders, reminderNow))
  {
    if turns == [] {
      assert Combine(t, t, t) == t;
    } else {
      var before, turn := turns[..|turns| - 1], turns[|turns| - 1];
      match turn
      case TimeoutTurn(row) =>
        var earlier := timeouts[..|timeouts| - 1];
        TimeoutAlone(t, earlier, timeoutNow);
        NothingIsLostFrom(t, before, earlier, reminders, timeoutNow, reminderNow);
        CombineTimeout(t, TimeoutRows(t, earlier, timeoutNow), ReminderRows(t, reminders, reminderNow), row,
                       timeoutNow);
      case ReminderTurn(row) =>
        var earlier := reminders[..|reminders| - 1];
        ReminderAlone(t, earlier, reminderNow);
        NothingIsLostFrom(t, before, timeouts, earlier, timeoutNow, reminderNow);
        CombineReminder(t, TimeoutRows(t, timeouts, timeoutNow), ReminderRows(t, earlier, reminderNow), row,
                        reminderNow);
    }
  }

  /**
   * For every interleaving of the two jobs over any loaded lists: each row ends with the status that the timeout job
   * alone would leave and the notification date that the reminder job alone would leave, and nothing else changes.
   */
  lemma {:induction false} NothingIsLost(t: Table, turns: seq<Turn>, timeouts: seq<Row>, reminders: seq<Row>,
                                         timeoutNow: int, reminderNow: int)
    requires Interleaves(turns, timeouts, reminders)
    ensures var r := RunTurns(t, turns, timeoutNow, reminderNow);
            var a := TimeoutRows(t, timeouts, timeoutNow);
            var b := ReminderRows(t, reminders, reminderNow);
            && r.Keys == a.Keys == b.Keys == t.Keys
            && forall id :: id in t ==>
                 r[id] == t[id].(status := a[id].status, lastNotification := b[id].lastNotification)
  {
    TimeoutAlone(t, timeouts, timeoutNow);
    ReminderAlone(t, reminders, reminderNow);
    NothingIsLostFrom(t, turns, timeouts, reminders, timeoutNow, reminderNow);
  }

  /** Due recoveries are approved and due reminders dated, both by the rows as they were loaded. */
  function BothDone(t: Table, timeoutNow: int, reminderNow: int): Table {
    map id | id in t ::
      t[id].(status := AllTimedOut(t, timeoutNow)[id].status,
             lastNotification := AllReminded(t, reminderNow)[id].lastNotification)
  }

  /**
   * For every interleaving of the two jobs over lists loaded from the same table, in whatever order: exactly the
   * recoveries under way whose waiting time is over are approved, and exactly those with a reminder due are dated.
   */
  lemma {:induction false} BothJobsAreDone(t: Table, turns: seq<Turn>, timeouts: seq<Row>, reminders: seq<Row>,
                                           timeoutNow: int, reminderNow: int)
    requires Interleaves(turns, timeouts, reminders) && IsLoadOf(timeouts, t) && IsLoadOf(reminders, t)
    ensures RunTurns(t, turns, timeoutNow, reminderNow) == BothDone(t, timeoutNow, reminderNow)
  {
    TimeoutRowsOfLoad(t, timeouts, timeoutNow);
    ReminderRowsOfLoad(t, reminders, reminderNow);
    NothingIsLost(t, turns, timeouts, reminders, timeoutNow, reminderNow);
  }

  // ----- Why the jobs do not save whole records

  function SaveApproved(t: Table, row: Row): Table {
    t[row.0 := row.1.(status := RecoveryApproved)]
  }

  function SaveReminded(t: Table, row: Row, now: int): Table {
    t[row.0 := row.1.(lastNotification := Some(now))]
  }

  /** Saving whole loaded records instead loses an update in either order of the two writes. */
  lemma WholeRecordSavesLose(row: Row, now: int)
    requires Recovering(row.1) && row.1.lastNotification != Some(now)
    ensures var t := map[row.0 := row.1];
            && !SaveReminded(SaveApproved(t, row), row, now)[row.0].status.RecoveryApproved?
            && SaveApproved(SaveReminded(t, row, now), row)[row.0].lastNotification != Some(now)
  {
  }
}
