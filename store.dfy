/** The ledger database: the four per-user tables and the statements that
    write them. task_log, expense_log and weekly_reports only ever grow;
    daily_log keeps one row per (day, user) by deleting before it inserts. */
module Store {
  import opened Config
  import opened Tables

  /** At most one daily_log row per (day, user). */
  ghost predicate OneStatusPerDay(rows: seq<Status>) {
    forall i, j :: 0 <= i < j < |rows| ==> !(rows[i].date == rows[j].date && rows[i].user == rows[j].user)
  }

  /** DELETE FROM daily_log WHERE date = d AND user_id = u: the other rows, in order. */
  function DropDay(rows: seq<Status>, d: int, u: UserId): (r: seq<Status>)
    ensures forall s :: s in r <==> s in rows && !(s.date == d && s.user == u)
    ensures OneStatusPerDay(rows) ==> OneStatusPerDay(r)
    decreases |rows|
  {
    if rows == [] then []
    else
      var init, last := rows[..|rows| - 1], rows[|rows| - 1];
      var kept := DropDay(init, d, u);
      assert OneStatusPerDay(rows) ==>
        forall k :: 0 <= k < |kept| ==> !(kept[k].date == last.date && kept[k].user == last.user) by {
        if OneStatusPerDay(rows) {
          forall k | 0 <= k < |kept| ensures !(kept[k].date == last.date && kept[k].user == last.user) {
            assert kept[k] in init;
            var i :| 0 <= i < |init| && init[i] == kept[k];
          }
        }
      }
      if last.date == d && last.user == u then kept else kept + [last]
  }

  /** The daily_log rows of day d for user u; the program never reads them
      back, and this helper states what SaveStatus leaves behind. */
  function StatusOn(rows: seq<Status>, d: int, u: UserId): (r: seq<Status>)
    ensures forall s :: s in r <==> s in rows && s.date == d && s.user == u
    decreases |rows|
  {
    if rows == [] then []
    else
      var init, last := rows[..|rows| - 1], rows[|rows| - 1];
      var found := StatusOn(init, d, u);
      if last.date == d && last.user == u then found + [last] else found
  }

  /** After the day's rows are dropped, none is left for that day. */
  lemma {:induction false} StatusOnDropped(rows: seq<Status>, d: int, u: UserId)
    ensures StatusOn(DropDay(rows, d, u), d, u) == []
    ensures DropDay(DropDay(rows, d, u), d, u) == DropDay(rows, d, u)
    decreases |rows|
  {
    if rows != [] {
      var init, last := rows[..|rows| - 1], rows[|rows| - 1];
      var kept := DropDay(init, d, u);
      StatusOnDropped(init, d, u);
      if !(last.date == d && last.user == u) {
        assert (kept + [last])[..|kept|] == kept;
      }
    }
  }

  /** A row whose (day, user) is new keeps the table at one row per day. */
  lemma AppendNewDay(rows: seq<Status>, s: Status)
    requires OneStatusPerDay(rows)
    requires forall x :: x in rows ==> !(x.date == s.date && x.user == s.user)
    ensures OneStatusPerDay(rows + [s])
  {
    forall i, j | 0 <= i < j < |rows| + 1
      ensures !((rows + [s])[i].date == (rows + [s])[j].date && (rows + [s])[i].user == (rows + [s])[j].user)
    {
      if j == |rows| {
        assert rows[i] in rows;
      }
    }
  }

  /** Appending a row for (d, u) makes it the only one of that day. */
  lemma {:induction false} StatusOnAppend(rows: seq<Status>, s: Status)
    ensures StatusOn(rows + [s], s.date, s.user) == StatusOn(rows, s.date, s.user) + [s]
    ensures DropDay(rows + [s], s.date, s.user) == DropDay(rows, s.date, s.user)
  {
    assert (rows + [s])[..|rows|] == rows;
  }

  class Database {
    var dailyLog: seq<Status>
    var taskLog: seq<Row<Task>>
    var expenseLog: seq<Row<Expense>>
    var weeklyReports: seq<Row<Report>>

    /** One status row per (day, user), and the three AUTOINCREMENT tables
        numbered in insertion order. */
    ghost predicate Valid()
      reads this
    {
      && OneStatusPerDay(dailyLog)
      && Numbered(taskLog) && Numbered(expenseLog) && Numbered(weeklyReports)
    }

    /** init_db on a fresh database file: four empty tables. */
    constructor ()
      ensures Valid()
      ensures dailyLog == [] && taskLog == [] && expenseLog == [] && weeklyReports == []
    {
      dailyLog, taskLog, expenseLog, weeklyReports := [], [], [], [];
    }

    /** save_status: replaces today's row for the user with the new scores. */
    method SaveStatus(scores: Scores, u: UserId, now: int)
      requires Valid()
      modifies this`dailyLog
      ensures Valid()
      ensures dailyLog == DropDay(old(dailyLog), Day(now), u) + [Status(Day(now), scores, u)]
      ensures StatusOn(dailyLog, Day(now), u) == [Status(Day(now), scores, u)]
      ensures DropDay(dailyLog, Day(now), u) == DropDay(old(dailyLog), Day(now), u)
    {
      var today := Day(now);
      var row := Status(today, scores, u);
      var kept := DropDay(dailyLog, today, u);
      StatusOnDropped(dailyLog, today, u);
      StatusOnAppend(kept, row);
      AppendNewDay(kept, row);
      dailyLog := kept + [row];
    }

    /** save_task: appends one completed session, stamped with the end time `now`. */
    method SaveTask(start: int, theme: string, task: string, duration: int, ipo: Stage,
                    scores: Scores, u: UserId, now: int)
      requires Valid()
      modifies this`taskLog
      ensures Valid()
      ensures taskLog == old(taskLog) + [Row(|old(taskLog)| + 1, u, Task(start, now, theme, task, duration, ipo, scores))]
    {
      taskLog := taskLog + [Row(|taskLog| + 1, u, Task(start, now, theme, task, duration, ipo, scores))];
    }

    /** buy_item: appends one purchase; it does not look at the balance. */
    method BuyItem(name: string, price: int, u: UserId, now: int)
      requires Valid()
      modifies this`expenseLog
      ensures Valid()
      ensures expenseLog == old(expenseLog) + [Row(|old(expenseLog)| + 1, u, Expense(now, name, price))]
    {
      expenseLog := expenseLog + [Row(|expenseLog| + 1, u, Expense(now, name, price))];
    }

    /** save_weekly_report: archives the text with the window [today - 7, today]. */
    method SaveWeeklyReport(content: string, u: UserId, now: int)
      requires Valid()
      modifies this`weeklyReports
      ensures Valid()
      ensures weeklyReports == old(weeklyReports) + [Row(|old(weeklyReports)| + 1, u, Report(Day(now), Day(now - WeekSeconds), Day(now), content))]
      ensures weeklyReports[|weeklyReports| - 1].body.startDate == Day(now) - 7
    {
      weeklyReports := weeklyReports + [Row(|weeklyReports| + 1, u, Report(Day(now), Day(now - WeekSeconds), Day(now), content))];
    }
  }
}
