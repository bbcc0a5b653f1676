/** The figures the dashboard derives from the ledger on every read: the
    coin balance, the per-domain level and progress, the recent-task journal
    with today's focus minutes, the trailing week, and the report archive.
    Each is a function of the tables alone, so reading twice with no write
    in between gives the same answer. */
module Progress {
  import opened Config
  import opened Tables
  import opened Store

  // ---------------------------------------------------------------------
  // Balance (get_finance_status)
  // ---------------------------------------------------------------------

  /** Minutes focused, coins spent, and what is left. */
  datatype Finance = Finance(income: int, spent: int, balance: int)

  /** The user's income is the sum of their sessions' minutes, the spend the
      sum of their purchases' costs (either 0 when there are no rows). */
  function FinanceStatus(tasks: seq<Row<Task>>, expenses: seq<Row<Expense>>, u: UserId): (f: Finance)
    ensures f.balance == f.income - f.spent
  {
    var inc := TotalMinutes(OfUser(tasks, u));
    var exp := TotalCost(OfUser(expenses, u));
    Finance(inc, exp, inc - exp)
  }

  /** The balance the shop and the HUD read; every other member uses this
      name for it. */
  function Balance(tasks: seq<Row<Task>>, expenses: seq<Row<Expense>>, u: UserId): (b: int) {
    FinanceStatus(tasks, expenses, u).balance
  }

  /** An empty ledger: no income, no spend, every domain at 0. */
  lemma EmptyLedger(u: UserId, k: string)
    ensures FinanceStatus([], [], u) == Finance(0, 0, 0)
    ensures ThemeTotal([], u, k) == 0
  {
  }

  /** A new session credits its minutes to its owner and to nobody else. */
  lemma {:induction false} FinanceAfterTask(tasks: seq<Row<Task>>, expenses: seq<Row<Expense>>, row: Row<Task>, u: UserId)
    ensures var before, after := FinanceStatus(tasks, expenses, u), FinanceStatus(tasks + [row], expenses, u);
      if row.user == u
      then after == Finance(before.income + row.body.durationMin, before.spent, before.balance + row.body.durationMin)
      else after == before
  {
    FilterAppend(tasks, row, OwnedBy(u));
    assert OfUser(tasks + [row], u) == OfUser(tasks, u) + (if row.user == u then [row] else []);
    if row.user == u {
      TotalMinutesAppend(OfUser(tasks, u), row);
    } else {
      assert OfUser(tasks, u) + [] == OfUser(tasks, u);
    }
  }

  /** A new purchase debits its cost from its owner and from nobody else. */
  lemma {:induction false} FinanceAfterExpense(tasks: seq<Row<Task>>, expenses: seq<Row<Expense>>, row: Row<Expense>, u: UserId)
    ensures var before, after := FinanceStatus(tasks, expenses, u), FinanceStatus(tasks, expenses + [row], u);
      if row.user == u
      then after == Finance(before.income, before.spent + row.body.cost, before.balance - row.body.cost)
      else after == before
  {
    FilterAppend(expenses, row, OwnedBy(u));
    assert OfUser(expenses + [row], u) == OfUser(expenses, u) + (if row.user == u then [row] else []);
    if row.user == u {
      TotalCostAppend(OfUser(expenses, u), row);
    } else {
      assert OfUser(expenses, u) + [] == OfUser(expenses, u);
    }
  }

  /** A purchase the balance covers leaves the balance short by exactly the
      price and never below zero. */
  lemma GatedPurchase(tasks: seq<Row<Task>>, expenses: seq<Row<Expense>>, row: Row<Expense>)
    requires Balance(tasks, expenses, row.user) >= row.body.cost
    ensures Balance(tasks, expenses + [row], row.user) == Balance(tasks, expenses, row.user) - row.body.cost
    ensures Balance(tasks, expenses + [row], row.user) >= 0
  {
    FinanceAfterExpense(tasks, expenses, row, row.user);
  }

  // ---------------------------------------------------------------------
  // Domain levels (get_theme_stats)
  // ---------------------------------------------------------------------

  /** One domain card: level, percent of the way to the next level, minutes. */
  datatype ThemeStat = ThemeStat(lvl: int, prog: real, total: int)

  /** The card for a total: lvl = int(total / 60), prog = (total % 60) / 60 * 100. */
  function StatOf(total: int): (s: ThemeStat)
    ensures s.total == total
    ensures 0.0 <= s.prog < 100.0
    ensures total >= 0 ==> 0 <= s.lvl && s.lvl * MinutesPerLevel <= total < (s.lvl + 1) * MinutesPerLevel
    ensures total >= 0 ==> (s.lvl * MinutesPerLevel) as real + s.prog * 0.6 == total as real
    ensures -MinutesPerLevel < total < MinutesPerLevel ==> s.lvl == 0
  {
    ThemeStat(Div60(total), ((total % 60) as real) / 60.0 * 100.0, total)
  }

  /** Every further sixty minutes in a domain is one more level, with the
      progress bar where it was. */
  lemma LevelUpEveryHour(total: int, hours: nat)
    requires total >= 0
    ensures StatOf(total + hours * MinutesPerLevel).lvl == StatOf(total).lvl + hours
    ensures StatOf(total + hours * MinutesPerLevel).prog == StatOf(total).prog
  {
    var before, after := StatOf(total), StatOf(total + hours * MinutesPerLevel);
    assert (before.lvl + hours) * MinutesPerLevel <= total + hours * MinutesPerLevel < (before.lvl + hours + 1) * MinutesPerLevel;
    assert (total + hours * MinutesPerLevel) % 60 == total % 60;
  }

  /** The clause theme = k. */
  function InTheme(k: string): Row<Task> -> bool {
    (x: Row<Task>) => x.body.theme == k
  }

  /** The rows of one domain. */
  function OfTheme(tasks: seq<Row<Task>>, k: string): (r: seq<Row<Task>>) {
    Filter(tasks, InTheme(k))
  }

  /** SUM(duration_min) of the user's rows with theme k (0 when there are
      none); one domain never holds more than the user's income. */
  function ThemeTotal(tasks: seq<Row<Task>>, u: UserId, k: string): (total: int)
    ensures NoNegativeDurations(tasks) ==> 0 <= total <= TotalMinutes(OfUser(tasks, u))
  {
    var mine := OfUser(tasks, u);
    FilteredMinutesBounded(mine, InTheme(k));
    TotalMinutes(OfTheme(mine, k))
  }

  /** One entry for each of the six configured domains and no other key. */
  function ThemeStats(tasks: seq<Row<Task>>, u: UserId): (stats: map<string, ThemeStat>)
    ensures stats.Keys == set i | 0 <= i < |Themes()| :: Themes()[i].name
    ensures |stats| == 6
    ensures forall k :: k in stats ==> stats[k] == StatOf(ThemeTotal(tasks, u, k))
  {
    var keys := ThemeKeys();
    var stats := map k | k in keys :: StatOf(ThemeTotal(tasks, u, k));
    assert stats.Keys == set i | 0 <= i < |Themes()| :: Themes()[i].name by {
      forall k | k in stats.Keys ensures k in set i | 0 <= i < |Themes()| :: Themes()[i].name {
        var i :| 0 <= i < |keys| && keys[i] == k;
      }
    }
    assert stats.Keys == set k | k in keys;
    DistinctKeysCount(keys);
    stats
  }

  lemma {:induction false} DistinctKeysCount(keys: seq<string>)
    requires forall i, j :: 0 <= i < j < |keys| ==> keys[i] != keys[j]
    ensures |set k | k in keys| == |keys|
    decreases |keys|
  {
    if keys != [] {
      var rest := keys[1..];
      DistinctKeysCount(rest);
      assert (set k | k in keys) == {keys[0]} + (set k | k in rest);
      assert keys[0] !in rest;
    }
  }

  /** A new session adds its minutes to its own domain's total only. */
  lemma {:induction false} ThemeTotalAfterTask(tasks: seq<Row<Task>>, row: Row<Task>, u: UserId, k: string)
    ensures ThemeTotal(tasks + [row], u, k)
         == ThemeTotal(tasks, u, k) + (if row.user == u && row.body.theme == k then row.body.durationMin else 0)
  {
    FilterAppend(tasks, row, OwnedBy(u));
    if row.user == u {
      FilterAppend(OfUser(tasks, u), row, InTheme(k));
      if row.body.theme == k {
        TotalMinutesAppend(OfTheme(OfUser(tasks, u), k), row);
      }
    }
  }

  /** A domain the user never focused on has total 0, level 0 and no progress. */
  lemma UntouchedDomain(tasks: seq<Row<Task>>, u: UserId, k: string)
    requires forall x :: x in tasks && x.user == u ==> x.body.theme != k
    ensures ThemeTotal(tasks, u, k) == 0
    ensures StatOf(ThemeTotal(tasks, u, k)) == ThemeStat(0, 0.0, 0)
  {
    FilterNone(OfUser(tasks, u), InTheme(k));
  }

  /** The sum of the domain totals over a list of keys. */
  function KeysTotal(keys: seq<string>, tasks: seq<Row<Task>>): (total: int)
    decreases |keys|
  {
    if keys == [] then 0 else TotalMinutes(OfTheme(tasks, keys[0])) + KeysTotal(keys[1..], tasks)
  }

  lemma {:induction false} KeysTotalAppend(keys: seq<string>, tasks: seq<Row<Task>>, row: Row<Task>)
    requires forall i, j :: 0 <= i < j < |keys| ==> keys[i] != keys[j]
    ensures KeysTotal(keys, tasks + [row])
         == KeysTotal(keys, tasks) + (if row.body.theme in keys then row.body.durationMin else 0)
    decreases |keys|
  {
    if keys != [] {
      var rest := keys[1..];
      assert forall i, j :: 0 <= i < j < |rest| ==> rest[i] != rest[j] by {
        forall i, j | 0 <= i < j < |rest| ensures rest[i] != rest[j] {
          assert rest[i] == keys[i + 1] && rest[j] == keys[j + 1];
        }
      }
      KeysTotalAppend(rest, tasks, row);
      FilterAppend(tasks, row, InTheme(keys[0]));
      if row.body.theme == keys[0] {
        TotalMinutesAppend(OfTheme(tasks, keys[0]), row);
        assert keys[0] !in rest;
      }
      assert row.body.theme in keys <==> row.body.theme == keys[0] || row.body.theme in rest;
    }
  }

  /** The clause "theme is one of `keys`". */
  function InKeys(keys: seq<string>): Row<Task> -> bool {
    (x: Row<Task>) => x.body.theme in keys
  }

  /** Every minute filed under one of a list of distinct keys counts toward
      exactly one key's total; minutes under any other theme count toward none. */
  lemma {:induction false} KeysTotalPartitionsMinutes(keys: seq<string>, tasks: seq<Row<Task>>)
    requires forall i, j :: 0 <= i < j < |keys| ==> keys[i] != keys[j]
    ensures KeysTotal(keys, tasks) == TotalMinutes(Filter(tasks, InKeys(keys)))
    decreases |tasks|
  {
    if tasks == [] {
      ZeroKeysTotal(keys);
    } else {
      var init, last := tasks[..|tasks| - 1], tasks[|tasks| - 1];
      assert init + [last] == tasks;
      var known := Filter(init, InKeys(keys));
      KeysTotalPartitionsMinutes(keys, init);
      KeysTotalAppend(keys, init, last);
      FilterAppend(init, last, InKeys(keys));
      if last.body.theme in keys {
        assert Filter(tasks, InKeys(keys)) == known + [last];
        TotalMinutesAppend(known, last);
      } else {
        assert Filter(tasks, InKeys(keys)) == known;
      }
    }
  }

  lemma {:induction false} ZeroKeysTotal(keys: seq<string>)
    ensures KeysTotal(keys, []) == 0
    decreases |keys|
  {
    if keys != [] {
      ZeroKeysTotal(keys[1..]);
    }
  }

  /** The six domain totals add up to at most the income, and to exactly the
      income when every session was filed under a configured domain. */
  lemma DomainTotalsWithinIncome(tasks: seq<Row<Task>>, expenses: seq<Row<Expense>>, u: UserId)
    requires NoNegativeDurations(tasks)
    ensures KeysTotal(ThemeKeys(), OfUser(tasks, u)) <= FinanceStatus(tasks, expenses, u).income
    ensures (forall x :: x in tasks ==> x.body.theme in ThemeKeys())
        ==> KeysTotal(ThemeKeys(), OfUser(tasks, u)) == FinanceStatus(tasks, expenses, u).income
  {
    var mine, keys := OfUser(tasks, u), ThemeKeys();
    KeysTotalPartitionsMinutes(keys, mine);
    FilteredMinutesBounded(mine, InKeys(keys));
    if forall x :: x in tasks ==> x.body.theme in keys {
      FilterAll(mine, InKeys(keys));
    }
  }

  // ---------------------------------------------------------------------
  // The task journal and today's focus (get_today_tasks, today_min)
  // ---------------------------------------------------------------------

  /** The user's ten newest sessions, newest first (ORDER BY id DESC LIMIT 10). */
  function LatestTasks(tasks: seq<Row<Task>>, u: UserId): (r: seq<Row<Task>>)
    ensures |r| == if |OfUser(tasks, u)| < RecentLimit then |OfUser(tasks, u)| else RecentLimit
    ensures forall x :: x in r ==> x in tasks && x.user == u
    ensures Ascending(tasks) ==> Descending(r)
  {
    var newest := NewestFirst(OfUser(tasks, u));
    var r := Limit(newest, RecentLimit);
    assert forall x :: x in r ==> x in newest;
    r
  }

  /** No session of the user left out of the journal is newer than one in it. */
  lemma LatestAreNewest(tasks: seq<Row<Task>>, u: UserId, x: Row<Task>, i: nat)
    requires Ascending(tasks)
    requires x in tasks && x.user == u && x !in LatestTasks(tasks, u)
    requires i < |LatestTasks(tasks, u)|
    ensures x.id < LatestTasks(tasks, u)[i].id
  {
    var f := OfUser(tasks, u);
    var r := LatestTasks(tasks, u);
    assert x in f;
    var p :| 0 <= p < |f| && f[p] == x;
    LimitKeepsNewest(f, RecentLimit);
    assert r[i] == f[|f| - 1 - i];
  }

  /** The clause "ended on day d". */
  function EndedOnDay(d: int): Row<Task> -> bool {
    (x: Row<Task>) => Day(x.body.endTime) == d
  }

  /** today_min as the dashboard computes it: the minutes of those of the
      ten newest sessions that ended today. */
  function TodayFocus(tasks: seq<Row<Task>>, u: UserId, now: int): (total: int) {
    TotalMinutes(Filter(LatestTasks(tasks, u), EndedOnDay(Day(now))))
  }

  /** Today's figure never exceeds the ten newest sessions' minutes, which
      never exceed the income. */
  lemma TodayFocusBounded(tasks: seq<Row<Task>>, u: UserId, now: int)
    requires NoNegativeDurations(tasks)
    ensures 0 <= TodayFocus(tasks, u, now) <= TotalMinutes(LatestTasks(tasks, u))
    ensures TotalMinutes(LatestTasks(tasks, u)) <= TotalMinutes(OfUser(tasks, u))
  {
    var f := OfUser(tasks, u);
    var latest := LatestTasks(tasks, u);
    FilteredMinutesBounded(latest, EndedOnDay(Day(now)));
    PrefixMinutesBounded(NewestFirst(f), |latest|);
    NewestFirstMinutes(f);
  }

  /** The minutes of every session of the user that ended today; never more
      than the user's income. */
  function TodayFocusAll(tasks: seq<Row<Task>>, u: UserId, now: int): (total: int)
    ensures NoNegativeDurations(tasks) ==> 0 <= total <= TotalMinutes(OfUser(tasks, u))
  {
    var mine := OfUser(tasks, u);
    FilteredMinutesBounded(mine, EndedOnDay(Day(now)));
    TotalMinutes(Filter(mine, EndedOnDay(Day(now))))
  }

  /** The dashboard's figure never exceeds the full one: the journal's rows
      that ended today are a prefix of all of the user's rows that did, newest first. */
  lemma TodayFocusNeverOvercounts(tasks: seq<Row<Task>>, u: UserId, now: int)
    requires NoNegativeDurations(tasks)
    ensures TodayFocus(tasks, u, now) <= TodayFocusAll(tasks, u, now)
  {
    var f := OfUser(tasks, u);
    var newest := NewestFirst(f);
    var latest := LatestTasks(tasks, u);
    var rest := newest[|latest|..];
    var today := EndedOnDay(Day(now));
    assert newest == latest + rest;
    FilterConcat(latest, rest, today);
    var shown := Filter(latest, today);
    assert Filter(newest, today)[..|shown|] == shown;
    assert NoNegativeDurations(Filter(newest, today));
    PrefixMinutesBounded(Filter(newest, today), |shown|);
    FilterNewestFirst(f, today);
    NewestFirstMinutes(Filter(f, today));
  }

  /** Every session that ends today adds its minutes to today's figure;
      sessions of other users or other days add nothing. */
  lemma {:induction false} TodayFocusAllCountsEverySession(tasks: seq<Row<Task>>, row: Row<Task>, u: UserId, now: int)
    ensures TodayFocusAll(tasks + [row], u, now)
         == TodayFocusAll(tasks, u, now) + (if row.user == u && Day(row.body.endTime) == Day(now) then row.body.durationMin else 0)
  {
    FilterAppend(tasks, row, OwnedBy(u));
    if row.user == u {
      FilterAppend(OfUser(tasks, u), row, EndedOnDay(Day(now)));
      if Day(row.body.endTime) == Day(now) {
        TotalMinutesAppend(Filter(OfUser(tasks, u), EndedOnDay(Day(now))), row);
      }
    }
  }

  /** With at most ten sessions the dashboard's figure is the full one. */
  lemma TodayFocusAgreesOnFewTasks(tasks: seq<Row<Task>>, u: UserId, now: int)
    requires |OfUser(tasks, u)| <= RecentLimit
    ensures TodayFocus(tasks, u, now) == TodayFocusAll(tasks, u, now)
  {
    var f := OfUser(tasks, u);
    var today := EndedOnDay(Day(now));
    assert LatestTasks(tasks, u) == NewestFirst(f);
    FilterNewestFirst(f, today);
    NewestFirstMinutes(Filter(f, today));
  }

  /** Eleven one-minute sessions of one user, all ended on day 0. */
  function ElevenSessionsToday(): (tasks: seq<Row<Task>>)
    ensures |tasks| == 11
    ensures forall x :: x in tasks ==> x.user == "jing" && x.body.durationMin == 1 && x.body.endTime == 0
  {
    seq(11, i => Row(i + 1, "jing", Task(0, 0, "核心能力", "focus", 1, Input, DefaultScores)))
  }

  /** The dashboard shows 10 minutes for a day with 11 one-minute sessions. */
  lemma TodayFocusMissesEleventhSession()
    ensures TodayFocus(ElevenSessionsToday(), "jing", 0) == 10
    ensures TodayFocusAll(ElevenSessionsToday(), "jing", 0) == 11
  {
    var tasks := ElevenSessionsToday();
    var today := EndedOnDay(Day(0));
    FilterAll(tasks, OwnedBy("jing"));
    FilterAll(tasks, today);
    UnitMinutes(tasks);
    var latest := LatestTasks(tasks, "jing");
    FilterAll(latest, today);
    UnitMinutes(latest);
  }

  // ---------------------------------------------------------------------
  // The trailing week (get_weekly_data) and the report prompt's figures
  // ---------------------------------------------------------------------

  /** The clause start_time > t. */
  function StartedAfter(t: int): Row<Task> -> bool {
    (x: Row<Task>) => x.body.startTime > t
  }

  /** The clause date > t. */
  function DatedAfter(t: int): Row<Expense> -> bool {
    (x: Row<Expense>) => x.body.date > t
  }

  /** The week's sessions and purchases with the window's first and last day. */
  datatype Week = Week(tasks: seq<Row<Task>>, expenses: seq<Row<Expense>>, startDay: int, endDay: int)

  /** The user's sessions started, and purchases made, strictly after
      now minus seven days; the window runs from seven days ago to today. */
  function WeeklyData(tasks: seq<Row<Task>>, expenses: seq<Row<Expense>>, u: UserId, now: int): (w: Week)
    ensures forall x :: x in w.tasks <==> x in tasks && x.user == u && x.body.startTime > now - WeekSeconds
    ensures forall x :: x in w.expenses <==> x in expenses && x.user == u && x.body.date > now - WeekSeconds
    ensures Ascending(tasks) ==> Ascending(w.tasks)
    ensures Ascending(expenses) ==> Ascending(w.expenses)
    ensures w.endDay == Day(now) && w.startDay == w.endDay - 7
  {
    var from := now - WeekSeconds;
    Week(Filter(OfUser(tasks, u), StartedAfter(from)), Filter(OfUser(expenses, u), DatedAfter(from)), Day(from), Day(now))
  }

  /** What the weekly-report prompt quotes: minutes, spend, session count. */
  datatype Figures = Figures(focusMin: int, spent: int, taskCount: nat)

  /** The prompt's figures, or None when the week has no session (the
      dashboard then warns instead of asking for a report). */
  function ReportFigures(w: Week): (f: Option<Figures>)
    ensures f.None? <==> w.tasks == []
    ensures f.Some? ==> f.value.taskCount == |w.tasks| > 0
  {
    if w.tasks == [] then None else Some(Figures(TotalMinutes(w.tasks), TotalCost(w.expenses), |w.tasks|))
  }

  /** The week's quoted minutes are part of the income. */
  lemma WeeklyFocusWithinIncome(tasks: seq<Row<Task>>, expenses: seq<Row<Expense>>, u: UserId, now: int)
    requires NoNegativeDurations(tasks)
    requires ReportFigures(WeeklyData(tasks, expenses, u, now)).Some?
    ensures 0 <= ReportFigures(WeeklyData(tasks, expenses, u, now)).value.focusMin <= FinanceStatus(tasks, expenses, u).income
  {
    FilteredMinutesBounded(OfUser(tasks, u), StartedAfter(now - WeekSeconds));
  }

  // ---------------------------------------------------------------------
  // The report archive (get_past_reports)
  // ---------------------------------------------------------------------

  /** The user's archived reports, newest first. */
  function PastReports(reports: seq<Row<Report>>, u: UserId): (r: seq<Row<Report>>)
    ensures forall x :: x in r <==> x in reports && x.user == u
    ensures Ascending(reports) ==> Descending(r)
  {
    NewestFirst(OfUser(reports, u))
  }

  /** A database that keeps its invariant lists every journal and archive
      newest first. */
  lemma ValidLedgerIsOrdered(db: Database, u: UserId)
    requires db.Valid()
    ensures Descending(LatestTasks(db.taskLog, u))
    ensures Descending(PastReports(db.weeklyReports, u))
  {
    NumberedIsAscending(db.taskLog);
    NumberedIsAscending(db.weeklyReports);
  }

  /** A report just archived heads its owner's list; other lists are unchanged. */
  lemma {:induction false} ArchivedReportComesFirst(reports: seq<Row<Report>>, row: Row<Report>, u: UserId)
    ensures PastReports(reports + [row], u)
         == if row.user == u then [row] + PastReports(reports, u) else PastReports(reports, u)
  {
    FilterAppend(reports, row, OwnedBy(u));
    var f := OfUser(reports, u);
    assert (f + [row])[..|f|] == f;
  }
}
