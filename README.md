# Focus ledger of the LifeOS dashboard, in Dafny

`app.py` is a Streamlit dashboard. A user runs timed focus sessions in one of six life
domains. Every completed minute earns one coin. Coins buy goods from a fixed catalog.
The dashboard shows a level per domain, today's focused minutes, a weekly summary and
an archive of weekly reports. This project models the engine behind those screens:

- `config.dfy` (`Config`): the six domains (`THEME_CONFIG`), the catalog (`DEFAULT_GOODS`),
  the focus stages, the five scores, and the calendar and division arithmetic that stands
  in for Python's date strings and `int(x / 60)`.
- `tables.dfy` (`Tables`): the rows of `task_log`, `expense_log`, `weekly_reports` and
  `daily_log`, and the SQL the program runs over them: `WHERE`, `ORDER BY id DESC`,
  `LIMIT`, and `SUM` with an empty sum read as 0.
- `store.dfy` (`Store`): the database as a class whose four tables are `seq` fields. Its
  methods are `save_status`, `save_task`, `buy_item` and `save_weekly_report`. Its
  invariant is one status row per (day, user), with the AUTOINCREMENT tables numbered
  1, 2, 3, ... in insertion order.
- `progress.dfy` (`Progress`): the read side. It covers the finance status, the domain
  cards, the ten-row task journal with `today_min`, the trailing week, the figures the
  weekly-report prompt quotes, and the report archive.
- `session.dfy` (`Session`): the focus timer kept in the browser session, as a class. It
  has the start button, the mm:ss display and the complete button.
- `shop.dfy` (`Shop`): the exchange button, which buys a good only when the balance
  covers its price.
- `scenarios.dfy` (`Scenarios`): client methods that replay a few dashboard interactions
  and check, from the contracts alone, what the ledger shows afterwards.

Time is a whole number of seconds on the local clock. A calendar day (`"%Y-%m-%d"`) is
that number divided by 86400. Ids are the positions 1..n, because AUTOINCREMENT tables
that never delete are numbered that way.

Behaviour of the code a reader might not expect:

- The weekly window keeps rows whose timestamp is strictly after now minus seven days
  (`>` at app.py:217-218). A row stamped exactly seven days ago is left out.
- "Today's minutes" adds up only today's sessions among the user's ten newest
  (app.py:198-202 and app.py:329). See Findings.
- Start checks only that the task is non-empty (app.py:378). The domain comes from a
  select box holding the six keys (app.py:375), so it is not checked.
- The birthday cake costs 0 (app.py:148). Buying it adds a purchase row and leaves the
  balance where it was.

## Model

| member | source | states |
|---|---|---|
| Config.Day | app.py:176 | the day of a timestamp is the unique d with d*86400 <= t < (d+1)*86400 |
| Config.Div60 | app.py:387 | Python's int(x / 60): floor for x >= 0 and ceiling for x < 0, remainder strictly within one minute |
| Config.Themes | app.py:140-147 | six domains in declaration order, with pairwise distinct names |
| Config.ThemeKeys | app.py:195 | the keys are the six domain names in order, pairwise distinct |
| Config.Catalog | app.py:148 | six goods, none with a negative price |
| Tables.Filter | app.py:189-190 | a WHERE clause keeps exactly the rows satisfying it, never adds rows, and keeps id order |
| Tables.OfUser | app.py:189-190 | WHERE user_id = u keeps exactly the user's rows |
| Tables.NewestFirst | app.py:200 | ORDER BY id DESC reverses an insertion-ordered table: same rows, ids descending |
| Tables.Limit | app.py:200 | LIMIT n returns the first min(n, length) rows |
| Tables.LimitKeepsNewest | app.py:200 | the first n rows newest first are the table's last n rows |
| Tables.TotalMinutes | app.py:189 | SUM(duration_min) of no rows is 0 (the `or 0`), and the sum is never negative when no duration is |
| Tables.TotalCost | app.py:190 | SUM(cost) of no rows is 0 (the `or 0`), and the sum is never negative when no cost is |
| Store.StatusOnDropped | app.py:177 | the DELETE leaves no row of that day and user, and deleting again changes nothing |
| Store.DropDay | app.py:177 | the DELETE keeps exactly the rows not of that day and user, and keeps one row per (day, user) |
| Store.Database.constructor | app.py:153-159 | a fresh database has four empty tables and satisfies the invariant |
| Store.Database.SaveStatus | app.py:174-178 | the day's previous row for the user is replaced by exactly one new row; other rows are untouched; one row per (day, user) is kept |
| Store.Database.SaveTask | app.py:181-182 | one task row is appended with the next id, the given start and the current time as end |
| Store.Database.BuyItem | app.py:184-185 | one purchase row is appended with the next id, dated now; the balance is not consulted |
| Store.Database.SaveWeeklyReport | app.py:204-206 | one report row is appended with window [today - 7, today] |
| Progress.FinanceStatus | app.py:187-191 | balance equals income minus spend |
| Progress.EmptyLedger | app.py:189-190 | with no rows, income, spend, balance and every domain total are 0 |
| Progress.FinanceAfterTask | app.py:189 | a new session raises its owner's income and balance by its minutes and leaves every other user's finances unchanged |
| Progress.FinanceAfterExpense | app.py:190 | a new purchase raises its owner's spend and lowers the balance by its cost, and leaves every other user unchanged |
| Progress.GatedPurchase | app.py:416-417 | a purchase the balance covers lowers it by exactly the price and never below 0 |
| Progress.StatOf | app.py:195 | progress is in [0, 100); for a non-negative total, level is whole hours and level*60 + progress*0.6 is the total; level 0 covers every total from -59 to 59 |
| Progress.ThemeTotal | app.py:194 | a domain's SUM for the user lies between 0 and the user's whole SUM(duration_min) when no duration is negative |
| Progress.LevelUpEveryHour | app.py:195 | for a non-negative total, each further 60 minutes adds exactly one level and leaves the progress bar unchanged |
| Progress.ThemeStats | app.py:193-196 | one card per configured domain and no other key, each computed from that domain's total |
| Progress.ThemeTotalAfterTask | app.py:194 | a new session adds its minutes to its own user's own domain only |
| Progress.UntouchedDomain | app.py:195 | a domain without sessions has total 0, level 0 and progress 0 |
| Progress.KeysTotalPartitionsMinutes | app.py:194-195 | over distinct keys, the per-key totals add up to the minutes filed under those keys |
| Progress.DomainTotalsWithinIncome | app.py:189 | the six domain totals add up to at most the income, and to exactly the income when every session has a configured domain |
| Progress.LatestTasks | app.py:198-202 | the journal holds min(10, n) of the user's own rows, newest first |
| Progress.LatestAreNewest | app.py:200 | every session of the user left out of the journal is older than every session in it |
| Progress.TodayFocusBounded | app.py:329 | today's figure lies between 0 and the journal's minutes, which lie within the income |
| Progress.TodayFocus | app.py:329 | as-written today_min, the minutes of today's sessions among the ten newest; its lemmas bound it, show it never overcounts, and exhibit the eleven-session shortfall |
| Progress.TodayFocusNeverOvercounts | app.py:329 | when no duration is negative, the dashboard's figure is at most the minutes of every session that ended today |
| Progress.TodayFocusAll | app.py:329 | corrected figure, the minutes of every session of the user that ended today; when no duration is negative, it lies between 0 and the user's whole SUM(duration_min) |
| Progress.TodayFocusMissesEleventhSession | app.py:329 | with eleven one-minute sessions today the dashboard shows 10, while 11 minutes were focused |
| Progress.TodayFocusAllCountsEverySession | app.py:329 | corrected figure: every session that ends today adds its minutes, and nothing else does |
| Progress.TodayFocusAgreesOnFewTasks | app.py:329 | with at most ten sessions the dashboard's figure equals the corrected one |
| Progress.WeeklyData | app.py:215-219 | the week holds exactly the user's sessions started, and purchases dated, strictly after now minus seven days, in table order, and spans [today - 7, today] |
| Progress.ReportFigures | app.py:439-442 | no report figures exactly when the week has no session; otherwise the session count is the week's row count |
| Progress.WeeklyFocusWithinIncome | app.py:442 | the week's quoted minutes are between 0 and the income |
| Progress.PastReports | app.py:209-213 | the archive lists exactly the user's reports, newest first |
| Progress.ValidLedgerIsOrdered | app.py:198-213 | with the database invariant (ids 1..n), the task journal and the report archive both list ids strictly descending |
| Progress.ArchivedReportComesFirst | app.py:209-213 | a report just archived heads its owner's list; other users' lists are unchanged |
| Session.ElapsedClock | app.py:386-388 | seconds lie in [0, 60); for a start not in the future, mins*60 + secs is the elapsed time |
| Session.SessionCredit | app.py:399-401 | filing a session raises its owner's balance and domain total by its minutes |
| Session.FocusSession.constructor | app.py:297 | a new browser session has no timer running |
| Session.FocusSession.Start | app.py:371-384 | a running timer or an empty task starts nothing and changes nothing; otherwise the start time, domain, task and stage are bound and the timer runs |
| Session.FocusSession.Complete | app.py:399-402 | exactly one row is appended, holding the bound start, domain, task and stage, the end time, the whole elapsed minutes and the default scores, and the timer stops |
| Shop.Redeem | app.py:415-421 | it buys exactly when the balance covers the price: one purchase row, and the balance drops by the price and stays >= 0; otherwise nothing is written |

## Left out

- Page layout, CSS, the banner, the snow, audio and images, the domain card HTML
  (`render_theme_card_christmas`), fonts (`get_font_prop`) and the radar chart
  (`plot_radar_v2`) are presentation. They are not modelled.
- `call_deepseek_ai`, the chat tab and the report text are left out. The narrative comes
  from an external service and is opaque to the engine: a report's `content` is a parameter.
- Accounts (`add_user`, `login_user`, `make_hashes`, `check_hashes`), the login form, the
  `?user=` query parameter and logout are left out. The engine receives the user id.
- SQLite, pandas and the SQL text are modelled by what the queries select. The
  f-string SQL in `get_weekly_data` is modelled as if the user id contained no quote
  character.
- Database failures are not modelled: every read and write succeeds. In the program,
  `get_today_tasks` (app.py:198-202) and `get_past_reports` (app.py:209-213) catch any
  error and return an empty table, so `today_min` shows 0 and the archive shows no
  report; the writes and the other reads let the error propagate. Progress.LatestTasks,
  Progress.TodayFocus and Progress.PastReports have no failing read.
- `datetime.now()` and `strftime` are replaced by an explicit `now` in whole seconds,
  and a day by seconds divided by 86400. Timestamp strings are compared as numbers, and
  sub-second precision is dropped.
- Session.FocusSession.Complete: one `now` serves both the displayed minutes and the
  end time. In the program, `save_task` reads the clock again a moment later.
- The one-second `time.sleep` / `st.rerun` polling loop (app.py:407-408) is left out,
  and the display is `ElapsedClock` read at any time. While a session runs, that loop
  restarts the script before it reaches the later tabs (app.py:410 on), so the program
  cannot buy, archive a report or save a status then. The model allows `Shop.Redeem`,
  `Store.Database.SaveWeeklyReport` and `Store.Database.SaveStatus` whatever the timer's
  state. Every property proved holds for any such interleaving.
- Progress.StatOf: `prog` is an exact real. The program computes it as a Python float,
  so `lvl * 60 + prog * 0.6 == total` holds exactly only in the model.
- Progress.TodayFocusBounded, Progress.TodayFocusNeverOvercounts, Progress.TodayFocusAll,
  Progress.ThemeTotal, Progress.DomainTotalsWithinIncome and
  Progress.WeeklyFocusWithinIncome hold only while no duration is negative.
  `int(diff / 60)` at app.py:387, modelled by `ElapsedClock`, is
  negative only when the completion time reads at least 60 seconds before the start time,
  for example a session shorter than an hour that spans a daylight-saving fall-back (the
  clock is naive local time). Such a duration is filed as is (app.py:401).
- Progress.StatOf and Progress.LevelUpEveryHour state level and progress only for a
  non-negative total, which a negative duration can break. For a negative total,
  truncation toward zero makes level 0 cover totals from -59 to 59: a total of -30 shows
  level 0 and progress 50, and 60 more minutes leave it at level 0.
- The mood and API-key inputs of the cockpit are left out. They do not reach the ledger.
- The 0..10 range of the five scores is left out. The sliders enforce it, and neither
  `save_status` nor `save_task` checks it.
- The scores are stored as REAL columns in `daily_log`. The model keeps them as
  integers in a record, which is what the sliders produce.
- Concurrency between two browser tabs of one user is left out. Each method runs alone,
  so a purchase cannot read a stale balance in the model.
- Achievements with badge thresholds exist only in the other app variant (`LifeOS 1.0`).
  They are not part of this model.

## Findings

| source | as written | input that shows it | evidently intended | confidence | as-written member | corrected member |
|---|---|---|---|---|---|---|
| app.py:329 | `today_min` sums today's sessions among the rows of `get_today_tasks`, which holds only the user's 10 newest sessions (app.py:200) | eleven one-minute sessions ended today: the dashboard shows 10 minutes | the minutes of every session that ended today (11) | medium, not executed | Progress.TodayFocusMissesEleventhSession | Progress.TodayFocusAllCountsEverySession |
