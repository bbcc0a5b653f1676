/** Clients of the engine: each method plays one dashboard scenario and
    checks, from the contracts alone, what the ledger shows afterwards. */
module Scenarios {
  import opened Config
  import opened Tables
  import opened Store
  import opened Progress
  import opened Session
  import opened Shop

  /** A session started at t and completed at t + 125 s is filed as 2 whole minutes. */
  method CompletedSessionFilesWholeMinutes(db: Database, timer: FocusSession, t: int)
    requires db.Valid() && timer.timerActive && timer.startTime == t
    modifies db, timer
  {
    var mins := timer.Complete(db, "jing", t + 125);
    assert mins == 2 && !timer.timerActive;
    assert db.taskLog[|db.taskLog| - 1].body.durationMin == 2;
  }

  /** A 50-minute session on a ledger with no coins funds a balance of 50 coins. */
  method SessionFundsBalance(db: Database, timer: FocusSession)
    requires db.Valid() && Balance(db.taskLog, db.expenseLog, "jing") == 0
    requires timer.timerActive && timer.startTime == 0
    modifies db, timer
  {
    ghost var before, expenses := db.taskLog, db.expenseLog;
    var mins := timer.Complete(db, "jing", 50 * 60);
    ghost var filed := Task(0, 50 * 60, timer.currentTheme, timer.currentTask, mins, timer.currentIpo, DefaultScores);
    assert Balance(before + [Row(|before| + 1, "jing", filed)], expenses, "jing") == 50 by {
      SessionCredit(before, expenses, "jing", filed);
    }
    assert Balance(db.taskLog, db.expenseLog, "jing") == 50;
  }

  /** With 50 coins the 60-coin soda is refused and nothing is written. */
  method RedeemRefusedBelowPrice(db: Database)
    requires db.Valid() && Balance(db.taskLog, db.expenseLog, "jing") == 50
    modifies db
  {
    var soda := Catalog()[0];
    assert soda.price == 60;
    var refused := Redeem(db, soda, "jing", 50 * 60);
    assert refused == InsufficientBalance;
    assert Balance(db.taskLog, db.expenseLog, "jing") == 50;
  }

  /** With 100 coins the same soda is bought and 40 remain. */
  method RedeemAllowedAtPrice(db: Database)
    requires db.Valid() && Balance(db.taskLog, db.expenseLog, "jing") == 100
    modifies db
  {
    var soda := Catalog()[0];
    assert soda.price == 60;
    var bought := Redeem(db, soda, "jing", 7000);
    assert bought == Bought;
    assert Balance(db.taskLog, db.expenseLog, "jing") == 40;
  }

  /** Starting while a session runs is refused and keeps the running session. */
  method StartWhileRunningIsRefused() {
    var timer := new FocusSession();
    var first := timer.Start("写代码", "创新实践", Process, 10);
    var second := timer.Start("散步", "身心健康", Output, 20);
    assert first == Started && second == AlreadyRunning;
    assert timer.timerActive && timer.startTime == 10;
    assert timer.currentTask == "写代码" && timer.currentTheme == "创新实践" && timer.currentIpo == Process;
  }

  /** An empty task does not start a session. */
  method EmptyTaskDoesNotStart() {
    var timer := new FocusSession();
    var outcome := timer.Start("", "核心能力", Input, 10);
    assert outcome == EmptyTask && !timer.timerActive;
  }
}
