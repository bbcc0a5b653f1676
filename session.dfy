/** The focus timer kept in the browser session: Idle until a session is
    started, Running until it is completed. Starting persists nothing;
    completing appends exactly one task_log row and returns to Idle. */
module Session {
  import opened Config
  import opened Tables
  import opened Store
  import opened Progress

  /** The timer display, mins:secs. */
  datatype Clock = Clock(mins: int, secs: int)

  /** The display for a session started at `start`, read at `now`:
      mins = int(diff / 60) truncates, secs = diff % 60 is floored (Python). */
  function ElapsedClock(start: int, now: int): (c: Clock)
    ensures 0 <= c.secs < 60
    ensures start <= now ==> 0 <= c.mins && c.mins * 60 + c.secs == now - start
    ensures now < start ==> c.mins <= 0
  {
    var diff := now - start;
    Clock(Div60(diff), diff % 60)
  }

  /** Why the start button did or did not start a session. */
  datatype StartOutcome = Started | EmptyTask | AlreadyRunning

  /** Filing a session credits its minutes to the owner's balance and to its domain. */
  lemma SessionCredit(tasks: seq<Row<Task>>, expenses: seq<Row<Expense>>, u: UserId, t: Task)
    ensures Balance(tasks + [Row(|tasks| + 1, u, t)], expenses, u) == Balance(tasks, expenses, u) + t.durationMin
    ensures ThemeTotal(tasks + [Row(|tasks| + 1, u, t)], u, t.theme) == ThemeTotal(tasks, u, t.theme) + t.durationMin
  {
    FinanceAfterTask(tasks, expenses, Row(|tasks| + 1, u, t), u);
    ThemeTotalAfterTask(tasks, Row(|tasks| + 1, u, t), u, t.theme);
  }

  class FocusSession {
    var timerActive: bool
    var startTime: int
    var currentTheme: string
    var currentTask: string
    var currentIpo: Stage

    /** A new browser session has no timer running. */
    constructor ()
      ensures !timerActive
    {
      timerActive := false;
      startTime, currentTheme, currentTask, currentIpo := 0, "", "", Input;
    }

    /** The start button: while Idle and with a non-empty task it binds the
        start time, domain, task and stage and switches to Running. The form
        is not offered while Running; an empty task does nothing. */
    method Start(task: string, theme: string, ipo: Stage, now: int) returns (outcome: StartOutcome)
      modifies this
      ensures outcome == if old(timerActive) then AlreadyRunning else if task == "" then EmptyTask else Started
      ensures outcome == Started ==>
        timerActive && startTime == now && currentTheme == theme && currentTask == task && currentIpo == ipo
      ensures outcome != Started ==> unchanged(this)
    {
      if timerActive {
        outcome := AlreadyRunning;
      } else if task == "" {
        outcome := EmptyTask;
      } else {
        timerActive, startTime := true, now;
        currentTheme, currentTask, currentIpo := theme, task, ipo;
        outcome := Started;
      }
    }

    /** The complete button: files the session with its whole elapsed
        minutes and the default scores, then switches to Idle. What the new
        row is worth to the balance and the domain is `SessionCredit`. */
    method Complete(db: Database, u: UserId, now: int) returns (mins: int)
      requires timerActive
      requires db.Valid()
      modifies this`timerActive, db`taskLog
      ensures !timerActive
      ensures db.Valid()
      ensures mins == ElapsedClock(startTime, now).mins
      ensures db.taskLog == old(db.taskLog)
        + [Row(|old(db.taskLog)| + 1, u, Task(startTime, now, currentTheme, currentTask, mins, currentIpo, DefaultScores))]
    {
      var start, theme, task, ipo := startTime, currentTheme, currentTask, currentIpo;
      mins := ElapsedClock(start, now).mins;
      db.SaveTask(start, theme, task, mins, ipo, DefaultScores, u, now);
      timerActive := false;
    }
  }
}
