/** The rows of the four ledger tables and the queries the engine runs over
    them: filtering (WHERE), newest-first ordering (ORDER BY id DESC),
    limiting (LIMIT) and summing (SUM(...) with an empty sum read as 0). */
module Tables {
  import opened Config

  /** A row of an AUTOINCREMENT table: its id, its owner and its columns. */
  datatype Row<P> = Row(id: int, user: UserId, body: P)

  /** task_log columns: one completed focus session. */
  datatype Task = Task(startTime: int, endTime: int, theme: string, taskName: string,
                       durationMin: int, ipoStage: Stage, snap: Scores)

  /** expense_log columns: one purchase, dated by its timestamp. */
  datatype Expense = Expense(date: int, itemName: string, cost: int)

  /** weekly_reports columns: the archive day, the window's two days, the text. */
  datatype Report = Report(date: int, startDate: int, endDate: int, content: string)

  /** A daily_log row: it has no id, only a day, the scores and the owner. */
  datatype Status = Status(date: int, scores: Scores, user: UserId)

  /** The ids an AUTOINCREMENT table gets when nothing is ever deleted from it:
      1, 2, 3, ... in insertion order. */
  ghost predicate Numbered<P>(rows: seq<Row<P>>) {
    forall i :: 0 <= i < |rows| ==> rows[i].id == i + 1
  }

  ghost predicate Ascending<P>(rows: seq<Row<P>>) {
    forall i, j :: 0 <= i < j < |rows| ==> rows[i].id < rows[j].id
  }

  ghost predicate Descending<P>(rows: seq<Row<P>>) {
    forall i, j :: 0 <= i < j < |rows| ==> rows[i].id > rows[j].id
  }

  lemma NumberedIsAscending<P>(rows: seq<Row<P>>)
    requires Numbered(rows)
    ensures Ascending(rows)
  {
  }

  /** A WHERE clause: the rows that satisfy `keep`, in table order. */
  function Filter<P(!new)>(rows: seq<Row<P>>, keep: Row<P> -> bool): (r: seq<Row<P>>)
    ensures |r| <= |rows|
    ensures forall x :: x in r <==> x in rows && keep(x)
    ensures Ascending(rows) ==> Ascending(r)
    decreases |rows|
  {
    if rows == [] then []
    else
      var init, last := rows[..|rows| - 1], rows[|rows| - 1];
      var kept := Filter(init, keep);
      assert Ascending(rows) ==> forall k :: 0 <= k < |kept| ==> kept[k].id < last.id by {
        if Ascending(rows) {
          forall k | 0 <= k < |kept| ensures kept[k].id < last.id {
            assert kept[k] in init;
            var i :| 0 <= i < |init| && init[i] == kept[k];
          }
        }
      }
      if keep(last) then kept + [last] else kept
  }

  /** The clause user_id = u. */
  function OwnedBy<P>(u: UserId): Row<P> -> bool {
    (x: Row<P>) => x.user == u
  }

  /** WHERE user_id = u. */
  function OfUser<P(!new)>(rows: seq<Row<P>>, u: UserId): (r: seq<Row<P>>)
    ensures forall x :: x in r <==> x in rows && x.user == u
  {
    Filter(rows, OwnedBy(u))
  }

  /** Filtering an appended row: it is kept exactly when it satisfies the clause. */
  lemma {:induction false} FilterAppend<P(!new)>(rows: seq<Row<P>>, row: Row<P>, keep: Row<P> -> bool)
    ensures Filter(rows + [row], keep) == Filter(rows, keep) + (if keep(row) then [row] else [])
  {
    assert (rows + [row])[..|rows|] == rows;
  }

  /** A filter that keeps everything returns the table itself. */
  lemma {:induction false} FilterAll<P(!new)>(rows: seq<Row<P>>, keep: Row<P> -> bool)
    requires forall x :: x in rows ==> keep(x)
    ensures Filter(rows, keep) == rows
    decreases |rows|
  {
    if rows != [] {
      var init := rows[..|rows| - 1];
      assert forall x :: x in init ==> x in rows;
      FilterAll(init, keep);
      assert init + [rows[|rows| - 1]] == rows;
    }
  }

  /** A filter that keeps nothing returns no rows. */
  lemma {:induction false} FilterNone<P(!new)>(rows: seq<Row<P>>, keep: Row<P> -> bool)
    requires forall x :: x in rows ==> !keep(x)
    ensures Filter(rows, keep) == []
    decreases |rows|
  {
    if rows != [] {
      var init := rows[..|rows| - 1];
      assert forall x :: x in init ==> x in rows;
      FilterNone(init, keep);
      assert rows[|rows| - 1] in rows;
    }
  }

  /** ORDER BY id DESC over rows kept in insertion order: the reversal. */
  function NewestFirst<P(!new)>(rows: seq<Row<P>>): (r: seq<Row<P>>)
    ensures |r| == |rows|
    ensures forall i :: 0 <= i < |r| ==> r[i] == rows[|rows| - 1 - i]
    ensures forall x :: x in r <==> x in rows
    ensures Ascending(rows) ==> Descending(r)
    decreases |rows|
  {
    if rows == [] then [] else [rows[|rows| - 1]] + NewestFirst(rows[..|rows| - 1])
  }

  /** LIMIT n. */
  function Limit<P>(rows: seq<Row<P>>, n: nat): (r: seq<Row<P>>)
    ensures |r| == if |rows| < n then |rows| else n
    ensures r == rows[..|r|]
  {
    if |rows| < n then rows else rows[..n]
  }

  /** The first n rows newest first are the last n rows of the table. */
  lemma LimitKeepsNewest<P(!new)>(rows: seq<Row<P>>, n: nat)
    ensures forall q :: |rows| - |Limit(NewestFirst(rows), n)| <= q < |rows| ==> rows[q] in Limit(NewestFirst(rows), n)
    ensures forall i :: 0 <= i < |Limit(NewestFirst(rows), n)| ==> Limit(NewestFirst(rows), n)[i] == rows[|rows| - 1 - i]
  {
    var r := Limit(NewestFirst(rows), n);
    forall q | |rows| - |r| <= q < |rows| ensures rows[q] in r {
      assert r[|rows| - 1 - q] == rows[q];
    }
  }

  /** SUM(duration_min), an empty sum being 0; never negative when no
      duration is. */
  function TotalMinutes(tasks: seq<Row<Task>>): (total: int)
    ensures tasks == [] ==> total == 0
    ensures NoNegativeDurations(tasks) ==> total >= 0
    decreases |tasks|
  {
    if tasks == [] then 0
    else
      var init := tasks[..|tasks| - 1];
      assert forall x :: x in init ==> x in tasks;
      assert tasks[|tasks| - 1] in tasks;
      TotalMinutes(init) + tasks[|tasks| - 1].body.durationMin
  }

  /** Every purchase cost a non-negative price. */
  ghost predicate NoNegativeCosts(expenses: seq<Row<Expense>>) {
    forall x :: x in expenses ==> x.body.cost >= 0
  }

  /** SUM(cost), an empty sum being 0; never negative when no cost is. */
  function TotalCost(expenses: seq<Row<Expense>>): (total: int)
    ensures expenses == [] ==> total == 0
    ensures NoNegativeCosts(expenses) ==> total >= 0
    decreases |expenses|
  {
    if expenses == [] then 0
    else
      var init := expenses[..|expenses| - 1];
      assert forall x :: x in init ==> x in expenses;
      assert expenses[|expenses| - 1] in expenses;
      TotalCost(init) + expenses[|expenses| - 1].body.cost
  }

  lemma {:induction false} TotalMinutesAppend(tasks: seq<Row<Task>>, row: Row<Task>)
    ensures TotalMinutes(tasks + [row]) == TotalMinutes(tasks) + row.body.durationMin
  {
    assert (tasks + [row])[..|tasks|] == tasks;
  }

  lemma {:induction false} TotalCostAppend(expenses: seq<Row<Expense>>, row: Row<Expense>)
    ensures TotalCost(expenses + [row]) == TotalCost(expenses) + row.body.cost
  {
    assert (expenses + [row])[..|expenses|] == expenses;
  }

  /** Every session lasted a non-negative number of minutes (the clock did not go back). */
  ghost predicate NoNegativeDurations(tasks: seq<Row<Task>>) {
    forall x :: x in tasks ==> x.body.durationMin >= 0
  }

  /** With no negative durations, a filtered sum never exceeds the full sum. */
  lemma {:induction false} FilteredMinutesBounded(tasks: seq<Row<Task>>, keep: Row<Task> -> bool)
    ensures NoNegativeDurations(tasks) ==> 0 <= TotalMinutes(Filter(tasks, keep)) <= TotalMinutes(tasks)
    decreases |tasks|
  {
    if tasks != [] && NoNegativeDurations(tasks) {
      var init, last := tasks[..|tasks| - 1], tasks[|tasks| - 1];
      assert forall x :: x in init ==> x in tasks;
      FilteredMinutesBounded(init, keep);
      if keep(last) {
        TotalMinutesAppend(Filter(init, keep), last);
      }
    }
  }

  /** A prefix of a table with no negative durations sums to at most the whole. */
  lemma {:induction false} PrefixMinutesBounded(tasks: seq<Row<Task>>, n: nat)
    requires n <= |tasks|
    requires NoNegativeDurations(tasks)
    ensures TotalMinutes(tasks[..n]) <= TotalMinutes(tasks)
    decreases |tasks|
  {
    if n < |tasks| {
      var init := tasks[..|tasks| - 1];
      assert init[..n] == tasks[..n];
      assert forall x :: x in init ==> x in tasks;
      PrefixMinutesBounded(init, n);
    } else {
      assert tasks[..n] == tasks;
    }
  }

  /** Reversal does not change a sum. */
  lemma {:induction false} NewestFirstMinutes(tasks: seq<Row<Task>>)
    ensures TotalMinutes(NewestFirst(tasks)) == TotalMinutes(tasks)
    decreases |tasks|
  {
    if tasks != [] {
      var init, last := tasks[..|tasks| - 1], tasks[|tasks| - 1];
      NewestFirstMinutes(init);
      MinutesPrepend(last, NewestFirst(init));
    }
  }

  lemma {:induction false} MinutesPrepend(row: Row<Task>, tasks: seq<Row<Task>>)
    ensures TotalMinutes([row] + tasks) == row.body.durationMin + TotalMinutes(tasks)
    decreases |tasks|
  {
    if tasks != [] {
      var init, last := tasks[..|tasks| - 1], tasks[|tasks| - 1];
      assert ([row] + tasks)[..|tasks|] == [row] + init;
      MinutesPrepend(row, init);
    }
  }

  /** Filtering a concatenation filters each part. */
  lemma {:induction false} FilterConcat<P(!new)>(front: seq<Row<P>>, back: seq<Row<P>>, keep: Row<P> -> bool)
    ensures Filter(front + back, keep) == Filter(front, keep) + Filter(back, keep)
    decreases |back|
  {
    if back == [] {
      assert front + back == front;
    } else {
      var init, last := back[..|back| - 1], back[|back| - 1];
      var tail := if keep(last) then [last] else [];
      assert front + back == (front + init) + [last];
      assert back == init + [last];
      calc {
        Filter(front + back, keep);
        { FilterAppend(front + init, last, keep); }
        Filter(front + init, keep) + tail;
        { FilterConcat(front, init, keep); }
        (Filter(front, keep) + Filter(init, keep)) + tail;
        Filter(front, keep) + (Filter(init, keep) + tail);
        { FilterAppend(init, last, keep); }
        Filter(front, keep) + Filter(back, keep);
      }
    }
  }

  /** Filtering a row put in front: it is kept exactly when it satisfies the clause. */
  lemma FilterPrepend<P(!new)>(row: Row<P>, rows: seq<Row<P>>, keep: Row<P> -> bool)
    ensures Filter([row] + rows, keep) == (if keep(row) then [row] else []) + Filter(rows, keep)
  {
    FilterConcat([row], rows, keep);
    FilterAppend([], row, keep);
    assert [] + [row] == [row];
  }

  /** Filtering commutes with the newest-first ordering. */
  lemma {:induction false} FilterNewestFirst<P(!new)>(rows: seq<Row<P>>, keep: Row<P> -> bool)
    ensures Filter(NewestFirst(rows), keep) == NewestFirst(Filter(rows, keep))
    decreases |rows|
  {
    if rows != [] {
      var init, last := rows[..|rows| - 1], rows[|rows| - 1];
      FilterNewestFirst(init, keep);
      FilterPrepend(last, NewestFirst(init), keep);
      FilterAppend(init, last, keep);
      if keep(last) {
        var kept := Filter(init, keep);
        assert (kept + [last])[..|kept|] == kept;
      }
    }
  }

  /** A table of one-minute sessions sums to its length. */
  lemma {:induction false} UnitMinutes(tasks: seq<Row<Task>>)
    requires forall x :: x in tasks ==> x.body.durationMin == 1
    ensures TotalMinutes(tasks) == |tasks|
    decreases |tasks|
  {
    if tasks != [] {
      var init := tasks[..|tasks| - 1];
      assert forall x :: x in init ==> x in tasks;
      UnitMinutes(init);
      assert tasks[|tasks| - 1] in tasks;
    }
  }
}
