/** The program's main function (main.go): run every registered probe in registry
    order, stopping at the first failure; then lay out the results table, count the
    wins of the two compared models and pick the more reliable one. */
module Harness {
  import opened Types
  import opened Winner
  import opened Probes
  import opened TaskRegistry

  /** The two models the table and the tally compare. */
  const Granite: string := "granite-embedding:latest"
  const Nomic: string := "nomic-embed-text"

  /** max: the larger of two widths. */
  function Max(a: int, b: int): (m: int)
    ensures m >= a && m >= b
    ensures m == a || m == b
  {
    if a > b then a else b
  }

  /** Every registered probe can run: it has something to divide by, and its map
      iteration orders are orders of the right keys. */
  ghost predicate Runnable(tasks: seq<Task>, models: seq<string>, its: seq<Iteration>)
  {
    && |its| == |tasks|
    && forall i :: 0 <= i < |tasks| ==> WellFormed(tasks[i].probe) && ValidIteration(its[i], models)
  }

  /** A probe's Run, for a probe that can run. */
  ghost function RunOf(task: Task, models: seq<string>, it: Iteration, env: Env): Result<map<string, TaskResult>, Error>
  {
    if WellFormed(task.probe) && ValidIteration(it, models) then Outcome(task.probe, models, it, env) else Ok(map[])
  }

  /** `outcomes` holds what each registered probe's Run returns, in registry order. */
  ghost predicate AreOutcomes(outcomes: seq<Result<map<string, TaskResult>, Error>>, tasks: seq<Task>, models: seq<string>, its: seq<Iteration>, env: Env)
  {
    && |outcomes| == |tasks| == |its|
    && forall i :: 0 <= i < |tasks| ==> outcomes[i] == RunOf(tasks[i], models, its[i], env)
  }

  /** The results map after the task loop: the outcome of task i (0-based) under key
      i + 1, or, at the first task that fails, that failure with its 1-based number and
      name, no later task being run. */
  function RunAll(tasks: seq<Task>, outcomes: seq<Result<map<string, TaskResult>, Error>>): (r: Result<map<nat, map<string, TaskResult>>, Error>)
    requires |outcomes| == |tasks|
    ensures r.Ok? <==> forall i :: 0 <= i < |tasks| ==> outcomes[i].Ok?
    ensures r.Ok? ==> (forall k :: k in r.value <==> 1 <= k <= |tasks|) && |r.value| == |tasks|
    ensures r.Ok? ==> forall i :: 0 <= i < |tasks| ==> Ok(r.value[i + 1]) == outcomes[i]
    decreases |tasks|
  {
    if |tasks| == 0 then Ok(map[])
    else
      var n := |tasks| - 1;
      match RunAll(tasks[..n], outcomes[..n])
      case Err(e) => Err(e)
      case Ok(results) =>
        match outcomes[n]
        case Err(e) => Err(TaskFailed(n + 1, tasks[n].name, e))
        case Ok(taskResults) => Ok(results[n + 1 := taskResults])
  }

  /** Once a prefix of the tasks fails, the whole loop fails with that error. */
  lemma {:induction false} RunAllFailsFast(tasks: seq<Task>, outcomes: seq<Result<map<string, TaskResult>, Error>>, n: nat)
    requires |outcomes| == |tasks| && n <= |tasks|
    requires RunAll(tasks[..n], outcomes[..n]).Err?
    ensures RunAll(tasks, outcomes) == RunAll(tasks[..n], outcomes[..n])
    decreases |tasks| - n
  {
    if n < |tasks| {
      var m := |tasks| - 1;
      assert tasks[..m][..n] == tasks[..n] && outcomes[..m][..n] == outcomes[..n];
      RunAllFailsFast(tasks[..m], outcomes[..m], n);
    } else {
      assert tasks[..n] == tasks && outcomes[..n] == outcomes;
    }
  }

  /** A failed run reports the first failing task, by its 1-based number and its name,
      with that task's own error. */
  lemma {:induction false} RunAllFirstFailure(tasks: seq<Task>, outcomes: seq<Result<map<string, TaskResult>, Error>>)
    requires |outcomes| == |tasks|
    requires RunAll(tasks, outcomes).Err?
    ensures exists i :: 0 <= i < |tasks| && outcomes[i].Err? &&
                        (forall j :: 0 <= j < i ==> outcomes[j].Ok?) &&
                        RunAll(tasks, outcomes).error == TaskFailed(i + 1, tasks[i].name, outcomes[i].error)
    decreases |tasks|
  {
    var n := |tasks| - 1;
    if RunAll(tasks[..n], outcomes[..n]).Err? {
      RunAllFirstFailure(tasks[..n], outcomes[..n]);
      var i :| 0 <= i < n && outcomes[..n][i].Err? &&
               (forall j :: 0 <= j < i ==> outcomes[..n][j].Ok?) &&
               RunAll(tasks[..n], outcomes[..n]).error == TaskFailed(i + 1, tasks[..n][i].name, outcomes[..n][i].error);
      assert forall j :: 0 <= j <= i ==> outcomes[..n][j] == outcomes[j];
    } else {
      assert forall j :: 0 <= j < n ==> outcomes[..n][j] == outcomes[j];
    }
  }

  /** One more task after a successful prefix: its failure ends the loop, its success
      is stored under its number. */
  lemma RunAllStep(tasks: seq<Task>, outcomes: seq<Result<map<string, TaskResult>, Error>>, i: nat,
                   results: map<nat, map<string, TaskResult>>)
    requires |outcomes| == |tasks| && i < |tasks|
    requires RunAll(tasks[..i], outcomes[..i]) == Ok(results)
    ensures outcomes[i].Err? ==> RunAll(tasks, outcomes) == Err(TaskFailed(i + 1, tasks[i].name, outcomes[i].error))
    ensures outcomes[i].Ok? ==> RunAll(tasks[..i + 1], outcomes[..i + 1]) == Ok(results[i + 1 := outcomes[i].value])
  {
    assert tasks[..i + 1][..i] == tasks[..i] && outcomes[..i + 1][..i] == outcomes[..i];
    if outcomes[i].Err? {
      RunAllFailsFast(tasks, outcomes, i + 1);
    }
  }

  /** main's task loop: run each registered probe in order, storing its map under its
      1-based number; the first error ends the program. */
  method RunTasks(registry: Registry, models: seq<string>, its: seq<Iteration>, env: Env, ghost outcomes: seq<Result<map<string, TaskResult>, Error>>)
    returns (r: Result<map<nat, map<string, TaskResult>>, Error>)
    requires Runnable(registry.tasks, models, its)
    requires AreOutcomes(outcomes, registry.tasks, models, its, env)
    ensures r == RunAll(registry.tasks, outcomes)
  {
    var tasks := registry.tasks;
    var results: map<nat, map<string, TaskResult>> := map[];
    for i := 0 to |tasks|
      invariant RunAll(tasks[..i], outcomes[..i]) == Ok(results)
    {
      var taskNum := i + 1;
      var task := tasks[i];
      var taskResults := RunTask(task, models, its[i], env);
      assert taskResults == outcomes[i];
      RunAllStep(tasks, outcomes, i, results);
      if taskResults.Err? {
        return Err(TaskFailed(taskNum, task.name, taskResults.error));
      }
      results := results[taskNum := taskResults.value];
    }
    assert tasks[..|tasks|] == tasks && outcomes[..|outcomes|] == outcomes;
    return Ok(results);
  }

  /** Reading a model missing from a probe's map gives Go's zero TaskResult. */
  function Lookup(results: map<string, TaskResult>, model: string): TaskResult
  {
    if model in results then results[model] else TaskResult(0.0, "")
  }

  /** The table's Winner cell: granite's winner field, else nomic's, else "Tie". */
  function WinnerLabel(results: map<string, TaskResult>): string
  {
    if Lookup(results, Granite).winner != "" then Lookup(results, Granite).winner
    else if Lookup(results, Nomic).winner != "" then Lookup(results, Nomic).winner
    else "Tie"
  }

  /** Every non-empty winner field names its own entry, as after a Run. */
  predicate SelfNamed(results: map<string, TaskResult>)
  {
    forall m :: m in results && results[m].winner != "" ==> results[m].winner == m
  }

  /** At most one entry is marked, as after a Run. */
  predicate AtMostOneMarked(results: map<string, TaskResult>)
  {
    forall m1, m2 :: m1 in results && m2 in results && results[m1].winner != "" && results[m2].winner != "" ==> m1 == m2
  }

  /** A Run's map is self-named with at most one marked entry. */
  lemma RunMarksAtMostOne(probe: Probe, models: seq<string>, it: Iteration, env: Env)
    requires WellFormed(probe) && ValidIteration(it, models)
    requires Outcome(probe, models, it, env).Ok?
    ensures SelfNamed(Outcome(probe, models, it, env).value)
    ensures AtMostOneMarked(Outcome(probe, models, it, env).value)
  {
    RunOutcome(probe, models, it, env);
  }

  /** On a probe's result map, the Winner cell names granite exactly when granite's entry
      is marked, names nomic exactly when nomic's is and granite's is not, and reads
      "Tie" exactly when neither is marked: a third model winning, or no score beating
      the sentinel, both read as "Tie". */
  lemma WinnerLabelNamesWinner(results: map<string, TaskResult>)
    requires SelfNamed(results)
    ensures WinnerLabel(results) in {Granite, Nomic, "Tie"}
    ensures WinnerLabel(results) == Granite <==> Granite in results && results[Granite].winner == Granite
    ensures WinnerLabel(results) == Nomic <==>
      Nomic in results && results[Nomic].winner == Nomic && !(Granite in results && results[Granite].winner == Granite)
    ensures WinnerLabel(results) == "Tie" <==>
      !(Granite in results && results[Granite].winner == Granite) && !(Nomic in results && results[Nomic].winner == Nomic)
  {
  }

  /** The decimal digits of a task number, as `%d` prints them. */
  function DecimalString(n: nat): (s: string)
    ensures |s| >= 1
    ensures forall i :: 0 <= i < |s| ==> '0' <= s[i] <= '9'
    ensures s[0] == '0' <==> n == 0
    ensures |s| > 1 ==> s[0] != '0'
    decreases n
  {
    if n < 10 then [Digit(n)] else DecimalString(n / 10) + [Digit(n % 10)]
  }

  function Digit(d: nat): (c: char)
    requires d < 10
    ensures '0' <= c <= '9' && c as int - '0' as int == d
  {
    ('0' as int + d) as char
  }

  /** The number a string of decimal digits denotes. */
  function DigitsValue(s: string): nat
    requires forall i :: 0 <= i < |s| ==> '0' <= s[i] <= '9'
    decreases |s|
  {
    if |s| == 0 then 0 else DigitsValue(s[..|s| - 1]) * 10 + (s[|s| - 1] as int - '0' as int)
  }

  /** Reading back a printed task number gives the number. */
  lemma {:induction false} DecimalStringRoundTrip(n: nat)
    ensures DigitsValue(DecimalString(n)) == n
    decreases n
  {
    if n >= 10 {
      DecimalStringRoundTrip(n / 10);
      var s := DecimalString(n);
      assert s[..|s| - 1] == DecimalString(n / 10);
    }
  }

  /** The header row. */
  const Headers: seq<string> := ["Task", "Task Name", "Metric", Granite, Nomic, "Winner"]

  /** One table row: task number, name, metric name, both models' metrics as the
      formatting function prints them, and the Winner cell. */
  function TableRow(taskNum: nat, task: Task, results: map<string, TaskResult>, format: real -> string): (row: seq<string>)
    ensures |row| == |Headers|
  {
    [ DecimalString(taskNum), task.name, task.metricName,
      format(Lookup(results, Granite).metric), format(Lookup(results, Nomic).metric), WinnerLabel(results) ]
  }

  /** The rows for task numbers 1 to n, reading each task from the registry. */
  function TableRows(tasks: seq<Task>, results: map<nat, map<string, TaskResult>>, format: real -> string): (rows: seq<seq<string>>)
    requires forall k :: 1 <= k <= |tasks| ==> k in results
    ensures |rows| == |tasks|
    ensures forall i :: 0 <= i < |tasks| ==> rows[i] == TableRow(i + 1, tasks[i], results[i + 1], format)
    ensures forall r :: 0 <= r < |rows| ==> |rows[r]| == |Headers|
    decreases |tasks|
  {
    if |tasks| == 0 then []
    else
      var n := |tasks| - 1;
      TableRows(tasks[..n], results, format) + [TableRow(n + 1, tasks[n], results[n + 1], format)]
  }

  /** The width of column c: the header's length, folded through max with the length of
      every row's cell in that column. */
  function Width(rows: seq<seq<string>>, c: nat): int
    requires c < |Headers|
    requires forall r :: 0 <= r < |rows| ==> |rows[r]| == |Headers|
    decreases |rows|
  {
    if |rows| == 0 then |Headers[c]|
    else Max(Width(rows[..|rows| - 1], c), |rows[|rows| - 1][c]|)
  }

  /** A column is as wide as its header and as its widest cell, and no wider. */
  lemma {:induction false} WidthIsWidest(rows: seq<seq<string>>, c: nat)
    requires c < |Headers|
    requires forall r :: 0 <= r < |rows| ==> |rows[r]| == |Headers|
    ensures Width(rows, c) >= |Headers[c]|
    ensures forall r :: 0 <= r < |rows| ==> Width(rows, c) >= |rows[r][c]|
    ensures Width(rows, c) == |Headers[c]| || exists r :: 0 <= r < |rows| && Width(rows, c) == |rows[r][c]|
    decreases |rows|
  {
    if |rows| > 0 {
      var n := |rows| - 1;
      WidthIsWidest(rows[..n], c);
      assert forall r :: 0 <= r < n ==> rows[..n][r] == rows[r];
    }
  }

  /** The six column widths. */
  function Widths(rows: seq<seq<string>>): (widths: seq<int>)
    requires forall r :: 0 <= r < |rows| ==> |rows[r]| == |Headers|
  {
    [Width(rows, 0), Width(rows, 1), Width(rows, 2), Width(rows, 3), Width(rows, 4), Width(rows, 5)]
  }

  /** main's width loop over the six max*Width variables. */
  method ColumnWidths(rows: seq<seq<string>>) returns (widths: seq<int>)
    requires forall r :: 0 <= r < |rows| ==> |rows[r]| == |Headers|
    ensures widths == Widths(rows)
    ensures forall c :: 0 <= c < |Headers| ==>
      widths[c] >= |Headers[c]| && forall r :: 0 <= r < |rows| ==> widths[c] >= |rows[r][c]|
  {
    var taskWidth, nameWidth, metricWidth := |Headers[0]|, |Headers[1]|, |Headers[2]|;
    var graniteWidth, nomicWidth, winnerWidth := |Headers[3]|, |Headers[4]|, |Headers[5]|;
    for i := 0 to |rows|
      invariant taskWidth == Width(rows[..i], 0) && nameWidth == Width(rows[..i], 1)
      invariant metricWidth == Width(rows[..i], 2) && graniteWidth == Width(rows[..i], 3)
      invariant nomicWidth == Width(rows[..i], 4) && winnerWidth == Width(rows[..i], 5)
    {
      assert rows[..i + 1][..i] == rows[..i];
      var row := rows[i];
      taskWidth := Max(taskWidth, |row[0]|);
      nameWidth := Max(nameWidth, |row[1]|);
      metricWidth := Max(metricWidth, |row[2]|);
      graniteWidth := Max(graniteWidth, |row[3]|);
      nomicWidth := Max(nomicWidth, |row[4]|);
      winnerWidth := Max(winnerWidth, |row[5]|);
    }
    assert rows[..|rows|] == rows;
    widths := [taskWidth, nameWidth, metricWidth, graniteWidth, nomicWidth, winnerWidth];
    forall c | 0 <= c < |Headers|
      ensures widths[c] >= |Headers[c]| && forall r :: 0 <= r < |rows| ==> widths[c] >= |rows[r][c]|
    {
      WidthIsWidest(rows, c);
    }
  }

  /** Whether `model`'s entry in a probe's map is marked as the winner. */
  predicate Won(results: map<string, TaskResult>, model: string)
  {
    Lookup(results, model).winner == model
  }

  /** The win counters after the tally loop: granite first, nomic only when granite
      did not win. */
  function Tally(outcomes: seq<map<string, TaskResult>>): (counts: (nat, nat))
    decreases |outcomes|
  {
    if |outcomes| == 0 then (0, 0)
    else
      var (graniteWins, nomicWins) := Tally(outcomes[..|outcomes| - 1]);
      var results := outcomes[|outcomes| - 1];
      if Won(results, Granite) then (graniteWins + 1, nomicWins)
      else if Won(results, Nomic) then (graniteWins, nomicWins + 1)
      else (graniteWins, nomicWins)
  }

  /** How many of the maps mark `model`. */
  function Wins(outcomes: seq<map<string, TaskResult>>, model: string): nat
    decreases |outcomes|
  {
    if |outcomes| == 0 then 0
    else Wins(outcomes[..|outcomes| - 1], model) + if Won(outcomes[|outcomes| - 1], model) then 1 else 0
  }

  /** Each task adds to at most one counter, so together they never exceed the number of
      tasks; and since a Run marks at most one model, each counter is exactly the number
      of tasks that model won. */
  lemma {:induction false} TallyCountsWins(outcomes: seq<map<string, TaskResult>>)
    requires forall i :: 0 <= i < |outcomes| ==> AtMostOneMarked(outcomes[i])
    ensures Tally(outcomes).0 + Tally(outcomes).1 <= |outcomes|
    ensures Tally(outcomes) == (Wins(outcomes, Granite), Wins(outcomes, Nomic))
    decreases |outcomes|
  {
    if |outcomes| > 0 {
      var n := |outcomes| - 1;
      assert forall i :: 0 <= i < n ==> outcomes[..n][i] == outcomes[i];
      TallyCountsWins(outcomes[..n]);
      NotBothWon(outcomes[n]);
    }
  }

  /** A map with at most one marked entry is not won by both compared models. */
  lemma NotBothWon(results: map<string, TaskResult>)
    requires AtMostOneMarked(results)
    ensures !(Won(results, Granite) && Won(results, Nomic))
  {
    assert Granite[0] != Nomic[0];
  }

  /** The task maps in task-number order. */
  function InOrder(results: map<nat, map<string, TaskResult>>, n: nat): (outcomes: seq<map<string, TaskResult>>)
    requires forall k :: 1 <= k <= n ==> k in results
    ensures |outcomes| == n && forall i :: 0 <= i < n ==> outcomes[i] == results[i + 1]
    decreases n
  {
    if n == 0 then [] else InOrder(results, n - 1) + [results[n]]
  }

  /** main's tally loop over task numbers 1 to n. */
  method TallyWins(results: map<nat, map<string, TaskResult>>, n: nat) returns (graniteWins: nat, nomicWins: nat)
    requires forall k :: 1 <= k <= n ==> k in results
    ensures (graniteWins, nomicWins) == Tally(InOrder(results, n))
  {
    graniteWins, nomicWins := 0, 0;
    ghost var outcomes := InOrder(results, n);
    for taskNum := 1 to n + 1
      invariant (graniteWins, nomicWins) == Tally(outcomes[..taskNum - 1])
    {
      assert outcomes[..taskNum][..taskNum - 1] == outcomes[..taskNum - 1];
      if Lookup(results[taskNum], Granite).winner == Granite {
        graniteWins := graniteWins + 1;
      } else if Lookup(results[taskNum], Nomic).winner == Nomic {
        nomicWins := nomicWins + 1;
      }
    }
    assert outcomes[..n] == outcomes;
  }

  /** The closing line of the report. */
  datatype Verdict = GraniteMoreReliable | NomicMoreReliable | EquallyReliable

  /** The verdict follows the comparison of the two counters; equal counts are a draw. */
  function VerdictOf(graniteWins: nat, nomicWins: nat): (v: Verdict)
    ensures v == GraniteMoreReliable <==> graniteWins > nomicWins
    ensures v == NomicMoreReliable <==> nomicWins > graniteWins
    ensures v == EquallyReliable <==> graniteWins == nomicWins
  {
    if graniteWins > nomicWins then GraniteMoreReliable
    else if nomicWins > graniteWins then NomicMoreReliable
    else EquallyReliable
  }

  /** Everything main reports after a successful run. */
  datatype Report = Report(rows: seq<seq<string>>, widths: seq<int>, graniteWins: nat, nomicWins: nat, verdict: Verdict)

  /** The report for a registry and the results of all its tasks. */
  function ReportOf(tasks: seq<Task>, results: map<nat, map<string, TaskResult>>, format: real -> string): Report
    requires forall k :: 1 <= k <= |tasks| ==> k in results
  {
    var rows := TableRows(tasks, results, format);
    var (graniteWins, nomicWins) := Tally(InOrder(results, |tasks|));
    Report(rows, Widths(rows),
           graniteWins, nomicWins, VerdictOf(graniteWins, nomicWins))
  }

  /** main after configuration: the task loop, then the table and the tally. The
      metric cells' `%.4f` rendering is the parameter `format`. */
  method RunProgram(registry: Registry, models: seq<string>, its: seq<Iteration>, env: Env, format: real -> string,
                    ghost outcomes: seq<Result<map<string, TaskResult>, Error>>)
    returns (r: Result<Report, Error>)
    requires Runnable(registry.tasks, models, its)
    requires AreOutcomes(outcomes, registry.tasks, models, its, env)
    ensures r.Err? <==> RunAll(registry.tasks, outcomes).Err?
    ensures r.Err? ==> r.error.TaskFailed?
    ensures r.Ok? ==> r.value == ReportOf(registry.tasks, RunAll(registry.tasks, outcomes).value, format)
  {
    var results := RunTasks(registry, models, its, env, outcomes);
    if results.Err? {
      RunAllFirstFailure(registry.tasks, outcomes);
      return Err(results.error);
    }
    var rows := TableRows(registry.tasks, results.value, format);
    var widths := ColumnWidths(rows);
    var graniteWins, nomicWins := TallyWins(results.value, |registry.tasks|);
    return Ok(Report(rows, widths, graniteWins, nomicWins, VerdictOf(graniteWins, nomicWins)));
  }

  /** Over a whole successful run, every row's Winner cell and both counters agree with
      the models each Run marked, and the counters add up to at most the task count. */
  lemma ReportAgreesWithRuns(tasks: seq<Task>, models: seq<string>, its: seq<Iteration>, env: Env, format: real -> string,
                              outcomes: seq<Result<map<string, TaskResult>, Error>>)
    requires Runnable(tasks, models, its) && AreOutcomes(outcomes, tasks, models, its, env)
    requires RunAll(tasks, outcomes).Ok?
    ensures var results := RunAll(tasks, outcomes).value;
      var report := ReportOf(tasks, results, format);
      && report.graniteWins == Wins(InOrder(results, |tasks|), Granite)
      && report.nomicWins == Wins(InOrder(results, |tasks|), Nomic)
      && report.graniteWins + report.nomicWins <= |tasks|
      && forall i :: 0 <= i < |tasks| ==>
           (report.rows[i][5] == Granite <==> Won(results[i + 1], Granite))
  {
    var results := RunAll(tasks, outcomes).value;
    var ordered := InOrder(results, |tasks|);
    forall i | 0 <= i < |tasks|
      ensures SelfNamed(ordered[i]) && AtMostOneMarked(ordered[i])
    {
      assert ordered[i] == results[i + 1] && Ok(results[i + 1]) == outcomes[i];
      RunMarksAtMostOne(tasks[i].probe, models, its[i], env);
    }
    TallyCountsWins(ordered);
    forall i | 0 <= i < |tasks|
      ensures TableRow(i + 1, tasks[i], ordered[i], format)[5] == Granite <==> Won(ordered[i], Granite)
    {
      WinnerLabelNamesWinner(ordered[i]);
    }
  }
}
