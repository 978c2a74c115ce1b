/** The LegalBench example driver: runs one task on the first examples of
    its test split, scoring each example's reference answer as if a model
    had produced it, or runs every task that is not graded by hand, keeping
    one task's failure from stopping the rest. */
module LegalBenchEval {
  import opened Wrappers
  import opened Values
  import Scoring
  import Slicing
  import opened LegalBenchHandler

  /** The configuration a task run uses: the task names the dataset subset,
      the split is `test`, and rows carry `text` and `answer` columns. */
  function RunTaskConfig(taskName: string): (c: TaskConfig)
    ensures c.datasetSubset == taskName && NewHandler(c).currentTask == taskName
    ensures c.datasetSplit == "test" && c.questionKey == "text" && c.answerKey == "answer"
  {
    TaskConfig("legalbench", DatasetRepository, taskName, "test", "text", "answer")
  }

  /** What a task run shows for one example. */
  datatype ExampleReport = ExampleReport(prompt: string, expected: string, response: string, correct: bool)

  /** Processes one example: renders its prompt, then scores its reference
      answer (or `Unknown` when it has none) against itself. */
  function ExampleStep(h: Handler, env: Collaborators, row: Row): (r: Result<ExampleReport, Error>)
    ensures var prompt := GeneratePrompt(h, env, row);
            var verdict := CheckCorrectness(h, env, row, Get(row, h.config.answerKey, "Unknown"));
            && (r.Success? <==> prompt.Success? && verdict.Success?)
            && (prompt.Failure? ==> r == Failure(prompt.error))
            && (prompt.Success? && verdict.Failure? ==> r == Failure(verdict.error))
            && (r.Success? ==>
                  r.value == ExampleReport(prompt.value, Get(row, h.config.answerKey, "N/A"),
                                           Get(row, h.config.answerKey, "Unknown"), verdict.value))
  {
    var prompt :- GeneratePrompt(h, env, row);
    var response := Get(row, h.config.answerKey, "Unknown");
    var correct :- CheckCorrectness(h, env, row, response);
    Success(ExampleReport(prompt, Get(row, h.config.answerKey, "N/A"), response, correct))
  }

  /** Processes the examples in order. The first failing example ends the
      run with its error; otherwise there is one report per example. */
  function CheckExamples(h: Handler, env: Collaborators, rows: seq<Row>): (r: Result<seq<ExampleReport>, Error>)
    ensures r.Success? <==> forall i :: 0 <= i < |rows| ==> ExampleStep(h, env, rows[i]).Success?
    ensures r.Success? ==> |r.value| == |rows|
    ensures r.Success? ==> forall i :: 0 <= i < |rows| ==> r.value[i] == ExampleStep(h, env, rows[i]).value
    ensures r.Failure? ==>
              exists i :: 0 <= i < |rows| && ExampleStep(h, env, rows[i]).Failure?
                && r.error == ExampleStep(h, env, rows[i]).error
                && forall j :: 0 <= j < i ==> ExampleStep(h, env, rows[j]).Success?
  {
    if |rows| == 0 then Success([])
    else
      var first :- ExampleStep(h, env, rows[0]);
      var rest :- CheckExamples(h, env, rows[1..]);
      Success([first] + rest)
  }

  /** A successful example was scored on its own reference answer: the
      response shown is the expected answer, and both are the row's
      `answer` cell. */
  lemma ResponseIsReference(h: Handler, env: Collaborators, row: Row)
    requires ExampleStep(h, env, row).Success?
    ensures h.config.answerKey in row
    ensures ExampleStep(h, env, row).value.response == ExampleStep(h, env, row).value.expected
                                                    == row[h.config.answerKey]
  {
  }

  /** How many stored rows a task run examines: the first `numExamples`, or
      all of them when the count is not positive. */
  function ExamplesTaken(numExamples: int, stored: nat): (m: nat)
    ensures m <= stored
    ensures numExamples <= 0 ==> m == stored
    ensures numExamples > 0 ==> m == Slicing.Min(numExamples, stored)
  {
    if numExamples > 0 then Slicing.Min(numExamples, stored) else stored
  }

  /** The handler a task run uses. */
  function TaskHandler(taskName: string): Handler {
    NewHandler(RunTaskConfig(taskName))
  }

  /** A task run loads a prefix of the task's stored test split. */
  lemma TaskRows(env: Collaborators, taskName: string, numExamples: int)
    requires env.loadDataset(DatasetRepository, taskName, "test").Success?
    ensures var stored := env.loadDataset(DatasetRepository, taskName, "test").value;
            LoadAndFilterDataset(TaskHandler(taskName), env, 0, numExamples, None, None, None)
            == Success(stored[..ExamplesTaken(numExamples, |stored|)])
  {
    var stored := env.loadDataset(DatasetRepository, taskName, "test").value;
    var m := ExamplesTaken(numExamples, |stored|);
    var r := LoadAndFilterDataset(TaskHandler(taskName), env, 0, numExamples, None, None, None);
    assert r.Success?;
    if numExamples > 0 {
      assert |r.value| == m;
      assert r.value == stored[..m];
    } else {
      assert r.value == stored[0..];
    }
  }

  /** Processing the first `m` rows, stated about the rows themselves. */
  lemma CheckPrefix(h: Handler, env: Collaborators, rows: seq<Row>, m: nat)
    requires m <= |rows|
    ensures var r := CheckExamples(h, env, rows[..m]);
            && (r.Success? <==> forall i :: 0 <= i < m ==> ExampleStep(h, env, rows[i]).Success?)
            && (r.Failure? ==>
                  exists i :: 0 <= i < m
                    && ExampleStep(h, env, rows[i]).Failure?
                    && r.error == ExampleStep(h, env, rows[i]).error
                    && forall j :: 0 <= j < i ==> ExampleStep(h, env, rows[j]).Success?)
            && (r.Success? ==>
                  |r.value| == m && forall i :: 0 <= i < m ==> r.value[i] == ExampleStep(h, env, rows[i]).value)
  {
    var prefix := rows[..m];
    assert forall i :: 0 <= i < m ==> prefix[i] == rows[i];
    var r := CheckExamples(h, env, prefix);
    if r.Failure? {
      var i :| 0 <= i < m && ExampleStep(h, env, prefix[i]).Failure?
               && r.error == ExampleStep(h, env, prefix[i]).error
               && forall j :: 0 <= j < i ==> ExampleStep(h, env, prefix[j]).Success?;
      assert ExampleStep(h, env, rows[i]).Failure?;
    }
  }

  /** Runs one task on the window `[0, numExamples)` of its test split; a
      non-positive count takes the whole split. */
  function RunTask(env: Collaborators, taskName: string, numExamples: int): (r: Result<seq<ExampleReport>, Error>)
    ensures var stored := env.loadDataset(DatasetRepository, taskName, "test");
            && (stored.Failure? ==> r == Failure(stored.error))
            && (stored.Success? ==>
                  var m := ExamplesTaken(numExamples, |stored.value|);
                  && (r.Success? <==> forall i :: 0 <= i < m ==>
                        ExampleStep(TaskHandler(taskName), env, stored.value[i]).Success?)
                  && (r.Failure? ==>
                        exists i :: 0 <= i < m
                          && ExampleStep(TaskHandler(taskName), env, stored.value[i]).Failure?
                          && r.error == ExampleStep(TaskHandler(taskName), env, stored.value[i]).error
                          && forall j :: 0 <= j < i ==>
                               ExampleStep(TaskHandler(taskName), env, stored.value[j]).Success?)
                  && (r.Success? ==>
                        |r.value| == m
                        && forall i :: 0 <= i < m ==>
                             r.value[i] == ExampleStep(TaskHandler(taskName), env, stored.value[i]).value))
  {
    var h := TaskHandler(taskName);
    var data :- LoadAndFilterDataset(h, env, 0, numExamples, None, None, None);
    var stored := env.loadDataset(DatasetRepository, taskName, "test").value;
    TaskRows(env, taskName, numExamples);
    CheckPrefix(h, env, stored, ExamplesTaken(numExamples, |stored|));
    CheckExamples(h, env, data)
  }

  /** An oracle that judges every response identical to its reference
      correct. */
  ghost predicate AcceptsExactCopies(evaluate: (string, seq<string>, seq<string>) -> Result<Scoring.ScoreResult, Error>) {
    forall task, answers: seq<string> | |answers| == 1 ::
      evaluate(task, answers, answers).Success?
      && Scoring.Verdict(evaluate(task, answers, answers).value) == Success(true)
  }

  /** A renderer that never raises and yields one prompt per row. */
  ghost predicate RendersEveryBatch(render: (string, seq<Row>) -> Result<seq<string>, Error>) {
    forall template, rows :: render(template, rows).Success? && |render(template, rows).value| == |rows|
  }

  /** When templates render, every example carries an answer and the oracle
      accepts exact copies, a task run succeeds and every example is judged
      correct: each response is its own reference. */
  lemma SelfScoredRunIsAllCorrect(env: Collaborators, taskName: string, numExamples: int)
    requires RendersEveryBatch(env.renderPrompts)
    requires env.readTemplate(TemplatePath(env.templateRoot, taskName)).Success?
    requires AcceptsExactCopies(env.evaluate)
    requires env.loadDataset(DatasetRepository, taskName, "test").Success?
    requires forall row <- env.loadDataset(DatasetRepository, taskName, "test").value :: "answer" in row
    ensures RunTask(env, taskName, numExamples).Success?
    ensures forall report <- RunTask(env, taskName, numExamples).value :: report.correct
  {
    var h := TaskHandler(taskName);
    var stored := env.loadDataset(DatasetRepository, taskName, "test").value;
    var m := ExamplesTaken(numExamples, |stored|);
    forall i | 0 <= i < m
      ensures ExampleStep(h, env, stored[i]).Success? && ExampleStep(h, env, stored[i]).value.correct
    {
      var row := stored[i];
      assert env.renderPrompts(Template(h, env).value, [row]).Success?;
      var answer := row["answer"];
      assert [answer] == [Get(row, "answer", "Unknown")];
      assert |[answer]| == 1;
    }
    var r := RunTask(env, taskName, numExamples);
    assert r.Success?;
    forall report <- r.value
      ensures report.correct
    {
      var i :| 0 <= i < |r.value| && r.value[i] == report;
      assert report == ExampleStep(h, env, stored[i]).value;
    }
  }


  // ----- Batch mode -----

  function LowerChar(c: char): char {
    if 'A' <= c <= 'Z' then (c as int - 'A' as int + 'a' as int) as char else c
  }

  function Lower(s: string): (r: string)
    ensures |r| == |s|
  {
    seq(|s|, i requires 0 <= i < |s| => LowerChar(s[i]))
  }

  /** Whether the task argument asks for every task. */
  predicate SelectsAll(taskName: string) {
    Lower(taskName) == "all"
  }

  /** `all` selects batch mode in any mix of letter cases, and nothing else
      does. */
  lemma SelectsAllIff(taskName: string)
    ensures SelectsAll(taskName) <==>
              |taskName| == 3 && taskName[0] in "aA" && taskName[1] in "lL" && taskName[2] in "lL"
  {
    if |taskName| == 3 {
      var l := Lower(taskName);
      assert l[0] == LowerChar(taskName[0]) && l[1] == LowerChar(taskName[1]) && l[2] == LowerChar(taskName[2]);
      if taskName[0] in "aA" && taskName[1] in "lL" && taskName[2] in "lL" {
        assert l == "all";
      }
    }
  }

  /** The tasks a batch attempts: those not graded by hand, in list order. */
  function Eligible(tasks: seq<string>, manual: set<string>): (r: seq<string>)
    ensures |r| <= |tasks|
  {
    if |tasks| == 0 then []
    else (if tasks[0] in manual then [] else [tasks[0]]) + Eligible(tasks[1..], manual)
  }

  /** A task is attempted exactly when it is listed and not graded by hand. */
  lemma {:induction false} EligibleIff(tasks: seq<string>, manual: set<string>, t: string)
    ensures t in Eligible(tasks, manual) <==> t in tasks && t !in manual
  {
    if |tasks| > 0 {
      EligibleIff(tasks[1..], manual, t);
      assert tasks == [tasks[0]] + tasks[1..];
    }
  }

  lemma {:induction false} EligibleAppend(tasks: seq<string>, t: string, manual: set<string>)
    ensures Eligible(tasks + [t], manual) == Eligible(tasks, manual) + (if t in manual then [] else [t])
  {
    if |tasks| > 0 {
      assert (tasks + [t])[1..] == tasks[1..] + [t];
      EligibleAppend(tasks[1..], t, manual);
    } else {
      assert tasks + [t] == [t];
    }
  }

  /** One task's fate in a batch: its reports, or the error it raised. */
  datatype TaskAttempt = TaskAttempt(task: string, outcome: Result<seq<ExampleReport>, Error>)

  /** Runs every eligible task in order. A task's error is recorded as its
      outcome and the batch goes on, so the list of attempts depends only on
      the task list and the hand-graded set, never on earlier outcomes. */
  method RunBatch(env: Collaborators, tasks: seq<string>, manual: set<string>, numExamples: int)
    returns (attempts: seq<TaskAttempt>)
    ensures |attempts| == |Eligible(tasks, manual)|
    ensures forall i :: 0 <= i < |attempts| ==>
              attempts[i] == TaskAttempt(Eligible(tasks, manual)[i], RunTask(env, Eligible(tasks, manual)[i], numExamples))
  {
    attempts := [];
    var i := 0;
    while i < |tasks|
      invariant 0 <= i <= |tasks|
      invariant |attempts| == |Eligible(tasks[..i], manual)|
      invariant forall j :: 0 <= j < |attempts| ==>
                  attempts[j] == TaskAttempt(Eligible(tasks[..i], manual)[j], RunTask(env, Eligible(tasks[..i], manual)[j], numExamples))
    {
      var task := tasks[i];
      assert tasks[..i + 1] == tasks[..i] + [task];
      EligibleAppend(tasks[..i], task, manual);
      if task !in manual {
        var outcome := RunTask(env, task, numExamples);
        attempts := attempts + [TaskAttempt(task, outcome)];
      }
      i := i + 1;
    }
    assert tasks[..|tasks|] == tasks;
  }

  /** The driver: `all` (in any case) runs the batch, which never fails as a
      whole; any other name runs that one task, whose failure is the
      driver's failure. */
  method RunLegalBench(env: Collaborators, tasks: seq<string>, manual: set<string>, taskName: string, numExamples: int)
    returns (r: Result<seq<TaskAttempt>, Error>)
    ensures SelectsAll(taskName) ==>
              r.Success? && |r.value| == |Eligible(tasks, manual)|
              && forall i :: 0 <= i < |r.value| ==>
                   r.value[i] == TaskAttempt(Eligible(tasks, manual)[i], RunTask(env, Eligible(tasks, manual)[i], numExamples))
    ensures !SelectsAll(taskName) && RunTask(env, taskName, numExamples).Failure? ==>
              r == Failure(RunTask(env, taskName, numExamples).error)
    ensures !SelectsAll(taskName) && RunTask(env, taskName, numExamples).Success? ==>
              r == Success([TaskAttempt(taskName, RunTask(env, taskName, numExamples))])
  {
    if SelectsAll(taskName) {
      var attempts := RunBatch(env, tasks, manual, numExamples);
      r := Success(attempts);
    } else {
      var outcome := RunTask(env, taskName, numExamples);
      if outcome.Failure? {
        r := Failure(outcome.error);
      } else {
        r := Success([TaskAttempt(taskName, outcome)]);
      }
    }
  }
}
