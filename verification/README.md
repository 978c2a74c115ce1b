# LegalBench evaluation harness — Dafny model

This project models the decision logic of SkyThought's LegalBench task
handler, its example driver and its Weights & Biases run recorder:

- **Scoring** — the scoring oracle answers either with one scalar or with a
  per-item list (`ScoreResult = Scalar | PerItem`). The handler reads the
  scalar or the list's first element and judges it correct when it is at
  least 0.5. An empty list raises `IndexError`.
- **Slicing** — `dataset.iloc[start:end]` with Python's slice rules: negative
  bounds count from the end, and bounds are clamped. The handler's own rule is
  that `end <= 0` means "to the end".
- **LegalBenchHandler** — the task configuration and the handler built from it.
  The operations are:
  - `generate_prompt`: reads the task's template, renders a one-row batch and
    takes its sole prompt.
  - `check_correctness`: a one-item oracle call followed by the threshold.
  - `update_results`: builds the `{content, correctness, reason}` entry.
  - `load_and_filter_dataset`: falsy overrides fall back to the configuration,
    then the window above is taken.
- **Decimal** — the decimal text of a natural number, used for `pass@k` keys.
- **WandbLogger** — `init_wandb` and `log_eval_results`:
  - `init_wandb` injects the source revision under `git_sha`, or fails when
    there is no repository.
  - `log_eval_results` logs an ordered list of mappings: the metrics first,
    then one mapping per `pass@k` entry, then the configuration.
  - A reader (`ReadLog`) recovers every logged value from that list.
- **LegalBenchEval** — `run_task` and `main` from the example driver:
  - A task run loads `[0, n)` of the task's `test` split. Each example's
    reference answer is then scored as the model's response.
  - `all`, in any letter case, runs every task that is not graded by hand.
    Each task's failure is recorded and the batch moves on.
  - Any other name runs that one task, and its failure propagates.

The external collaborators are fields of `LegalBenchHandler.Collaborators`:
the dataset store, the template directory and file reader, the prompt
renderer and the scoring oracle. Each function returns a `Result`, so an
exception it raises propagates as in the source: out of the handler, out of
a single task run, and, in batch mode, into that task's recorded outcome. The revision lookup is an
`Option<string>` parameter of `InitWandb`. Backend calls are represented by
the payloads they receive.

The model records three behaviours of the code:
- `load_and_filter_dataset` always loads from `nguha/legalbench` and ignores
  the configured dataset path (`DatasetPathIgnored`).
- A subset override changes which rows are loaded. It does not change the
  task whose template and oracle are used, because that task is fixed when the
  handler is built (`DefaultLoadUsesCurrentTask`).
- The driver passes the example count as `end`, so a count of zero or less
  runs the whole split (`RunTask`).

Rendering is deterministic because the renderer is a function. No separate
lemma states this.

## Model

| member | source | states |
|---|---|---|
| Scoring.SoleScore | skythought/evals/tasks/legalbench/legalbench_handler.py:61-66 | the score read from an oracle answer is the scalar, or the first list element; it fails with IndexError exactly for an empty list |
| Scoring.Verdict | skythought/evals/tasks/legalbench/legalbench_handler.py:61-66 | the verdict is defined exactly when the score is, and is true iff that score is at least 0.5 |
| Scoring.SingletonAgreesWithScalar | skythought/evals/tasks/legalbench/legalbench_handler.py:62-66 | `PerItem([x] + rest)` and `Scalar(x)` give the same verdict; items after the first are ignored |
| Scoring.ThresholdIsInclusive | skythought/evals/tasks/legalbench/legalbench_handler.py:63-66 | exactly 0.5 is correct, every score below 0.5 is incorrect, every score at or above is correct |
| Scoring.VerdictMonotone | skythought/evals/tasks/legalbench/legalbench_handler.py:63-66 | raising a score never turns a correct verdict into an incorrect one |
| Slicing.Bound | skythought/evals/tasks/legalbench/legalbench_handler.py:104 | a slice bound within the length is kept, one beyond it is clamped to the length, and a negative one counts from the end, floored at 0 |
| Slicing.PySlice | skythought/evals/tasks/legalbench/legalbench_handler.py:104 | `rows[start:stop]` has length max(0, hi - lo) for the adjusted bounds and holds the rows from lo on, in order |
| Slicing.Window | skythought/evals/tasks/legalbench/legalbench_handler.py:104 | for any start the window is `rows[start:end]` when end > 0 and `rows[start:]` (from the adjusted start) when end <= 0; for start >= 0 and end > 0 it has length max(0, min(end, N) - start) and row i is rows[start + i] |
| Slicing.WindowIsContiguous | skythought/evals/tasks/legalbench/legalbench_handler.py:104 | for start >= 0 and end > 0 the window is the contiguous run rows[start..min(end, N)], or empty once start reaches that bound |
| Slicing.NegativeStartCountsFromEnd | skythought/evals/tasks/legalbench/legalbench_handler.py:104 | with end <= 0, a start of -k yields the last min(k, N) rows |
| LegalBenchHandler.TemplatePathOfPlainName | skythought/evals/tasks/legalbench/legalbench_handler.py:36-37 | for a non-empty task name without `/` that is not `.` or `..`, the joined path is `<root>/tasks/<task>/base_prompt.txt` |
| LegalBenchHandler.TemplatePathInjective | skythought/evals/tasks/legalbench/legalbench_handler.py:36-37 | distinct plain task names (non-empty, no `/`, not `.` or `..`) give distinct template paths |
| LegalBenchHandler.TemplatePathCollapses | skythought/evals/tasks/legalbench/legalbench_handler.py:36-37 | for every plain task name t, path joining absorbs a trailing separator (`t/` and `t` share a template) and the empty name reads `<root>/tasks/base_prompt.txt` |
| LegalBenchHandler.GeneratePrompt | skythought/evals/tasks/legalbench/legalbench_handler.py:27-47 | a template read failure or a renderer failure propagates unchanged; an empty rendering fails with IndexError; otherwise the prompt is the first output of rendering the one-row batch of the example |
| LegalBenchHandler.SingleExampleRendering | skythought/evals/tasks/legalbench/legalbench_handler.py:42-47 | with a length-preserving renderer that renders the example's batch, rendering succeeds and the rendered batch is exactly `[prompt]` |
| LegalBenchHandler.CheckCorrectness | skythought/evals/tasks/legalbench/legalbench_handler.py:49-66 | a missing answer field raises KeyError before the oracle runs; otherwise an oracle error propagates unchanged and a score gives its verdict (true iff the score read is at least 0.5, IndexError for an empty list) |
| LegalBenchHandler.UpdateResults | skythought/evals/tasks/legalbench/legalbench_handler.py:68-87 | the entry exists iff scoring succeeds (otherwise its error propagates); its content is the response verbatim, its correctness is always set to the verdict, and its reason is "" iff correct and "Solution is incorrect." iff incorrect |
| LegalBenchHandler.OrConfigured | skythought/evals/tasks/legalbench/legalbench_handler.py:94-100 | a truthy override is used; None or "" falls back to the configured name |
| LegalBenchHandler.LoadAndFilterDataset | skythought/evals/tasks/legalbench/legalbench_handler.py:89-104 | a loader failure propagates; a successful load always yields `rows[start:end]` (or `rows[start:]` when end <= 0, a negative start counting from the end); for start >= 0, end > 0 that is min(end, N) - start rows (at least 0) in order from `start` |
| LegalBenchHandler.DatasetPathIgnored | skythought/evals/tasks/legalbench/legalbench_handler.py:97-101 | the configured dataset path has no influence on what is loaded |
| LegalBenchHandler.DefaultLoadUsesCurrentTask | skythought/evals/tasks/legalbench/legalbench_handler.py:23-25 | without a subset override the handler loads the subset equal to its current task; an override is used as given |
| Decimal.ParseNatToString | skythought/evals/util/wandb_logger.py:50 | the decimal text of k used in `pass@k` reads back as k |
| Decimal.NatToStringInjective | skythought/evals/util/wandb_logger.py:50 | distinct k give distinct `pass@k` keys |
| WandbLogger.InitWandb | skythought/evals/util/wandb_logger.py:7-27 | start-up fails with NoGitRepository iff no revision resolves; otherwise the config (empty when missing) gains `git_sha` = revision, overwriting, and every other key keeps its value |
| WandbLogger.InitWandbIdempotent | skythought/evals/util/wandb_logger.py:18-21 | re-initialising with the tagged configuration and the same revision yields the same start-up payload |
| WandbLogger.PassRecords | skythought/evals/util/wandb_logger.py:48-50 | one mapping per pass@k entry, in iteration order, each holding the single key `pass@k` mapped to its rate |
| WandbLogger.LogEvalResults | skythought/evals/util/wandb_logger.py:30-52 | 2 + len(pass_at_k) records; the first has exactly the seven metric keys with the summary's, model's and task's values; then one single-key record per pass@k entry; the last is the configuration; an absent or empty pass_at_k gives exactly two records |
| WandbLogger.ReadPassRecordsRoundTrip | skythought/evals/util/wandb_logger.py:48-50 | reading the pass@k records back returns the entries in order |
| WandbLogger.LogRoundTrip | skythought/evals/util/wandb_logger.py:30-52 | every logged value (metrics, model, task, pass@k entries in order, configuration) can be read back from the log |
| LegalBenchEval.RunTaskConfig | skythought/evals/tasks/legalbench_eval/test.py:17-25 | a task run's subset (and so its current task) is the task name, its split is `test`, its question and answer keys are `text` and `answer` |
| LegalBenchEval.ExampleStep | skythought/evals/tasks/legalbench_eval/test.py:39-55 | one example succeeds iff its prompt renders and its reference answer (or `Unknown`) is scored; it fails with the prompt's error first, then the scoring error; a report holds the prompt, the expected answer (or `N/A`), the response and the verdict |
| LegalBenchEval.CheckExamples | skythought/evals/tasks/legalbench_eval/test.py:36-58 | examples are processed in order; the run succeeds iff every example does, with one report per example, and otherwise fails with the first failing example's error |
| LegalBenchEval.ResponseIsReference | skythought/evals/tasks/legalbench_eval/test.py:47-55 | a successfully scored example carries an answer, and the simulated response equals the expected answer, both being that cell |
| LegalBenchEval.TaskRows | skythought/evals/tasks/legalbench_eval/test.py:31 | when the task's test split loads, a task run examines exactly its first n rows, or all of them when n <= 0 |
| LegalBenchEval.RunTask | skythought/evals/tasks/legalbench_eval/test.py:9-58 | a task run loads (nguha/legalbench, task, test); a load failure propagates; after a successful load the run succeeds iff each of the first m = min(n, N) rows (all N when n <= 0) succeeds, and otherwise fails with the first failing row's error; a success reports m examples, report i being that of stored row i |
| LegalBenchEval.SelfScoredRunIsAllCorrect | skythought/evals/tasks/legalbench_eval/test.py:50-55 | with a readable template, a renderer that never raises and keeps length, answers on every row and an oracle that accepts exact copies, a task run succeeds and every example is correct |
| LegalBenchEval.SelectsAllIff | skythought/evals/tasks/legalbench_eval/test.py:69 | batch mode is selected iff the name is `all` in some mix of letter cases |
| LegalBenchEval.EligibleIff | skythought/evals/tasks/legalbench_eval/test.py:71-72 | a task is attempted in batch mode iff it is listed and not graded by hand |
| LegalBenchEval.RunBatch | skythought/evals/tasks/legalbench_eval/test.py:71-79 | attempts are exactly the eligible tasks in list order, each paired with its own run's outcome, whatever earlier tasks did |
| LegalBenchEval.RunLegalBench | skythought/evals/tasks/legalbench_eval/test.py:60-82 | `all` always succeeds with the batch's attempts; another name yields that task's single attempt, or its failure unchanged |

## Left out

- Fetching from the HuggingFace hub, the `.to_pandas()` conversion, reading `base_prompt.txt` from the installed benchmark package, the internals of `generate_prompts` and of `evaluate`, git, and the `wandb.init`/`wandb.log`/`wandb.finish` calls. These are remote I/O, the filesystem, version control, the network or foreign libraries. They are parameters of the model, or are represented by the payloads they receive.
- Printing, argparse and the `--list-tasks` column listing in test.py. These are console plumbing.
- `get_available_tasks` and `finish_wandb`. The first returns the benchmark's constant task list and the second is a bare backend call; neither has logic of its own.
- skythought/evals/util/wandb_sweep.py. It is a sample sweep with a floating-point objective and no harness logic.
- The result aggregator that computes accuracy, token statistics and pass@k lives elsewhere in the evaluation package, outside `legalbench_handler.py`, `test.py` and `wandb_logger.py`. Its summary is an input here.
- The dataset source is not de-duplicated per (dataset, subset, split) within a run. The code has no such cache and relies on the dataset library's own caching.
- Scoring.Verdict: scores are reals, so NaN and infinite oracle scores are not modelled. A NaN score would be judged incorrect, since `nan >= 0.5` is false.
- Scoring.SoleScore: only `list` answers take the per-item branch, as `isinstance(score, list)` requires. Tuples or arrays that the oracle might return are not modelled.
- LegalBenchHandler.TemplatePath: the path is the string POSIX `os.path.join` builds. How the file system resolves `.` and `..` components or links is not modelled, so injectivity is stated for plain task names only.
- LegalBenchHandler.LoadAndFilterDataset: only integer bounds are modelled. Non-integer `iloc` bounds are not.
- Values.Row: cells are text. Numeric or missing cells, which pandas may produce, are not modelled.
- WandbLogger.LogEvalResults: the summary is a record whose required keys are always present. The source would raise `KeyError` for a summary that lacks one.
- WandbLogger.PassKey: `pass@k` keys are modelled for natural-number k only. Other key types that a caller might use are not.
- WandbLogger.InitWandb: the source also writes `git_sha` into the caller's own dictionary when one is passed. The model returns the tagged configuration instead of mutating the argument.
- LegalBenchEval.SelectsAll: lower-casing covers ASCII letters only. Python's Unicode `lower()` maps no other character to `a` or `l`, so the selection is the same.
- LegalBenchEval.RunTask: the driver imports its handler from `skythought/evals/tasks/legalbench_eval/legalbench_handler.py` and `TaskConfig` from `skythought.evals.tasks.base`. Neither file is part of this model. The driver is modelled on `LegalBenchHandler`, the handler in `skythought/evals/tasks/legalbench/legalbench_handler.py`, on the assumption that the two handlers behave the same and that `TaskConfig` is the plain record the handler reads.
- LegalBenchEval.RunLegalBench: only `Exception` subclasses are caught by the batch loop. All the modelled errors are of that kind, and interrupts are not modelled.

Behaviour worth noting:
- The dataset repository is hard-coded; the configured dataset path is never read.
- The slice-length formula `max(0, min(end, N) - start)` holds only for `start >= 0`. A negative start counts from the end.
- Scores are not range-checked; only their comparison with 0.5 matters.
