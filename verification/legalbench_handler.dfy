/** The LegalBench task handler: loads a window of a task's dataset, renders
    one example into a prompt through the benchmark's template machinery,
    and scores a response with the benchmark's own oracle. The dataset
    store, the template files, the renderer and the oracle are parameters. */
module LegalBenchHandler {
  import opened Wrappers
  import opened Values
  import Scoring
  import Slicing

  /** The task description a handler is built from. */
  datatype TaskConfig = TaskConfig(
    handler: string,
    datasetPath: string,
    datasetSubset: string,
    datasetSplit: string,
    questionKey: string,
    answerKey: string)

  /** A handler keeps its configuration and the task it renders prompts for
      and scores against, which is fixed at construction. */
  datatype Handler = Handler(config: TaskConfig, currentTask: string)

  /** The external collaborators. Each may raise, so each returns a `Result`. */
  datatype Collaborators = Collaborators(
    /** (dataset path, subset, split) to the stored rows, in order. */
    loadDataset: (string, string, string) -> Result<seq<Row>, Error>,
    /** The directory that holds the benchmark's `tasks` template tree. */
    templateRoot: string,
    /** Template file path to its text. */
    readTemplate: string -> Result<string, Error>,
    /** Renders every row of a batch with a template. */
    renderPrompts: (string, seq<Row>) -> Result<seq<string>, Error>,
    /** (task, generations, references) to the oracle's score. */
    evaluate: (string, seq<string>, seq<string>) -> Result<Scoring.ScoreResult, Error>)

  /** The dataset repository the handler always loads from. */
  const DatasetRepository := "nguha/legalbench"

  /** Explanation attached to an incorrect response. */
  const IncorrectReason := "Solution is incorrect."

  function NewHandler(config: TaskConfig): Handler {
    Handler(config, config.datasetSubset)
  }

  // ----- Template location -----

  /** POSIX `os.path.join` of two components: an absolute second component
      replaces the first; otherwise a separator is put between them unless
      the first is empty or already ends in one. */
  function Join(a: string, b: string): string {
    if |b| > 0 && b[0] == '/' then b
    else if |a| == 0 || a[|a| - 1] == '/' then a + b
    else a + "/" + b
  }

  /** Location of a task's base prompt: `root/tasks/<task>/base_prompt.txt`,
      joined component by component. */
  function TemplatePath(root: string, task: string): string {
    Join(Join(Join(root, "tasks"), task), "base_prompt.txt")
  }

  /** A task name that names one entry of the `tasks` directory. */
  predicate PlainName(task: string) {
    |task| > 0 && (forall i :: 0 <= i < |task| ==> task[i] != '/') && task != "." && task != ".."
  }

  /** For a plain name the path is the tasks directory, a separator, the
      name, a separator and the file name. */
  lemma TemplatePathOfPlainName(root: string, task: string)
    requires PlainName(task)
    ensures TemplatePath(root, task) == Join(root, "tasks") + "/" + task + "/" + "base_prompt.txt"
  {
    var dir := Join(root, "tasks");
    assert dir[|dir| - 1] == 's';
    var sub := Join(dir, task);
    assert sub == dir + "/" + task;
    assert sub[|sub| - 1] == task[|task| - 1];
  }

  /** Distinct plain task names give distinct template paths. */
  lemma {:induction false} TemplatePathInjective(root: string, a: string, b: string)
    requires PlainName(a) && PlainName(b)
    requires TemplatePath(root, a) == TemplatePath(root, b)
    ensures a == b
  {
    TemplatePathOfPlainName(root, a);
    TemplatePathOfPlainName(root, b);
    var dir := Join(root, "tasks");
    var pa := TemplatePath(root, a);
    var pb := TemplatePath(root, b);
    assert |a| == |b|;
    forall i | 0 <= i < |a|
      ensures a[i] == b[i]
    {
      assert pa[|dir| + 1 + i] == a[i];
      assert pb[|dir| + 1 + i] == b[i];
    }
  }

  /** Joining collapses what a plain concatenation would keep apart: a
      trailing separator on the name is absorbed, and the empty name reads
      the file directly under the tasks directory. */
  lemma TemplatePathCollapses(root: string, task: string)
    requires PlainName(task)
    ensures TemplatePath(root, task + "/") == TemplatePath(root, task)
    ensures TemplatePath(root, "") == Join(root, "tasks") + "/" + "base_prompt.txt"
  {
    var dir := Join(root, "tasks");
    assert dir[|dir| - 1] == 's';
    assert Join(dir, task + "/") == dir + "/" + task + "/";
    assert Join(dir, "") == dir + "/";
    TemplatePathOfPlainName(root, task);
  }

  // ----- Prompt rendering -----

  /** The template text for the handler's current task. */
  function Template(h: Handler, env: Collaborators): Result<string, Error> {
    env.readTemplate(TemplatePath(env.templateRoot, h.currentTask))
  }

  /** Whenever the renderer succeeds it yields one prompt per row. */
  ghost predicate LengthPreserving(render: (string, seq<Row>) -> Result<seq<string>, Error>) {
    forall template, rows :: render(template, rows).Success? ==> |render(template, rows).value| == |rows|
  }

  /** Renders one example: its task's template is read, the example is
      wrapped in a one-row batch, and the first rendered prompt is returned.
      A failure to read the template or to render propagates; a renderer that
      returns nothing makes the indexing fail. */
  function GeneratePrompt(h: Handler, env: Collaborators, problem: Row): (r: Result<string, Error>)
    ensures Template(h, env).Failure? ==> r == Failure(Template(h, env).error)
    ensures Template(h, env).Success? ==>
              var rendered := env.renderPrompts(Template(h, env).value, [problem]);
              && (rendered.Failure? ==> r == Failure(rendered.error))
              && (rendered.Success? && |rendered.value| == 0 ==> r == Failure(IndexError))
              && (rendered.Success? && |rendered.value| > 0 ==> r == Success(rendered.value[0]))
  {
    var template :- Template(h, env);
    var prompts :- env.renderPrompts(template, [problem]);
    if |prompts| == 0 then Failure(IndexError) else Success(prompts[0])
  }

  /** With a length-preserving renderer that renders the one-row batch,
      the prompt is the whole of the rendered batch. */
  lemma SingleExampleRendering(h: Handler, env: Collaborators, problem: Row)
    requires LengthPreserving(env.renderPrompts)
    requires Template(h, env).Success?
    requires env.renderPrompts(Template(h, env).value, [problem]).Success?
    ensures GeneratePrompt(h, env, problem).Success?
    ensures env.renderPrompts(Template(h, env).value, [problem]).value
            == [GeneratePrompt(h, env, problem).value]
  {
    var prompts := env.renderPrompts(Template(h, env).value, [problem]).value;
    assert |prompts| == |[problem]|;
  }

  /** Scores one response: the oracle sees a one-item batch of the response
      and the example's reference answer, and its answer is thresholded at
      one half. A missing answer field raises `KeyError` before the oracle is
      called; oracle failures and an empty per-item list propagate. */
  function CheckCorrectness(h: Handler, env: Collaborators, problem: Row, generation: string): (r: Result<bool, Error>)
    ensures h.config.answerKey !in problem ==> r == Failure(KeyError(h.config.answerKey))
    ensures r.Success? ==>
              h.config.answerKey in problem
              && var score := env.evaluate(h.currentTask, [generation], [problem[h.config.answerKey]]);
                 score.Success?
                 && Scoring.SoleScore(score.value).Success?
                 && (r.value <==> Scoring.SoleScore(score.value).value >= 0.5)
    ensures h.config.answerKey in problem ==>
              var score := env.evaluate(h.currentTask, [generation], [problem[h.config.answerKey]]);
              && (score.Failure? ==> r == Failure(score.error))
              && (score.Success? ==> r == Scoring.Verdict(score.value))
  {
    var reference :- Lookup(problem, h.config.answerKey);
    var score :- env.evaluate(h.currentTask, [generation], [reference]);
    Scoring.Verdict(score)
  }

  /** The record kept per response. Fields start unset and are filled in by
      `UpdateResults`. */
  datatype ResponseEntry = ResponseEntry(content: string, correctness: Option<bool>, reason: Option<string>)

  /** Scores a response and builds its entry: the content is the response
      verbatim, the correctness is always set, and the reason is empty for a
      correct response and the fixed explanation otherwise. */
  function UpdateResults(h: Handler, env: Collaborators, problem: Row, response: string): (r: Result<ResponseEntry, Error>)
    ensures r.Success? <==> CheckCorrectness(h, env, problem, response).Success?
    ensures r.Failure? ==> r.error == CheckCorrectness(h, env, problem, response).error
    ensures r.Success? ==>
              && r.value.content == response
              && r.value.correctness == Some(CheckCorrectness(h, env, problem, response).value)
              && (r.value.correctness == Some(true) <==> r.value.reason == Some(""))
              && (r.value.correctness == Some(false) <==> r.value.reason == Some(IncorrectReason))
  {
    var entry := ResponseEntry(response, None, None);
    var correct :- CheckCorrectness(h, env, problem, response);
    if correct then
      Success(entry.(correctness := Some(true), reason := Some("")))
    else
      Success(entry.(correctness := Some(false), reason := Some(IncorrectReason)))
  }

  /** Python truthiness of an optional name: `None` and `""` are false. */
  predicate Truthy(name: Option<string>) {
    name.Some? && name.value != ""
  }

  /** An override when it is truthy, else the configured name. */
  function OrConfigured(override: Option<string>, configured: string): (r: string)
    ensures Truthy(override) ==> r == override.value
    ensures !Truthy(override) ==> r == configured
  {
    if Truthy(override) then override.value else configured
  }

  /** Loads the named subset and split of the benchmark's dataset (the
      overrides falling back to the configuration when falsy) and returns
      `rows[start:end]`, or `rows[start:]` when `end <= 0`; a negative start
      counts from the end. `difficulty` is
      accepted and ignored. */
  function LoadAndFilterDataset(h: Handler, env: Collaborators, start: int, end: int,
                                split: Option<string>, subset: Option<string>,
                                difficulty: Option<string>): (r: Result<seq<Row>, Error>)
    ensures var stored := env.loadDataset(DatasetRepository,
                                          OrConfigured(subset, h.config.datasetSubset),
                                          OrConfigured(split, h.config.datasetSplit));
            && (stored.Failure? ==> r == Failure(stored.error))
            && (stored.Success? && 0 <= start && end > 0 ==>
                  r.Success?
                  && |r.value| == Slicing.Max(0, Slicing.Min(end, |stored.value|) - start)
                  && forall i :: 0 <= i < |r.value| ==> r.value[i] == stored.value[start + i])
            && (stored.Success? && 0 <= start && end <= 0 ==>
                  r == Success(stored.value[Slicing.Min(start, |stored.value|)..]))
            && (stored.Success? ==>
                  r == Success(Slicing.PySlice(stored.value, start, if end > 0 then Some(end) else None)))
            && (stored.Success? && start < 0 && end <= 0 ==>
                  r == Success(stored.value[Slicing.Bound(start, |stored.value|)..]))
  {
    var taskName := OrConfigured(subset, h.config.datasetSubset);
    var rows :- env.loadDataset(DatasetRepository, taskName, OrConfigured(split, h.config.datasetSplit));
    Success(Slicing.Window(rows, start, end))
  }

  /** The configured dataset path plays no part in loading: two handlers that
      differ only in it load the same rows. */
  lemma DatasetPathIgnored(h: Handler, path: string, env: Collaborators, start: int, end: int,
                           split: Option<string>, subset: Option<string>, difficulty: Option<string>)
    ensures LoadAndFilterDataset(h.(config := h.config.(datasetPath := path)), env, start, end, split, subset, difficulty)
            == LoadAndFilterDataset(h, env, start, end, split, subset, difficulty)
  {
  }

  /** Without a subset override, a fresh handler loads the very task whose
      template renders the rows and whose oracle scores them; an override
      changes only the rows, since the current task is fixed at construction. */
  lemma DefaultLoadUsesCurrentTask(config: TaskConfig, subset: Option<string>)
    ensures NewHandler(config).config == config
    ensures !Truthy(subset) ==> OrConfigured(subset, config.datasetSubset) == NewHandler(config).currentTask
    ensures Truthy(subset) ==> OrConfigured(subset, config.datasetSubset) == subset.value
  {
  }
}
