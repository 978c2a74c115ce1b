/** The run recorder: the configuration handed to the tracking backend at
    start-up, tagged with the source revision, and the ordered mappings
    logged for one evaluation summary. Backend calls are represented by
    their payloads; the revision lookup is a parameter. */
module WandbLogger {
  import opened Wrappers
  import opened Values
  import Decimal

  /** The configuration key that carries the source revision. */
  const GitShaKey := "git_sha"

  /** What the backend's start-up call receives. */
  datatype RunStart = RunStart(project: string, name: Option<string>, config: Record)

  /** Starts a run. A missing configuration is an empty one; the resolved
      revision is written under `git_sha`, replacing any value already
      there. `revision` is the commit of the repository enclosing the working
      directory, `None` when there is none, in which case the run fails
      before the backend is contacted. */
  function InitWandb(project: string, name: Option<string>, config: Option<Record>,
                     revision: Option<string>): (r: Result<RunStart, Error>)
    ensures r.Failure? <==> revision.None?
    ensures r.Failure? ==> r.error == NoGitRepository
    ensures r.Success? ==>
              && r.value.project == project
              && r.value.name == name
              && r.value.config.Keys == config.GetOr(map[]).Keys + {GitShaKey}
              && r.value.config[GitShaKey] == Text(revision.value)
              && forall k :: k in config.GetOr(map[]) && k != GitShaKey ==>
                   r.value.config[k] == config.GetOr(map[])[k]
  {
    var base := if config.None? then map[] else config.value;
    match revision
    case None => Failure(NoGitRepository)
    case Some(sha) => Success(RunStart(project, name, base[GitShaKey := Text(sha)]))
  }

  /** Starting a run is idempotent on the configuration: feeding the tagged
      configuration back in with the same revision changes nothing. */
  lemma InitWandbIdempotent(project: string, name: Option<string>, config: Option<Record>, sha: string)
    ensures var first := InitWandb(project, name, config, Some(sha));
            InitWandb(project, name, Some(first.value.config), Some(sha)) == first
  {
    var tagged := config.GetOr(map[])[GitShaKey := Text(sha)];
    assert tagged[GitShaKey := Text(sha)] == tagged;
  }

  /** The run-level statistics handed to the recorder. `passAtK` keeps the
      mapping's iteration order; `None` stands for an absent key. */
  datatype Summary = Summary(
    accuracy: Value,
    totalCompletionTokens: Value,
    avgCompletionTokens: Value,
    totalPromptTokens: Value,
    avgPromptTokens: Value,
    passAtK: Option<seq<(nat, Value)>>,
    configuration: Record)

  /** The keys of the first logged mapping. */
  const MetricKeys: set<string> := {
    "accuracy", "total_completion_tokens", "avg_completion_tokens",
    "total_prompt_tokens", "avg_prompt_tokens", "model", "task" }

  function MetricsRecord(s: Summary, model: string, task: string): Record {
    map[
      "accuracy" := s.accuracy,
      "total_completion_tokens" := s.totalCompletionTokens,
      "avg_completion_tokens" := s.avgCompletionTokens,
      "total_prompt_tokens" := s.totalPromptTokens,
      "avg_prompt_tokens" := s.avgPromptTokens,
      "model" := Text(model),
      "task" := Text(task)]
  }

  /** The `pass@k` entries that get logged: none when the mapping is absent
      or empty, since both are falsy. */
  function LoggedPasses(passAtK: Option<seq<(nat, Value)>>): seq<(nat, Value)> {
    passAtK.GetOr([])
  }

  const PassPrefix := "pass@"

  /** The key under which the rate for `k` is logged. */
  function PassKey(k: nat): string {
    PassPrefix + Decimal.NatToString(k)
  }

  /** One single-key mapping per entry, in order. */
  function PassRecords(entries: seq<(nat, Value)>): (r: seq<Record>)
    ensures |r| == |entries|
    ensures forall i :: 0 <= i < |r| ==> r[i] == map[PassKey(entries[i].0) := entries[i].1]
  {
    if |entries| == 0 then []
    else [map[PassKey(entries[0].0) := entries[0].1]] + PassRecords(entries[1..])
  }

  /** The mappings logged for one summary, in order: the metrics with the
      model and task names, one mapping per `pass@k` entry, and finally the
      configuration. */
  function LogEvalResults(s: Summary, model: string, task: string): (r: seq<Record>)
    ensures |r| == 2 + |LoggedPasses(s.passAtK)|
    ensures r[0].Keys == MetricKeys
    ensures r[0]["accuracy"] == s.accuracy && r[0]["total_completion_tokens"] == s.totalCompletionTokens
            && r[0]["avg_completion_tokens"] == s.avgCompletionTokens
            && r[0]["total_prompt_tokens"] == s.totalPromptTokens
            && r[0]["avg_prompt_tokens"] == s.avgPromptTokens
            && r[0]["model"] == Text(model) && r[0]["task"] == Text(task)
    ensures forall i :: 0 <= i < |LoggedPasses(s.passAtK)| ==>
              r[1 + i].Keys == {PassKey(LoggedPasses(s.passAtK)[i].0)}
              && r[1 + i][PassKey(LoggedPasses(s.passAtK)[i].0)] == LoggedPasses(s.passAtK)[i].1
    ensures r[|r| - 1] == s.configuration
    ensures (s.passAtK.None? || s.passAtK == Some([])) ==> r == [r[0], s.configuration]
  {
    [MetricsRecord(s, model, task)] + PassRecords(LoggedPasses(s.passAtK)) + [s.configuration]
  }

  // ----- Reading a log back -----

  /** What a reader of the backend can recover from one call's log. */
  datatype LoggedRun = LoggedRun(
    accuracy: Value,
    totalCompletionTokens: Value,
    avgCompletionTokens: Value,
    totalPromptTokens: Value,
    avgPromptTokens: Value,
    model: string,
    task: string,
    passes: seq<(nat, Value)>,
    configuration: Record)

  predicate IsPassKey(key: string) {
    |key| > |PassPrefix| && key[..|PassPrefix|] == PassPrefix
    && forall i :: |PassPrefix| <= i < |key| ==> Decimal.IsDigit(key[i])
  }

  /** Reads a single-key `pass@k` mapping. */
  ghost function ReadPassRecord(rec: Record): Option<(nat, Value)> {
    if |rec.Keys| != 1 then None
    else
      var key :| key in rec.Keys;
      if IsPassKey(key) then Some((Decimal.ParseDigits(key[|PassPrefix|..]), rec[key])) else None
  }

  ghost function ReadPassRecords(recs: seq<Record>): Option<seq<(nat, Value)>> {
    if |recs| == 0 then Some([])
    else
      match (ReadPassRecord(recs[0]), ReadPassRecords(recs[1..]))
      case (Some(e), Some(rest)) => Some([e] + rest)
      case _ => None
  }

  ghost function ReadMetrics(rec: Record, passes: seq<(nat, Value)>, configuration: Record): Option<LoggedRun> {
    if MetricKeys <= rec.Keys && rec["model"].Text? && rec["task"].Text? then
      Some(LoggedRun(rec["accuracy"], rec["total_completion_tokens"], rec["avg_completion_tokens"],
                     rec["total_prompt_tokens"], rec["avg_prompt_tokens"],
                     rec["model"].s, rec["task"].s, passes, configuration))
    else None
  }

  /** Reads the metrics, the `pass@k` entries and the configuration back out
      of a log. */
  ghost function ReadLog(log: seq<Record>): Option<LoggedRun> {
    if |log| < 2 then None
    else
      match ReadPassRecords(log[1..|log| - 1])
      case None => None
      case Some(passes) => ReadMetrics(log[0], passes, log[|log| - 1])
  }

  lemma {:induction false} ReadPassRecordsRoundTrip(entries: seq<(nat, Value)>)
    ensures ReadPassRecords(PassRecords(entries)) == Some(entries)
  {
    if |entries| > 0 {
      var recs := PassRecords(entries);
      var k := entries[0].0;
      var key := PassKey(k);
      assert recs[0] == map[key := entries[0].1];
      assert recs[0].Keys == {key};
      assert key[|PassPrefix|..] == Decimal.NatToString(k);
      Decimal.ParseNatToString(k);
      assert ReadPassRecord(recs[0]) == Some(entries[0]);
      assert recs[1..] == PassRecords(entries[1..]);
      ReadPassRecordsRoundTrip(entries[1..]);
      assert [entries[0]] + entries[1..] == entries;
    }
  }

  /** Everything logged for a summary can be read back: the metrics, the
      model and task names, the `pass@k` entries in order (none when the
      mapping was absent or empty) and the configuration. */
  lemma LogRoundTrip(s: Summary, model: string, task: string)
    ensures ReadLog(LogEvalResults(s, model, task))
            == Some(LoggedRun(s.accuracy, s.totalCompletionTokens, s.avgCompletionTokens,
                              s.totalPromptTokens, s.avgPromptTokens, model, task,
                              LoggedPasses(s.passAtK), s.configuration))
  {
    var log := LogEvalResults(s, model, task);
    var passes := LoggedPasses(s.passAtK);
    assert log[1..|log| - 1] == PassRecords(passes);
    ReadPassRecordsRoundTrip(passes);
    assert log[0] == MetricsRecord(s, model, task);
  }
}
