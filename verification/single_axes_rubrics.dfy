/** scripts/llm_evaluators/single_axes_rubrics.py: one rubric-guided judge request per answer,
    per row and per quality axis, always addressed to "gpt-4o". */
module SingleAxesRubrics {
  import opened Wrappers
  import opened PyValues
  import opened Requests
  import opened Evaluators
  import AnalyzeExplanations

  /** The keys of the `metrics` table, in its order. */
  const MetricKeys := ["halu", "ling_acep", "prob_cont", "task_qual", "cont_qual"]

  const Task := "axes_rubric"

  /** The model every request names, whatever the command line chose. */
  const RequestModel := "gpt-4o"

  /** The models the command line offers. */
  const CliChoices: set<string> := {"gpt-4o", "gpt-4-turbo", "gpt-3.5-turbo-0125"}

  /** The models `main` lets through, as written: one of them is not offered, and one offered
      model is missing. */
  const AsWrittenGate: set<string> := {"gpt-4o", "gpt-4-turbo", "gpt-3.5-turbo"}

  /** The script's prompt text, kept abstract: the system prompt, the rubric of each axis, and
      the rendering of the template from (rubric, question, answer), the format instructions
      included. */
  datatype Prompts = Prompts(
    system: string,
    metricText: string -> string,
    render: (string, string, string) -> string)

  /** create_dict: the request for one answer under one axis, addressed to "gpt-4o"; an axis
      outside the table raises `KeyError`. */
  function CreateDict(prompts: Prompts, id: string, question: string, answer: string, metric: string)
    : (r: Result<Request, Failure>)
    ensures r.Ok? <==> metric in MetricKeys
    ensures r.Err? ==> r.error == KeyMissing(metric)
    ensures r.Ok? ==> IsChatRequest(r.value) && r.value.customId == id && r.value.body.model == RequestModel
    ensures r.Ok? ==> UserPrompt(r.value) == prompts.render(prompts.metricText(metric), question, answer)
  {
    if metric in MetricKeys
    then Ok(ChatRequest(id, RequestModel, prompts.system, prompts.render(prompts.metricText(metric), question, answer)))
    else Err(KeyMissing(metric))
  }

  /** process_instance: the `orig` request on `og`, then the `pert` request on
      `perturbed_gpt4`, under the same question and axis. */
  function ProcessInstance(prompts: Prompts, row: Row, metric: string): (r: Result<seq<Request>, Failure>)
    ensures r.Ok? <==> metric in MetricKeys
    ensures r.Err? ==> r.error == KeyMissing(metric)
    ensures r.Ok? ==> |r.value| == 2
    ensures r.Ok? ==> r.value[0].customId == RequestId(row.cdx, Task, Some(metric), "orig")
    ensures r.Ok? ==> r.value[1].customId == RequestId(row.cdx, Task, Some(metric), "pert")
    ensures r.Ok? ==> IsChatRequest(r.value[0]) && IsChatRequest(r.value[1])
    ensures r.Ok? ==> UserPrompt(r.value[0]) == prompts.render(prompts.metricText(metric), row.question, row.og)
    ensures r.Ok? ==> UserPrompt(r.value[1]) == prompts.render(prompts.metricText(metric), row.question, row.perturbedGpt4)
  {
    var orig := CreateDict(prompts, RequestId(row.cdx, Task, Some(metric), "orig"), row.question, row.og, metric);
    var pert := CreateDict(prompts, RequestId(row.cdx, Task, Some(metric), "pert"), row.question, row.perturbedGpt4, metric);
    if orig.Err? then Err(orig.error) else Ok([orig.value, pert.value])
  }

  /** The two requests of a row land in the same group of the analysis, one as `orig` and one
      as `pert`. */
  lemma PairJoins(prompts: Prompts, row: Row, metric: string)
    requires metric in MetricKeys && '~' !in row.cdx
    ensures var r := ProcessInstance(prompts, row, metric).value;
      && AnalyzeExplanations.Qid(AnalyzeExplanations.Row(r[0].customId, "")) == row.cdx
      && AnalyzeExplanations.Qid(AnalyzeExplanations.Row(r[1].customId, "")) == row.cdx
      && AnalyzeExplanations.Role(AnalyzeExplanations.Row(r[0].customId, "")) == "orig"
      && AnalyzeExplanations.Role(AnalyzeExplanations.Row(r[1].customId, "")) == "pert"
  {
    RequestIdKey(row.cdx, Task, Some(metric), "orig");
    RequestIdKey(row.cdx, Task, Some(metric), "pert");
  }

  function InstanceOf(prompts: Prompts): string -> (Row -> Result<seq<Request>, Failure>)
  {
    metric => (row => ProcessInstance(prompts, row, metric))
  }

  /** main, after the table is read, with the set of models its gate accepts: the gate, the
      batch-mode switch, the `--all` switch (which defaults to on and cannot be turned off),
      and one write of every axis on every row. */
  function Run(accepted: set<string>, prompts: Prompts, args: Args, rows: seq<Row>): Result<Output, Failure>
  {
    if args.model.None? || args.model.value !in accepted then Ok(NotWritten("3Still pending"))
    else if !args.batchMode then Ok(NotWritten("2Still pending"))
    else if !args.all then Ok(NotWritten("1Still pending"))
    else
      var reqs := Metrics(MetricKeys, rows, InstanceOf(prompts));
      if reqs.Err? then Err(reqs.error) else Ok(Written(args.outFileName, reqs.value))
  }

  /** main as written. */
  function AsWritten(prompts: Prompts, args: Args, rows: seq<Row>): Result<Output, Failure>
  {
    Run(AsWrittenGate, prompts, args, rows)
  }

  /** main with its gate accepting exactly the models the command line offers. */
  function Outcome(prompts: Prompts, args: Args, rows: seq<Row>): Result<Output, Failure>
  {
    Run(CliChoices, prompts, args, rows)
  }

  method Build(prompts: Prompts, args: Args, rows: seq<Row>) returns (r: Result<Output, Failure>)
    ensures r == Outcome(prompts, args, rows)
  {
    if args.model.None? || args.model.value !in CliChoices {
      return Ok(NotWritten("3Still pending"));
    }
    if !args.batchMode {
      return Ok(NotWritten("2Still pending"));
    }
    if !args.all {
      return Ok(NotWritten("1Still pending"));
    }
    var reqs := CollectMetrics(MetricKeys, rows, InstanceOf(prompts));
    if reqs.Err? {
      return Err(reqs.error);
    }
    return Ok(Written(args.outFileName, reqs.value));
  }

  lemma EveryInstanceIsPair(prompts: Prompts, metrics: seq<string>, rows: seq<Row>)
    requires forall m :: 0 <= m < |metrics| ==> metrics[m] in MetricKeys
    ensures forall m, j :: 0 <= m < |metrics| && 0 <= j < |rows| ==>
      InstanceOf(prompts)(metrics[m])(rows[j]).Ok? && |InstanceOf(prompts)(metrics[m])(rows[j]).value| == 2
  {
    forall m, j | 0 <= m < |metrics| && 0 <= j < |rows|
      ensures InstanceOf(prompts)(metrics[m])(rows[j]).Ok?
      ensures |InstanceOf(prompts)(metrics[m])(rows[j]).value| == 2
    {
      assert InstanceOf(prompts)(metrics[m])(rows[j]) == ProcessInstance(prompts, rows[j], metrics[m]);
    }
  }

  /** Two requests per row and axis ... */
  lemma AxesCount(prompts: Prompts, metrics: seq<string>, rows: seq<Row>)
    requires forall m :: 0 <= m < |metrics| ==> metrics[m] in MetricKeys
    ensures Metrics(metrics, rows, InstanceOf(prompts)).Ok?
    ensures |Metrics(metrics, rows, InstanceOf(prompts)).value| == |metrics| * (|rows| * 2)
  {
    EveryInstanceIsPair(prompts, metrics, rows);
    MetricsLength(metrics, rows, InstanceOf(prompts), 2);
  }

  /** ... axis-major: the pair of axis `m` on row `j` starts at `Offset(m, j, |rows|, 2)`. */
  lemma AxesOrder(prompts: Prompts, metrics: seq<string>, rows: seq<Row>, m: nat, j: nat)
    requires forall m :: 0 <= m < |metrics| ==> metrics[m] in MetricKeys
    requires m < |metrics| && j < |rows|
    ensures Metrics(metrics, rows, InstanceOf(prompts)).Ok?
    ensures Offset(m, j, |rows|, 2) + 2 <= |Metrics(metrics, rows, InstanceOf(prompts)).value|
    ensures Metrics(metrics, rows, InstanceOf(prompts)).value[Offset(m, j, |rows|, 2) .. Offset(m, j, |rows|, 2) + 2]
            == ProcessInstance(prompts, rows[j], metrics[m]).value
  {
    EveryInstanceIsPair(prompts, metrics, rows);
    MetricsPosition(metrics, rows, InstanceOf(prompts), 2, m, j);
  }

  /** Every request names "gpt-4o". */
  lemma AlwaysGpt4o(prompts: Prompts, metrics: seq<string>, rows: seq<Row>)
    requires Metrics(metrics, rows, InstanceOf(prompts)).Ok?
    ensures forall q :: q in Metrics(metrics, rows, InstanceOf(prompts)).value ==> q.body.model == RequestModel
  {
    var instanceOf := InstanceOf(prompts);
    var modelIs := (q: Request) => q.body.model == RequestModel;
    forall m, j, q | 0 <= m < |metrics| && 0 <= j < |rows|
      && instanceOf(metrics[m])(rows[j]).Ok? && q in instanceOf(metrics[m])(rows[j]).value
      ensures modelIs(q)
    {
      assert instanceOf(metrics[m])(rows[j]) == ProcessInstance(prompts, rows[j], metrics[m]);
    }
    MetricsEvery(metrics, rows, instanceOf, modelIs);
  }

  /** As written, choosing "gpt-3.5-turbo-0125", which the command line offers, writes
      nothing, while the corrected gate writes the file. */
  lemma OfferedModelRejected(prompts: Prompts, args: Args, rows: seq<Row>)
    requires args.model == Some("gpt-3.5-turbo-0125") && args.batchMode && args.all
    ensures args.model.value in CliChoices
    ensures AsWritten(prompts, args, rows) == Ok(NotWritten("3Still pending"))
    ensures Outcome(prompts, args, rows).Ok? && Outcome(prompts, args, rows).value.Written?
  {
    AxesCount(prompts, MetricKeys, rows);
  }

  /** Corrected: every model the command line offers writes the file, with two requests per
      row and axis, each naming "gpt-4o". */
  lemma EveryOfferedModelWrites(prompts: Prompts, args: Args, rows: seq<Row>)
    requires args.model.Some? && args.model.value in CliChoices && args.batchMode && args.all
    ensures Outcome(prompts, args, rows).Ok? && Outcome(prompts, args, rows).value.Written?
    ensures Outcome(prompts, args, rows).value.fileName == args.outFileName
    ensures |Outcome(prompts, args, rows).value.requests| == |MetricKeys| * (|rows| * 2)
    ensures forall q :: q in Outcome(prompts, args, rows).value.requests ==> q.body.model == RequestModel
  {
    AxesCount(prompts, MetricKeys, rows);
    AlwaysGpt4o(prompts, MetricKeys, rows);
  }
}
