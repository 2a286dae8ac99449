/** llm_evaluators/single_axes.py: one judge request per answer, per row and per quality axis,
    the original answer and the perturbed one side by side. */
module SingleAxes {
  import opened Wrappers
  import opened PyValues
  import opened Requests
  import opened Evaluators
  import AnalyzeExplanations

  /** The keys of the `metrics` table, in its order. */
  const MetricKeys := ["halu", "task_qual", "cont_qual", "reas_acc"]

  const Task := "axes"

  /** The script's prompt text, which the model keeps abstract: the system prompt, the prompt
      constant of each axis, and the rendering of the template from (axis text, question,
      answer), the parser's format instructions included. */
  datatype Prompts = Prompts(
    system: string,
    metricText: string -> string,
    render: (string, string, string) -> string)

  /** create_dict: the request for one answer under one axis; an axis outside the table raises
      `KeyError`. */
  function CreateDict(prompts: Prompts, model: string, id: string, question: string, answer: string,
                      metric: string): (r: Result<Request, Failure>)
    ensures r.Ok? <==> metric in MetricKeys
    ensures r.Err? ==> r.error == KeyMissing(metric)
    ensures r.Ok? ==> IsChatRequest(r.value) && r.value.customId == id && r.value.body.model == model
    ensures r.Ok? ==> UserPrompt(r.value) == prompts.render(prompts.metricText(metric), question, answer)
  {
    if metric in MetricKeys
    then Ok(ChatRequest(id, model, prompts.system, prompts.render(prompts.metricText(metric), question, answer)))
    else Err(KeyMissing(metric))
  }

  /** process_instance: the `orig` request on `og`, then the `pert` request on `perturbed_gpt4`,
      both under the same question and axis. */
  function ProcessInstance(prompts: Prompts, model: string, row: Row, metric: string)
    : (r: Result<seq<Request>, Failure>)
    ensures r.Ok? <==> metric in MetricKeys
    ensures r.Err? ==> r.error == KeyMissing(metric)
    ensures r.Ok? ==> |r.value| == 2
    ensures r.Ok? ==> r.value[0].customId == RequestId(row.cdx, Task, Some(metric), "orig")
    ensures r.Ok? ==> r.value[1].customId == RequestId(row.cdx, Task, Some(metric), "pert")
    ensures r.Ok? ==> IsChatRequest(r.value[0]) && IsChatRequest(r.value[1])
    ensures r.Ok? ==> UserPrompt(r.value[0]) == prompts.render(prompts.metricText(metric), row.question, row.og)
    ensures r.Ok? ==> UserPrompt(r.value[1]) == prompts.render(prompts.metricText(metric), row.question, row.perturbedGpt4)
    ensures r.Ok? ==> r.value[0].body.model == model && r.value[1].body.model == model
  {
    var orig := CreateDict(prompts, model, RequestId(row.cdx, Task, Some(metric), "orig"), row.question, row.og, metric);
    var pert := CreateDict(prompts, model, RequestId(row.cdx, Task, Some(metric), "pert"), row.question, row.perturbedGpt4, metric);
    if orig.Err? then Err(orig.error) else Ok([orig.value, pert.value])
  }

  /** The two requests of a row land in the same group of the analysis, one as `orig` and one
      as `pert`. */
  lemma PairJoins(prompts: Prompts, model: string, row: Row, metric: string)
    requires metric in MetricKeys && '~' !in row.cdx
    ensures var r := ProcessInstance(prompts, model, row, metric).value;
      && AnalyzeExplanations.Qid(AnalyzeExplanations.Row(r[0].customId, "")) == row.cdx
      && AnalyzeExplanations.Qid(AnalyzeExplanations.Row(r[1].customId, "")) == row.cdx
      && AnalyzeExplanations.Role(AnalyzeExplanations.Row(r[0].customId, "")) == "orig"
      && AnalyzeExplanations.Role(AnalyzeExplanations.Row(r[1].customId, "")) == "pert"
  {
    RequestIdKey(row.cdx, Task, Some(metric), "orig");
    RequestIdKey(row.cdx, Task, Some(metric), "pert");
  }

  function InstanceOf(prompts: Prompts, model: string): string -> (Row -> Result<seq<Request>, Failure>)
  {
    metric => (row => ProcessInstance(prompts, model, row, metric))
  }

  /** main, after the table is read: the model gate, the batch-mode switch, the axes to run
      (all of them, or those given with `--axes`; neither raises `TypeError` on iterating
      `None`), and one write of everything collected. */
  function Outcome(prompts: Prompts, args: Args, rows: seq<Row>): Result<Output, Failure>
  {
    if args.model.None? || args.model.value !in CliModels then Ok(NotWritten("3Still pending"))
    else if !args.batchMode then Ok(NotWritten("2Still pending"))
    else if !args.all && args.axes.None? then Err(NotIterable)
    else
      var metrics := if args.all then MetricKeys else args.axes.value;
      var reqs := Metrics(metrics, rows, InstanceOf(prompts, args.model.value));
      if reqs.Err? then Err(reqs.error) else Ok(Written(args.outFileName, reqs.value))
  }

  method Build(prompts: Prompts, args: Args, rows: seq<Row>) returns (r: Result<Output, Failure>)
    ensures r == Outcome(prompts, args, rows)
  {
    if args.model.None? || args.model.value !in CliModels {
      return Ok(NotWritten("3Still pending"));
    }
    if !args.batchMode {
      return Ok(NotWritten("2Still pending"));
    }
    var metrics: seq<string>;
    if args.all {
      metrics := MetricKeys;
    } else if args.axes.Some? {
      metrics := args.axes.value;
    } else {
      return Err(NotIterable);
    }
    var reqs := CollectMetrics(metrics, rows, InstanceOf(prompts, args.model.value));
    if reqs.Err? {
      return Err(reqs.error);
    }
    return Ok(Written(args.outFileName, reqs.value));
  }

  /** For any list of known axes (all of them under `--all`, or those of `--axes`), the
      requests are two per row and axis ... */
  lemma AxesCount(prompts: Prompts, model: string, metrics: seq<string>, rows: seq<Row>)
    requires forall m :: 0 <= m < |metrics| ==> metrics[m] in MetricKeys
    ensures Metrics(metrics, rows, InstanceOf(prompts, model)).Ok?
    ensures |Metrics(metrics, rows, InstanceOf(prompts, model)).value| == |metrics| * (|rows| * 2)
  {
    EveryInstanceIsPair(prompts, model, metrics, rows);
    MetricsLength(metrics, rows, InstanceOf(prompts, model), 2);
  }

  /** ... laid out axis-major: the pair of axis `m` on row `j` starts at
      `Offset(m, j, |rows|, 2)`, that is `m * (|rows| * 2) + j * 2`. */
  lemma AxesOrder(prompts: Prompts, model: string, metrics: seq<string>, rows: seq<Row>, m: nat, j: nat)
    requires forall m :: 0 <= m < |metrics| ==> metrics[m] in MetricKeys
    requires m < |metrics| && j < |rows|
    ensures Metrics(metrics, rows, InstanceOf(prompts, model)).Ok?
    ensures Offset(m, j, |rows|, 2) + 2 <= |Metrics(metrics, rows, InstanceOf(prompts, model)).value|
    ensures Metrics(metrics, rows, InstanceOf(prompts, model)).value[Offset(m, j, |rows|, 2) .. Offset(m, j, |rows|, 2) + 2]
            == ProcessInstance(prompts, model, rows[j], metrics[m]).value
  {
    EveryInstanceIsPair(prompts, model, metrics, rows);
    MetricsPosition(metrics, rows, InstanceOf(prompts, model), 2, m, j);
  }

  lemma EveryInstanceIsPair(prompts: Prompts, model: string, metrics: seq<string>, rows: seq<Row>)
    requires forall m :: 0 <= m < |metrics| ==> metrics[m] in MetricKeys
    ensures forall m, j :: 0 <= m < |metrics| && 0 <= j < |rows| ==>
      InstanceOf(prompts, model)(metrics[m])(rows[j]).Ok? && |InstanceOf(prompts, model)(metrics[m])(rows[j]).value| == 2
  {
    forall m, j | 0 <= m < |metrics| && 0 <= j < |rows|
      ensures InstanceOf(prompts, model)(metrics[m])(rows[j]).Ok?
      ensures |InstanceOf(prompts, model)(metrics[m])(rows[j]).value| == 2
    {
      assert InstanceOf(prompts, model)(metrics[m])(rows[j]) == ProcessInstance(prompts, model, rows[j], metrics[m]);
    }
  }

  /** Every request names the model chosen on the command line. */
  lemma AxesModel(prompts: Prompts, model: string, metrics: seq<string>, rows: seq<Row>)
    requires Metrics(metrics, rows, InstanceOf(prompts, model)).Ok?
    ensures forall q :: q in Metrics(metrics, rows, InstanceOf(prompts, model)).value ==> q.body.model == model
  {
    var instanceOf := InstanceOf(prompts, model);
    var modelIs := (q: Request) => q.body.model == model;
    forall m, j, q | 0 <= m < |metrics| && 0 <= j < |rows|
      && instanceOf(metrics[m])(rows[j]).Ok? && q in instanceOf(metrics[m])(rows[j]).value
      ensures modelIs(q)
    {
      assert instanceOf(metrics[m])(rows[j]) == ProcessInstance(prompts, model, rows[j], metrics[m]);
    }
    MetricsEvery(metrics, rows, instanceOf, modelIs);
  }

  /** With `--all` in batch mode, a file is written exactly when the model is one the command
      line offers, and it holds the requests of every axis on every row (counted and
      ordered as `AxesCount` and `AxesOrder` state). */
  lemma AllAxes(prompts: Prompts, args: Args, rows: seq<Row>)
    requires args.all && args.batchMode
    ensures Outcome(prompts, args, rows).Ok?
    ensures Outcome(prompts, args, rows).value.Written? <==> args.model.Some? && args.model.value in CliModels
    ensures Outcome(prompts, args, rows).value.Written? ==>
      && Outcome(prompts, args, rows).value.fileName == args.outFileName
      && Outcome(prompts, args, rows).value.requests == Metrics(MetricKeys, rows, InstanceOf(prompts, args.model.value)).value
  {
    if args.model.Some? && args.model.value in CliModels {
      AxesCount(prompts, args.model.value, MetricKeys, rows);
    }
  }
}
