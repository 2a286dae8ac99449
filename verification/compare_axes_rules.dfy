/** llm_evaluators/compare_axes_rules.py: one pairwise judge request per row and per quality
    axis, the two answers in the order `--p_mode` selects. */
module CompareAxesRules {
  import opened Wrappers
  import opened PyValues
  import opened Requests
  import opened Evaluators
  import AnalyzeExplanations

  /** The keys of the `metrics` table, in its order. */
  const MetricKeys := ["halu", "task_qual", "cont_qual", "reas_acc"]

  const Task := "compare_axes_rules_cot"

  /** The script's prompt text, kept abstract: the system prompt, the prompt constant of each
      axis, and the rendering of the template from (question, answer A, answer B, axis text),
      the format instructions included. */
  datatype Prompts = Prompts(
    system: string,
    metricText: string -> string,
    render: (string, string, string, string) -> string)

  /** create_dict: the comparison request under one axis; an axis outside the table raises
      `KeyError`. */
  function CreateDict(prompts: Prompts, model: string, id: string, question: string,
                      answerA: string, answerB: string, metric: string): (r: Result<Request, Failure>)
    ensures r.Ok? <==> metric in MetricKeys
    ensures r.Err? ==> r.error == KeyMissing(metric)
    ensures r.Ok? ==> IsChatRequest(r.value) && r.value.customId == id && r.value.body.model == model
    ensures r.Ok? ==> UserPrompt(r.value) == prompts.render(question, answerA, answerB, prompts.metricText(metric))
  {
    if metric in MetricKeys
    then Ok(ChatRequest(id, model, prompts.system,
                        prompts.render(question, answerA, answerB, prompts.metricText(metric))))
    else Err(KeyMissing(metric))
  }

  /** process_instance: a single request comparing the row's two answers under one axis, in
      the positions the mode gives them. */
  function ProcessInstance(prompts: Prompts, model: string, row: Row, pMode: bool, metric: string)
    : (r: Result<seq<Request>, Failure>)
    ensures r.Ok? <==> metric in MetricKeys
    ensures r.Err? ==> r.error == KeyMissing(metric)
    ensures r.Ok? ==> |r.value| == 1
    ensures r.Ok? ==> r.value[0].customId == RequestId(row.cdx, Task, Some(metric), PairRole(pMode))
    ensures r.Ok? ==> IsChatRequest(r.value[0]) && r.value[0].body.model == model
    ensures r.Ok? ==> UserPrompt(r.value[0]) == prompts.render(row.question, Positions(row, pMode).0,
                                                               Positions(row, pMode).1, prompts.metricText(metric))
  {
    var (a, b) := Positions(row, pMode);
    var request := CreateDict(prompts, model, RequestId(row.cdx, Task, Some(metric), PairRole(pMode)),
                              row.question, a, b, metric);
    if request.Err? then Err(request.error) else Ok([request.value])
  }

  /** The two modes put the same answers in opposite positions under the same axis; their ids
      share the join key and differ in the last segment. */
  lemma ModesSwap(prompts: Prompts, model: string, row: Row, metric: string)
    requires metric in MetricKeys && '~' !in row.cdx
    ensures var a := ProcessInstance(prompts, model, row, false, metric).value[0];
            var b := ProcessInstance(prompts, model, row, true, metric).value[0];
      && UserPrompt(a) == prompts.render(row.question, row.og, row.perturbedGpt4, prompts.metricText(metric))
      && UserPrompt(b) == prompts.render(row.question, row.perturbedGpt4, row.og, prompts.metricText(metric))
      && SystemPrompt(a) == SystemPrompt(b)
      && a.body.(messages := []) == b.body.(messages := [])
      && AnalyzeExplanations.Qid(AnalyzeExplanations.Row(a.customId, "")) == row.cdx
      && AnalyzeExplanations.Qid(AnalyzeExplanations.Row(b.customId, "")) == row.cdx
      && AnalyzeExplanations.Role(AnalyzeExplanations.Row(a.customId, "")) == "orig_perturb"
      && AnalyzeExplanations.Role(AnalyzeExplanations.Row(b.customId, "")) == "perturb_orig"
  {
    RequestIdKey(row.cdx, Task, Some(metric), PairRole(false));
    RequestIdKey(row.cdx, Task, Some(metric), PairRole(true));
  }

  function InstanceOf(prompts: Prompts, model: string, pMode: bool): string -> (Row -> Result<seq<Request>, Failure>)
  {
    metric => (row => ProcessInstance(prompts, model, row, pMode, metric))
  }

  /** main, after the table is read: the model gate, the batch-mode switch, then either every
      axis with one write at the end, or the `--axes` list with a write after each axis (so an
      empty list writes nothing, and no list at all raises `TypeError`). */
  function Outcome(prompts: Prompts, args: Args, rows: seq<Row>): Result<Output, Failure>
  {
    if args.model.None? || args.model.value !in CliModels then Ok(NotWritten("3Still pending"))
    else if !args.batchMode then Ok(NotWritten("2Still pending"))
    else if !args.all && args.axes.None? then Err(NotIterable)
    else if !args.all && args.axes.value == [] then Ok(NotWritten(""))
    else
      var metrics := if args.all then MetricKeys else args.axes.value;
      var reqs := Metrics(metrics, rows, InstanceOf(prompts, args.model.value, args.pMode));
      if reqs.Err? then Err(reqs.error) else Ok(Written(OutputName(args), reqs.value))
  }

  method Build(prompts: Prompts, args: Args, rows: seq<Row>) returns (r: Result<Output, Failure>)
    ensures r == Outcome(prompts, args, rows)
  {
    if args.model.None? || args.model.value !in CliModels {
      return Ok(NotWritten("3Still pending"));
    }
    if !args.batchMode {
      return Ok(NotWritten("2Still pending"));
    }
    var metrics: seq<string>;
    if args.all {
      metrics := MetricKeys;
    } else if args.axes.None? {
      return Err(NotIterable);
    } else if args.axes.value == [] {
      return Ok(NotWritten(""));
    } else {
      metrics := args.axes.value;
    }
    var reqs := CollectMetrics(metrics, rows, InstanceOf(prompts, args.model.value, args.pMode));
    if reqs.Err? {
      return Err(reqs.error);
    }
    var name := if args.pMode then PerturbedFileName(args.outFileName) else args.outFileName;
    return Ok(Written(name, reqs.value));
  }

  lemma EveryInstanceIsOne(prompts: Prompts, model: string, pMode: bool, metrics: seq<string>, rows: seq<Row>)
    requires forall m :: 0 <= m < |metrics| ==> metrics[m] in MetricKeys
    ensures forall m, j :: 0 <= m < |metrics| && 0 <= j < |rows| ==>
      InstanceOf(prompts, model, pMode)(metrics[m])(rows[j]).Ok?
      && |InstanceOf(prompts, model, pMode)(metrics[m])(rows[j]).value| == 1
  {
    forall m, j | 0 <= m < |metrics| && 0 <= j < |rows|
      ensures InstanceOf(prompts, model, pMode)(metrics[m])(rows[j]).Ok?
      ensures |InstanceOf(prompts, model, pMode)(metrics[m])(rows[j]).value| == 1
    {
      assert InstanceOf(prompts, model, pMode)(metrics[m])(rows[j]) == ProcessInstance(prompts, model, rows[j], pMode, metrics[m]);
    }
  }

  /** For any list of known axes there is exactly one request per (axis, row) ... */
  lemma AxesCount(prompts: Prompts, model: string, pMode: bool, metrics: seq<string>, rows: seq<Row>)
    requires forall m :: 0 <= m < |metrics| ==> metrics[m] in MetricKeys
    ensures Metrics(metrics, rows, InstanceOf(prompts, model, pMode)).Ok?
    ensures |Metrics(metrics, rows, InstanceOf(prompts, model, pMode)).value| == |metrics| * (|rows| * 1)
  {
    EveryInstanceIsOne(prompts, model, pMode, metrics, rows);
    MetricsLength(metrics, rows, InstanceOf(prompts, model, pMode), 1);
  }

  /** ... axis-major: the request of axis `m` on row `j` is at `Offset(m, j, |rows|, 1)`, that
      is `m * |rows| + j`. */
  lemma AxesOrder(prompts: Prompts, model: string, pMode: bool, metrics: seq<string>, rows: seq<Row>, m: nat, j: nat)
    requires forall m :: 0 <= m < |metrics| ==> metrics[m] in MetricKeys
    requires m < |metrics| && j < |rows|
    ensures Metrics(metrics, rows, InstanceOf(prompts, model, pMode)).Ok?
    ensures Offset(m, j, |rows|, 1) + 1 <= |Metrics(metrics, rows, InstanceOf(prompts, model, pMode)).value|
    ensures Metrics(metrics, rows, InstanceOf(prompts, model, pMode)).value[Offset(m, j, |rows|, 1) .. Offset(m, j, |rows|, 1) + 1]
            == ProcessInstance(prompts, model, rows[j], pMode, metrics[m]).value
  {
    EveryInstanceIsOne(prompts, model, pMode, metrics, rows);
    MetricsPosition(metrics, rows, InstanceOf(prompts, model, pMode), 1, m, j);
  }

  /** With `--all` in batch mode, a file named after the mode is written exactly when the
      model is one the command line offers, holding the requests of every axis on every row
      (counted and ordered as `AxesCount` and `AxesOrder` state). */
  lemma AllAxes(prompts: Prompts, args: Args, rows: seq<Row>)
    requires args.all && args.batchMode
    ensures Outcome(prompts, args, rows).Ok?
    ensures Outcome(prompts, args, rows).value.Written? <==> args.model.Some? && args.model.value in CliModels
    ensures Outcome(prompts, args, rows).value.Written? ==>
      && Outcome(prompts, args, rows).value.fileName
         == (if args.pMode then PerturbedFileName(args.outFileName) else args.outFileName)
      && Outcome(prompts, args, rows).value.requests
         == Metrics(MetricKeys, rows, InstanceOf(prompts, args.model.value, args.pMode)).value
  {
    if args.model.Some? && args.model.value in CliModels {
      AxesCount(prompts, args.model.value, args.pMode, MetricKeys, rows);
    }
  }
}
