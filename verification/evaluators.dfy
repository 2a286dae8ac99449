/** What the judge-request builders under llm_evaluators/ and scripts/llm_evaluators/ share:
    the input row, the command line, the request record of their `create_dict`, the
    `{cdx}~{task}~{metric?}~{role}` id convention, the `_perturb.jsonl` output name, and the
    accumulation loops of their `main` (one request list per row, rows within metrics). */
module Evaluators {
  import opened Wrappers
  import opened PyValues
  import opened Requests
  import Text
  import Seqs
  import AnalyzeExplanations

  /** One record of the input table: the columns the builders read. */
  datatype Row = Row(cdx: string, question: string, og: string, perturbedGpt4: string)

  /** The parsed command line; `model` is `None` when `--model` was not given, `axes` when
      `--axes` was not given. */
  datatype Args = Args(
    model: Option<string>,
    outFileName: string,
    batchMode: bool,
    all: bool,
    axes: Option<seq<string>>,
    pMode: bool)

  /** What a run leaves behind: the file last written and the requests in it, or only a
      message on standard output. */
  datatype Output = Written(fileName: string, requests: seq<Request>) | NotWritten(message: string)

  /** The model names the command line of the llm_evaluators scripts offers, which their
      `main` also accepts. */
  const CliModels: set<string> :=
    {"gpt-4o", "gpt-4-turbo", "gpt-3.5-turbo-0125", "llama3-70b", "claude3-opus",
     "gemini-1.5-flash", "gemini-1.5-pro"}

  /** The `create_dict` record: the id, the model, the script's system prompt and the rendered
      user prompt, with `max_tokens` 1000 and `temperature` 0. */
  function ChatRequest(id: string, model: string, system: string, user: string): (r: Request)
    ensures IsChatRequest(r)
    ensures r.customId == id && r.body.model == model
    ensures SystemPrompt(r) == system && UserPrompt(r) == user
    ensures r.body.maxTokens == IntNumber(1000) && r.body.temperature == IntNumber(0)
    ensures r.body.sampling.None?
  {
    Request(id, Post, ChatCompletions,
      Body(model, [ChatMessage("system", system), ChatMessage("user", user)],
           IntNumber(1000), IntNumber(0), None))
  }

  /** `f"{cdx}~{task}~{role}"`, and with a metric `f"{cdx}~{task}~{metric}~{role}"`. */
  function RequestId(cdx: string, task: string, metric: Option<string>, role: string): string
  {
    if metric.None? then cdx + "~" + task + "~" + role
    else cdx + "~" + task + "~" + metric.value + "~" + role
  }

  /** The analysis joins on the first `~` segment of an id and reads the role from its last:
      for an id built here they are the row's `cdx` and the role, as long as neither holds a
      `~` itself. */
  lemma RequestIdKey(cdx: string, task: string, metric: Option<string>, role: string)
    requires '~' !in cdx && '~' !in role
    ensures AnalyzeExplanations.Qid(AnalyzeExplanations.Row(RequestId(cdx, task, metric, role), "")) == cdx
    ensures AnalyzeExplanations.Role(AnalyzeExplanations.Row(RequestId(cdx, task, metric, role), "")) == role
  {
    var middle := if metric.None? then task else task + "~" + metric.value;
    assert RequestId(cdx, task, metric, role) == cdx + ['~'] + middle + ['~'] + role;
    AnalyzeExplanations.IdSegments(cdx, middle, role);
  }

  /** Ids of distinct rows or roles are distinct. */
  lemma RequestIdInjective(cdx: string, role: string, cdx': string, role': string,
                           task: string, metric: Option<string>)
    requires '~' !in cdx && '~' !in role && '~' !in cdx' && '~' !in role'
    requires RequestId(cdx, task, metric, role) == RequestId(cdx', task, metric, role')
    ensures cdx == cdx' && role == role'
  {
    RequestIdKey(cdx, task, metric, role);
    RequestIdKey(cdx', task, metric, role');
  }

  /** The answers in positions A and B of a comparison: the original first by default, the
      perturbed one first under `--p_mode`. */
  function Positions(row: Row, pMode: bool): (string, string)
  {
    if pMode then (row.perturbedGpt4, row.og) else (row.og, row.perturbedGpt4)
  }

  /** The last id segment of a comparison, naming the order of its two answers. */
  function PairRole(pMode: bool): string
  {
    if pMode then "perturb_orig" else "orig_perturb"
  }

  /** The two modes present the same two answers in opposite positions. */
  lemma PositionsSwap(row: Row)
    ensures Positions(row, true).0 == Positions(row, false).1
    ensures Positions(row, true).1 == Positions(row, false).0
    ensures Positions(row, false) == (row.og, row.perturbedGpt4)
  {
  }

  /** The output file: the given name, or under `--p_mode` its `_perturb.jsonl` variant. */
  function OutputName(args: Args): string
  {
    if args.pMode then PerturbedFileName(args.outFileName) else args.outFileName
  }

  const JsonMarker := ".json"

  /** `out.split(".json")[0] + "_perturb.jsonl"`: the text before the first ".json", or the
      whole name when it has none, followed by the suffix. */
  function PerturbedFileName(out: string): string
  {
    Text.BeforeFirst(out, JsonMarker) + "_perturb.jsonl"
  }

  /** A name whose first ".json" ends its stem gets the suffix in place of the extension and
      of anything after it. */
  lemma PerturbedFileNameReplaces(stem: string, rest: string)
    requires forall i :: 0 <= i < |stem| ==> !Text.OccursAt(stem + JsonMarker + rest, JsonMarker, i)
    ensures PerturbedFileName(stem + JsonMarker + rest) == stem + "_perturb.jsonl"
  {
    Text.BeforeFirstOfJoined(stem, JsonMarker, rest);
  }

  /** A name without ".json" keeps all of it. */
  lemma PerturbedFileNameAppends(out: string)
    requires forall i :: 0 <= i < |out| ==> !Text.OccursAt(out, JsonMarker, i)
    ensures PerturbedFileName(out) == out + "_perturb.jsonl"
  {
    Text.BeforeFirstAbsent(out, JsonMarker);
  }

  // ---------------------------------------------------------------------------------------
  // The accumulation loops of `main`

  /** The requests of `rows`, in row order, each row's list extended in turn; the first row
      whose builder raises stops the run. */
  function Rows(rows: seq<Row>, instance: Row -> Result<seq<Request>, Failure>): Result<seq<Request>, Failure>
  {
    if rows == [] then Ok([])
    else
      var before := Rows(rows[..|rows| - 1], instance);
      if before.Err? then before
      else
        var last := instance(rows[|rows| - 1]);
        if last.Err? then Err(last.error) else Ok(before.value + last.value)
  }

  /** The requests of every metric over every row: metric-major, then row. */
  function Metrics(metrics: seq<string>, rows: seq<Row>,
                   instanceOf: string -> (Row -> Result<seq<Request>, Failure>)): Result<seq<Request>, Failure>
  {
    if metrics == [] then Ok([])
    else
      var before := Metrics(metrics[..|metrics| - 1], rows, instanceOf);
      if before.Err? then before
      else
        var last := Rows(rows, instanceOf(metrics[|metrics| - 1]));
        if last.Err? then last else Ok(before.value + last.value)
  }

  lemma RowsErrorPersists(rows: seq<Row>, i: nat, instance: Row -> Result<seq<Request>, Failure>)
    requires i <= |rows| && Rows(rows[..i], instance).Err?
    ensures Rows(rows, instance) == Rows(rows[..i], instance)
    decreases |rows| - i
  {
    if i < |rows| {
      assert rows[..i + 1][..i] == rows[..i];
      RowsErrorPersists(rows, i + 1, instance);
    } else {
      assert rows[..i] == rows;
    }
  }

  lemma MetricsErrorPersists(metrics: seq<string>, i: nat, rows: seq<Row>,
                             instanceOf: string -> (Row -> Result<seq<Request>, Failure>))
    requires i <= |metrics| && Metrics(metrics[..i], rows, instanceOf).Err?
    ensures Metrics(metrics, rows, instanceOf) == Metrics(metrics[..i], rows, instanceOf)
    decreases |metrics| - i
  {
    if i < |metrics| {
      assert metrics[..i + 1][..i] == metrics[..i];
      MetricsErrorPersists(metrics, i + 1, rows, instanceOf);
    } else {
      assert metrics[..i] == metrics;
    }
  }

  /** The inner loop: `for row in rows: final_jsonl.extend(process_instance(row, …))`,
      starting from the requests already collected. */
  method ExtendRows(acc: seq<Request>, rows: seq<Row>, instance: Row -> Result<seq<Request>, Failure>)
    returns (r: Result<seq<Request>, Failure>)
    ensures Rows(rows, instance).Ok? ==> r == Ok(acc + Rows(rows, instance).value)
    ensures Rows(rows, instance).Err? ==> r == Rows(rows, instance)
  {
    var out := acc;
    var i := 0;
    while i < |rows|
      invariant 0 <= i <= |rows|
      invariant Rows(rows[..i], instance).Ok?
      invariant out == acc + Rows(rows[..i], instance).value
    {
      assert rows[..i + 1][..i] == rows[..i];
      var step := instance(rows[i]);
      if step.Err? {
        RowsErrorPersists(rows, i + 1, instance);
        return Err(step.error);
      }
      out := out + step.value;
      i := i + 1;
    }
    assert rows[..i] == rows;
    return Ok(out);
  }

  /** The outer loop: `for metric in metrics: for row in rows: …`. */
  method CollectMetrics(metrics: seq<string>, rows: seq<Row>,
                        instanceOf: string -> (Row -> Result<seq<Request>, Failure>))
    returns (r: Result<seq<Request>, Failure>)
    ensures r == Metrics(metrics, rows, instanceOf)
  {
    var out: seq<Request> := [];
    var i := 0;
    while i < |metrics|
      invariant 0 <= i <= |metrics|
      invariant Metrics(metrics[..i], rows, instanceOf) == Ok(out)
    {
      assert metrics[..i + 1][..i] == metrics[..i];
      var step := ExtendRows(out, rows, instanceOf(metrics[i]));
      if step.Err? {
        MetricsErrorPersists(metrics, i + 1, rows, instanceOf);
        return step;
      }
      out := step.value;
      i := i + 1;
    }
    assert metrics[..i] == metrics;
    return Ok(out);
  }

  /** The loop that rewrites the output after every row: `for row in rows:
      final_jsonl.extend(...); write_jsonl(final_jsonl, name)`. The file last written holds the
      requests of every row; with no rows it is never written. */
  function WrittenEachRow(name: string, rows: seq<Row>, instance: Row -> Result<seq<Request>, Failure>)
    : Result<Output, Failure>
  {
    if rows == [] then Ok(NotWritten(""))
    else
      var reqs := Rows(rows, instance);
      if reqs.Err? then Err(reqs.error) else Ok(Written(name, reqs.value))
  }

  method ExtendAndWrite(name: string, rows: seq<Row>, instance: Row -> Result<seq<Request>, Failure>)
    returns (r: Result<Output, Failure>)
    ensures r == WrittenEachRow(name, rows, instance)
  {
    var out: seq<Request> := [];
    var file := NotWritten("");
    var i := 0;
    while i < |rows|
      invariant 0 <= i <= |rows|
      invariant Rows(rows[..i], instance) == Ok(out)
      invariant file == if i == 0 then NotWritten("") else Written(name, out)
    {
      assert rows[..i + 1][..i] == rows[..i];
      var step := instance(rows[i]);
      if step.Err? {
        RowsErrorPersists(rows, i + 1, instance);
        return Err(step.error);
      }
      out := out + step.value;
      file := Written(name, out);
      i := i + 1;
    }
    assert rows[..i] == rows;
    return Ok(file);
  }

  /** Whatever holds of every request each row yields holds of every request collected. */
  lemma {:induction false} RowsEvery(rows: seq<Row>, instance: Row -> Result<seq<Request>, Failure>,
                                     property: Request -> bool)
    requires forall j, q :: 0 <= j < |rows| && instance(rows[j]).Ok? && q in instance(rows[j]).value ==> property(q)
    requires Rows(rows, instance).Ok?
    ensures forall q :: q in Rows(rows, instance).value ==> property(q)
  {
    if rows != [] {
      var p := rows[..|rows| - 1];
      forall j, q | 0 <= j < |p| && instance(p[j]).Ok? && q in instance(p[j]).value
        ensures property(q)
      {
        assert p[j] == rows[j];
      }
      RowsEvery(p, instance, property);
    }
  }

  /** ... and likewise over all metrics. */
  lemma {:induction false} MetricsEvery(metrics: seq<string>, rows: seq<Row>,
                                        instanceOf: string -> (Row -> Result<seq<Request>, Failure>),
                                        property: Request -> bool)
    requires forall m, j, q ::
      (0 <= m < |metrics| && 0 <= j < |rows| && instanceOf(metrics[m])(rows[j]).Ok?
       && q in instanceOf(metrics[m])(rows[j]).value) ==> property(q)
    requires Metrics(metrics, rows, instanceOf).Ok?
    ensures forall q :: q in Metrics(metrics, rows, instanceOf).value ==> property(q)
  {
    if metrics != [] {
      var n := |metrics|;
      var p := metrics[..n - 1];
      forall m, j, q | 0 <= m < |p| && 0 <= j < |rows|
        && instanceOf(p[m])(rows[j]).Ok? && q in instanceOf(p[m])(rows[j]).value
        ensures property(q)
      {
        assert p[m] == metrics[m];
      }
      MetricsEvery(p, rows, instanceOf, property);
      RowsEvery(rows, instanceOf(metrics[n - 1]), property);
    }
  }

  lemma MulLe(a: nat, b: nat, k: nat)
    requires a <= b
    ensures a * k <= b * k
  {
  }

  lemma MulStep(a: nat, k: nat)
    ensures (a + 1) * k == a * k + k
  {
  }

  /** When every row yields `k` requests, the result holds `k` per row. */
  lemma {:induction false} RowsLength(rows: seq<Row>, instance: Row -> Result<seq<Request>, Failure>, k: nat)
    requires forall j :: 0 <= j < |rows| ==> instance(rows[j]).Ok? && |instance(rows[j]).value| == k
    ensures Rows(rows, instance).Ok?
    ensures |Rows(rows, instance).value| == |rows| * k
  {
    if rows != [] {
      var n := |rows|;
      RowsLength(rows[..n - 1], instance, k);
      MulStep(n - 1, k);
    }
  }

  /** ... and the `j`-th block of `k` requests is row `j`'s list. */
  lemma {:induction false} RowsBlock(rows: seq<Row>, instance: Row -> Result<seq<Request>, Failure>, k: nat, j: nat)
    requires forall i :: 0 <= i < |rows| ==> instance(rows[i]).Ok? && |instance(rows[i]).value| == k
    requires j < |rows|
    ensures Rows(rows, instance).Ok?
    ensures j * k + k <= |Rows(rows, instance).value|
    ensures Rows(rows, instance).value[j * k .. j * k + k] == instance(rows[j]).value
  {
    if j < |rows| - 1 {
      RowsBlock(rows[..|rows| - 1], instance, k, j);
      RowsBlockEarlier(rows, instance, k, j);
    } else {
      RowsBlockLast(rows, instance, k, j * k);
    }
  }

  /** A block before the last row is where the rows before it put it. */
  lemma RowsBlockEarlier(rows: seq<Row>, instance: Row -> Result<seq<Request>, Failure>, k: nat, j: nat)
    requires forall i :: 0 <= i < |rows| ==> instance(rows[i]).Ok? && |instance(rows[i]).value| == k
    requires j < |rows| - 1
    requires Rows(rows[..|rows| - 1], instance).Ok?
    requires j * k + k <= |Rows(rows[..|rows| - 1], instance).value|
    requires Rows(rows[..|rows| - 1], instance).value[j * k .. j * k + k] == instance(rows[..|rows| - 1][j]).value
    ensures Rows(rows, instance).Ok?
    ensures j * k + k <= |Rows(rows, instance).value|
    ensures Rows(rows, instance).value[j * k .. j * k + k] == instance(rows[j]).value
  {
    var p := rows[..|rows| - 1];
    var before := Rows(p, instance).value;
    var last := instance(rows[|rows| - 1]).value;
    assert Rows(rows, instance).value == before + last;
    assert p[j] == rows[j];
    Seqs.SliceOfFirst(before, last, j * k, j * k + k);
  }

  /** The last block, at offset `lo`, is the last row's list. */
  lemma RowsBlockLast(rows: seq<Row>, instance: Row -> Result<seq<Request>, Failure>, k: nat, lo: nat)
    requires forall i :: 0 <= i < |rows| ==> instance(rows[i]).Ok? && |instance(rows[i]).value| == k
    requires rows != [] && lo == (|rows| - 1) * k
    ensures Rows(rows, instance).Ok?
    ensures lo + k <= |Rows(rows, instance).value|
    ensures Rows(rows, instance).value[lo .. lo + k] == instance(rows[|rows| - 1]).value
  {
    var p := rows[..|rows| - 1];
    RowsLength(p, instance, k);
    var before := Rows(p, instance).value;
    var last := instance(rows[|rows| - 1]).value;
    assert Rows(rows, instance).value == before + last;
    Seqs.SliceOfSecond(before, last);
  }

  /** When every (metric, row) yields `k` requests, the result holds `k` per pair. */
  lemma {:induction false} MetricsLength(metrics: seq<string>, rows: seq<Row>,
                                         instanceOf: string -> (Row -> Result<seq<Request>, Failure>), k: nat)
    requires forall m, j :: 0 <= m < |metrics| && 0 <= j < |rows| ==>
      instanceOf(metrics[m])(rows[j]).Ok? && |instanceOf(metrics[m])(rows[j]).value| == k
    ensures Metrics(metrics, rows, instanceOf).Ok?
    ensures |Metrics(metrics, rows, instanceOf).value| == |metrics| * (|rows| * k)
  {
    if metrics != [] {
      var n := |metrics|;
      MetricsLength(metrics[..n - 1], rows, instanceOf, k);
      RowsLength(rows, instanceOf(metrics[n - 1]), k);
      MulStep(n - 1, |rows| * k);
    }
  }

  /** ... and the `m`-th block of `|rows| * k` requests is metric `m` over all rows. */
  lemma {:induction false} MetricsBlock(metrics: seq<string>, rows: seq<Row>,
                                        instanceOf: string -> (Row -> Result<seq<Request>, Failure>), k: nat, m: nat)
    requires forall m, j :: 0 <= m < |metrics| && 0 <= j < |rows| ==>
      instanceOf(metrics[m])(rows[j]).Ok? && |instanceOf(metrics[m])(rows[j]).value| == k
    requires m < |metrics|
    ensures Metrics(metrics, rows, instanceOf).Ok?
    ensures Rows(rows, instanceOf(metrics[m])).Ok?
    ensures m * (|rows| * k) + |rows| * k <= |Metrics(metrics, rows, instanceOf).value|
    ensures Metrics(metrics, rows, instanceOf).value[m * (|rows| * k) .. m * (|rows| * k) + |rows| * k]
            == Rows(rows, instanceOf(metrics[m])).value
  {
    if m < |metrics| - 1 {
      MetricsBlock(metrics[..|metrics| - 1], rows, instanceOf, k, m);
      MetricsBlockEarlier(metrics, rows, instanceOf, k, m);
    } else {
      MetricsBlockLast(metrics, rows, instanceOf, k, m * (|rows| * k));
    }
  }

  /** A block before the last metric is where the metrics before it put it. */
  lemma MetricsBlockEarlier(metrics: seq<string>, rows: seq<Row>,
                            instanceOf: string -> (Row -> Result<seq<Request>, Failure>), k: nat, m: nat)
    requires forall m, j :: 0 <= m < |metrics| && 0 <= j < |rows| ==>
      instanceOf(metrics[m])(rows[j]).Ok? && |instanceOf(metrics[m])(rows[j]).value| == k
    requires m < |metrics| - 1
    requires Metrics(metrics[..|metrics| - 1], rows, instanceOf).Ok?
    requires Rows(rows, instanceOf(metrics[..|metrics| - 1][m])).Ok?
    requires m * (|rows| * k) + |rows| * k <= |Metrics(metrics[..|metrics| - 1], rows, instanceOf).value|
    requires Metrics(metrics[..|metrics| - 1], rows, instanceOf).value[m * (|rows| * k) .. m * (|rows| * k) + |rows| * k]
             == Rows(rows, instanceOf(metrics[..|metrics| - 1][m])).value
    ensures Metrics(metrics, rows, instanceOf).Ok?
    ensures Rows(rows, instanceOf(metrics[m])).Ok?
    ensures m * (|rows| * k) + |rows| * k <= |Metrics(metrics, rows, instanceOf).value|
    ensures Metrics(metrics, rows, instanceOf).value[m * (|rows| * k) .. m * (|rows| * k) + |rows| * k]
            == Rows(rows, instanceOf(metrics[m])).value
  {
    var p := metrics[..|metrics| - 1];
    assert p[m] == metrics[m];
    MetricsLength(metrics, rows, instanceOf, k);
    var before := Metrics(p, rows, instanceOf).value;
    var last := Rows(rows, instanceOf(metrics[|metrics| - 1])).value;
    assert Metrics(metrics, rows, instanceOf).value == before + last;
    Seqs.SliceOfFirst(before, last, m * (|rows| * k), m * (|rows| * k) + |rows| * k);
  }

  /** The last block, at offset `lo`, is the last metric over all rows. */
  lemma MetricsBlockLast(metrics: seq<string>, rows: seq<Row>,
                         instanceOf: string -> (Row -> Result<seq<Request>, Failure>), k: nat, lo: nat)
    requires forall m, j :: 0 <= m < |metrics| && 0 <= j < |rows| ==>
      instanceOf(metrics[m])(rows[j]).Ok? && |instanceOf(metrics[m])(rows[j]).value| == k
    requires metrics != [] && lo == (|metrics| - 1) * (|rows| * k)
    ensures Metrics(metrics, rows, instanceOf).Ok?
    ensures Rows(rows, instanceOf(metrics[|metrics| - 1])).Ok?
    ensures lo + |rows| * k <= |Metrics(metrics, rows, instanceOf).value|
    ensures Metrics(metrics, rows, instanceOf).value[lo .. lo + |rows| * k]
            == Rows(rows, instanceOf(metrics[|metrics| - 1])).value
  {
    var p := metrics[..|metrics| - 1];
    MetricsLength(metrics, rows, instanceOf, k);
    MetricsLength(p, rows, instanceOf, k);
    RowsLength(rows, instanceOf(metrics[|metrics| - 1]), k);
    var before := Metrics(p, rows, instanceOf).value;
    var last := Rows(rows, instanceOf(metrics[|metrics| - 1])).value;
    assert Metrics(metrics, rows, instanceOf).value == before + last;
    Seqs.SliceOfSecond(before, last);
  }

  /** Where the `k` requests of metric `m` on row `j` start, metric-major over `rowCount` rows. */
  function Offset(m: nat, j: nat, rowCount: nat, k: nat): nat
  {
    MulLe(0, rowCount, k);
    MulLe(0, m, rowCount * k);
    MulLe(0, j, k);
    m * (rowCount * k) + j * k
  }

  /** Metric-major order: the block of `k` requests at `Offset(m, j, |rows|, k)` is metric `m`
      on row `j`. */
  lemma MetricsPosition(metrics: seq<string>, rows: seq<Row>,
                        instanceOf: string -> (Row -> Result<seq<Request>, Failure>), k: nat, m: nat, j: nat)
    requires forall m, j :: 0 <= m < |metrics| && 0 <= j < |rows| ==>
      instanceOf(metrics[m])(rows[j]).Ok? && |instanceOf(metrics[m])(rows[j]).value| == k
    requires m < |metrics| && j < |rows|
    ensures Metrics(metrics, rows, instanceOf).Ok?
    ensures Offset(m, j, |rows|, k) + k <= |Metrics(metrics, rows, instanceOf).value|
    ensures Metrics(metrics, rows, instanceOf).value[Offset(m, j, |rows|, k) .. Offset(m, j, |rows|, k) + k]
            == instanceOf(metrics[m])(rows[j]).value
  {
    MetricsBlock(metrics, rows, instanceOf, k, m);
    RowsLength(rows, instanceOf(metrics[m]), k);
    RowsBlock(rows, instanceOf(metrics[m]), k, j);
    MulLe(0, |rows|, k);
    MulLe(0, m, |rows| * k);
    MulLe(0, j, k);
    Seqs.SliceOfSlice(Metrics(metrics, rows, instanceOf).value, Rows(rows, instanceOf(metrics[m])).value,
                 instanceOf(metrics[m])(rows[j]).value, m * (|rows| * k), |rows| * k, j * k);
  }
}
