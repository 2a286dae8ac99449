/** llm_evaluators/compare_vanilla.py: one pairwise judge request per row, the two answers in
    the order `--p_mode` selects. */
module CompareVanilla {
  import opened Wrappers
  import opened PyValues
  import opened Requests
  import opened Evaluators
  import AnalyzeExplanations

  const Task := "compare_vanilla"

  /** The script's prompt text, kept abstract: the system prompt and the rendering of the
      template from (question, answer A, answer B), the format instructions included. */
  datatype Prompts = Prompts(system: string, render: (string, string, string) -> string)

  /** process_instance: a single request comparing the row's two answers, in the positions
      the mode gives them. */
  function ProcessInstance(prompts: Prompts, model: string, row: Row, pMode: bool): (r: seq<Request>)
    ensures |r| == 1
    ensures r[0].customId == RequestId(row.cdx, Task, None, PairRole(pMode))
    ensures IsChatRequest(r[0]) && r[0].body.model == model
    ensures UserPrompt(r[0]) == prompts.render(row.question, Positions(row, pMode).0, Positions(row, pMode).1)
  {
    var (a, b) := Positions(row, pMode);
    [ChatRequest(RequestId(row.cdx, Task, None, PairRole(pMode)), model, prompts.system,
                 prompts.render(row.question, a, b))]
  }

  /** The two modes put the same answers in opposite positions under the same system prompt,
      model and settings; their ids share the join key and differ in the last segment. */
  lemma ModesSwap(prompts: Prompts, model: string, row: Row)
    requires '~' !in row.cdx
    ensures var a := ProcessInstance(prompts, model, row, false)[0];
            var b := ProcessInstance(prompts, model, row, true)[0];
      && UserPrompt(a) == prompts.render(row.question, row.og, row.perturbedGpt4)
      && UserPrompt(b) == prompts.render(row.question, row.perturbedGpt4, row.og)
      && SystemPrompt(a) == SystemPrompt(b)
      && a.body.(messages := []) == b.body.(messages := [])
      && AnalyzeExplanations.Qid(AnalyzeExplanations.Row(a.customId, "")) == row.cdx
      && AnalyzeExplanations.Qid(AnalyzeExplanations.Row(b.customId, "")) == row.cdx
      && AnalyzeExplanations.Role(AnalyzeExplanations.Row(a.customId, "")) == "orig_perturb"
      && AnalyzeExplanations.Role(AnalyzeExplanations.Row(b.customId, "")) == "perturb_orig"
  {
    RequestIdKey(row.cdx, Task, None, PairRole(false));
    RequestIdKey(row.cdx, Task, None, PairRole(true));
  }

  function Instance(prompts: Prompts, model: string, pMode: bool): Row -> Result<seq<Request>, Failure>
  {
    row => Ok(ProcessInstance(prompts, model, row, pMode))
  }

  /** main, after the table is read: the model gate, the batch-mode switch, and the loop that
      rewrites the output file, named after the mode, after every row. */
  function Outcome(prompts: Prompts, args: Args, rows: seq<Row>): Result<Output, Failure>
  {
    if args.model.None? || args.model.value !in CliModels then Ok(NotWritten("3Still pending"))
    else if !args.batchMode then Ok(NotWritten("2Still pending"))
    else WrittenEachRow(OutputName(args), rows, Instance(prompts, args.model.value, args.pMode))
  }

  method Build(prompts: Prompts, args: Args, rows: seq<Row>) returns (r: Result<Output, Failure>)
    ensures r == Outcome(prompts, args, rows)
  {
    if args.model.None? || args.model.value !in CliModels {
      return Ok(NotWritten("3Still pending"));
    }
    if !args.batchMode {
      return Ok(NotWritten("2Still pending"));
    }
    var name := if args.pMode then PerturbedFileName(args.outFileName) else args.outFileName;
    r := ExtendAndWrite(name, rows, Instance(prompts, args.model.value, args.pMode));
  }

  /** For an accepted model in batch mode the run never fails; the file, named after the mode,
      is written exactly when there is at least one row, and then holds one request per row in
      row order. */
  lemma OnePerRow(prompts: Prompts, args: Args, rows: seq<Row>)
    requires args.model.Some? && args.model.value in CliModels && args.batchMode
    ensures Outcome(prompts, args, rows).Ok?
    ensures Outcome(prompts, args, rows).value.Written? <==> |rows| > 0
    ensures Outcome(prompts, args, rows).value.Written? ==>
      && Outcome(prompts, args, rows).value.fileName
         == (if args.pMode then PerturbedFileName(args.outFileName) else args.outFileName)
      && |Outcome(prompts, args, rows).value.requests| == |rows|
      && (forall j :: 0 <= j < |rows| ==>
            Outcome(prompts, args, rows).value.requests[j]
            == ProcessInstance(prompts, args.model.value, rows[j], args.pMode)[0])
  {
    var instance := Instance(prompts, args.model.value, args.pMode);
    forall j | 0 <= j < |rows|
      ensures instance(rows[j]).Ok? && |instance(rows[j]).value| == 1
    {
      assert instance(rows[j]) == Ok(ProcessInstance(prompts, args.model.value, rows[j], args.pMode));
    }
    RowsLength(rows, instance, 1);
    forall j | 0 <= j < |rows|
      ensures Rows(rows, instance).value[j] == ProcessInstance(prompts, args.model.value, rows[j], args.pMode)[0]
    {
      RowsBlock(rows, instance, 1, j);
      assert Rows(rows, instance).value[j .. j + 1][0] == Rows(rows, instance).value[j];
    }
  }
}
