/** llm_evaluators/single_vanilla.py: one judge request per answer and per row, without quality
    axes, the original answer and the perturbed one side by side. */
module SingleVanilla {
  import opened Wrappers
  import opened PyValues
  import opened Requests
  import opened Evaluators
  import AnalyzeExplanations

  const Task := "vanilla"

  /** The script's prompt text, kept abstract: the system prompt and the rendering of the
      template from (question, answer), the parser's format instructions included. */
  datatype Prompts = Prompts(system: string, render: (string, string) -> string)

  /** process_instance: the `orig` request on `og`, then the `pert` request on
      `perturbed_gpt4`, each built by create_dict. */
  function ProcessInstance(prompts: Prompts, model: string, row: Row): (r: seq<Request>)
    ensures |r| == 2
    ensures r[0].customId == RequestId(row.cdx, Task, None, "orig")
    ensures r[1].customId == RequestId(row.cdx, Task, None, "pert")
    ensures IsChatRequest(r[0]) && IsChatRequest(r[1])
    ensures UserPrompt(r[0]) == prompts.render(row.question, row.og)
    ensures UserPrompt(r[1]) == prompts.render(row.question, row.perturbedGpt4)
    ensures r[0].body.model == model && r[1].body.model == model
  {
    [ChatRequest(RequestId(row.cdx, Task, None, "orig"), model, prompts.system, prompts.render(row.question, row.og)),
     ChatRequest(RequestId(row.cdx, Task, None, "pert"), model, prompts.system, prompts.render(row.question, row.perturbedGpt4))]
  }

  /** The two requests of a row land in the same group of the analysis, one as `orig` and one
      as `pert`. */
  lemma PairJoins(prompts: Prompts, model: string, row: Row)
    requires '~' !in row.cdx
    ensures var r := ProcessInstance(prompts, model, row);
      && AnalyzeExplanations.Qid(AnalyzeExplanations.Row(r[0].customId, "")) == row.cdx
      && AnalyzeExplanations.Qid(AnalyzeExplanations.Row(r[1].customId, "")) == row.cdx
      && AnalyzeExplanations.Role(AnalyzeExplanations.Row(r[0].customId, "")) == "orig"
      && AnalyzeExplanations.Role(AnalyzeExplanations.Row(r[1].customId, "")) == "pert"
  {
    RequestIdKey(row.cdx, Task, None, "orig");
    RequestIdKey(row.cdx, Task, None, "pert");
  }

  function Instance(prompts: Prompts, model: string): Row -> Result<seq<Request>, Failure>
  {
    row => Ok(ProcessInstance(prompts, model, row))
  }

  /** main, after the table is read: the model gate, the batch-mode switch, and the loop that
      rewrites the output file after every row. */
  function Outcome(prompts: Prompts, args: Args, rows: seq<Row>): Result<Output, Failure>
  {
    if args.model.None? || args.model.value !in CliModels then Ok(NotWritten("3Still pending"))
    else if !args.batchMode then Ok(NotWritten("2Still pending"))
    else WrittenEachRow(args.outFileName, rows, Instance(prompts, args.model.value))
  }

  method Build(prompts: Prompts, args: Args, rows: seq<Row>) returns (r: Result<Output, Failure>)
    ensures r == Outcome(prompts, args, rows)
  {
    if args.model.None? || args.model.value !in CliModels {
      return Ok(NotWritten("3Still pending"));
    }
    if !args.batchMode {
      return Ok(NotWritten("2Still pending"));
    }
    r := ExtendAndWrite(args.outFileName, rows, Instance(prompts, args.model.value));
  }

  /** For an accepted model in batch mode the run never fails; the file is written exactly when
      there is at least one row, and then holds two requests per row in row order: the pair of
      row `j` starts at `j * 2`. */
  lemma RowPairs(prompts: Prompts, args: Args, rows: seq<Row>)
    requires args.model.Some? && args.model.value in CliModels && args.batchMode
    ensures Outcome(prompts, args, rows).Ok?
    ensures Outcome(prompts, args, rows).value.Written? <==> |rows| > 0
    ensures Outcome(prompts, args, rows).value.Written? ==>
      && Outcome(prompts, args, rows).value.fileName == args.outFileName
      && |Outcome(prompts, args, rows).value.requests| == |rows| * 2
      && (forall j :: 0 <= j < |rows| ==>
            j * 2 + 2 <= |Outcome(prompts, args, rows).value.requests|
            && Outcome(prompts, args, rows).value.requests[j * 2 .. j * 2 + 2]
               == ProcessInstance(prompts, args.model.value, rows[j]))
  {
    var instance := Instance(prompts, args.model.value);
    forall j | 0 <= j < |rows|
      ensures instance(rows[j]).Ok? && |instance(rows[j]).value| == 2
    {
      assert instance(rows[j]) == Ok(ProcessInstance(prompts, args.model.value, rows[j]));
    }
    RowsLength(rows, instance, 2);
    forall j | 0 <= j < |rows| {
      RowsBlock(rows, instance, 2, j);
    }
  }
}
