# Perturbation-checklist judge pipeline, modelled in Dafny

This project models the deterministic core of a pipeline that tests LLM judges. It perturbs
reference answers, builds judge requests over the original and the perturbed answer, sends them
to several model providers, and reads the judges' free-text replies back. The model covers five
parts.

- **The embedded-JSON extractor** (`CustomJsonOutputParser` in `perturbations/parsers.py`).
  - A character scan finds the first top-level `{...}` span in free judge text.
  - The span is then decoded: strict JSON first, then Python literal syntax.
  - The decoded value is checked against a response schema.
- **Reading the judges' replies** (`perturbations/analyze_explanations.py`).
  - The library parser comes first, with the extractor as a fallback.
  - Replies are grouped by question id and paired as `orig` and `pert`.
  - Only pairs whose scores agree are kept.
  - `check_results` tallies the replies.
- **The annotation upload** (`scripts/push_firebase.py`).
  - A round-robin user generator.
  - The perturbation-type table.
  - `prepare_doc`.
  - The loop that sends every document to the success list or the error list.
- **The request builders.**
  - `create_jsonl` in `perturbations/utils.py`.
  - The four evaluator scripts under `llm_evaluators/` and the rubric script under
    `scripts/llm_evaluators/`.
  - These define the id convention `{cdx}~{task}~{metric?}~{role}`, the orig/pert pairs, the
    position swap of the compare modes, and the metric-major, then row-major, layout of the output.
- **The provider adapter** (`scripts/parallel_call.py`).
  - Message reshaping for Anthropic and Gemini.
  - The model-name aliases.
  - Result-record normalisation.
  - The error-record shape.
  - The dispatch on the first record's model.

Python semantics the source relies on are written out, each once:

- `str.split` and `split(...)[0]`, in module `Text`;
- subscripting, and `==` on decoded values (`bool`, `int` and `float` by numeric value, lists and
  dicts element by element), in module `PyValues`;
- `from m import a, b` of classes a module may not declare, in module `Schemas`;
- exceptions as a `Failure` value in a `Result`, in modules `Wrappers` and `PyValues`;
- the order in which pandas `groupby` visits its keys (ascending);
- names left unbound when a loop never assigns them.

Library code the source calls stays abstract. This covers langchain's parser, `json.loads`,
`ast.literal_eval`, pydantic validation, prompt rendering and the provider clients. Each is a
function-typed parameter (`Extractor.Library`, the `Prompts` records, `ParallelCall.Clients`), so
every property holds for whatever those functions do.

Some specification functions only compute; the rows of the lemmas and methods about them state
their properties. `Extractor.OutermostJson` is covered by `SpanIsFirstObject`, `RoundTrip` and
`FindOutermostJson`, and `Extractor.Decode` by `LiteralEvalOnlyAfterDecodeError` and `Invoke`.
`PushFirebase.PrepareDoc` is covered by `PrepareDocFields`, `PushFirebase.ParseResponse` by
`ParseResponseFallback`, and `PerturbationTable.GetPerturbedType` by `TwelveTypes`. The reshapers
`ParallelCall.AnthropicFormat` and `GeminiFormat` are covered by their `Format...Messages` methods,
`ConversationIsNonSystem` and `GeminiAgreesWithAnthropic`, and `ParallelCall.Call` by
`CallKeepsId` and `CallReturns`. The shared builder functions are covered as follows:
`Evaluators.RequestId` by `RequestIdKey` and `RequestIdInjective`; `PerturbedFileName` by
`PerturbedFileNameReplaces` and `PerturbedFileNameAppends`; `Rows` and `Metrics` by the
`Rows...`, `Metrics...` and `CollectMetrics` rows; `WrittenEachRow` by `ExtendAndWrite`. Each
builder's `Outcome` is covered by its `Build` method and the count and order lemmas after it.
`SingleAxesRubrics.Run` and `AsWritten` are covered by `OfferedModelRejected` and
`EveryOfferedModelWrites`.

Where a script's loop changes state step by step, the model has a `method` with a loop. That
method is proved equal to a specification function, and the properties are proved about that
function. The methods are:

- `Extractor.FindOutermostJson`;
- `AnalyzeExplanations.AgreeingPairs`;
- `PushFirebase.PlaceDocs` and `PushFirebase.PrepareUpload`;
- `ParallelCall.FormatAnthropicMessages` and `ParallelCall.FormatGeminiMessages`;
- the accumulation loops of the builder scripts, in `Evaluators`.

The generator object of `generate_users` is a class, `PushFirebase.UserGenerator`.

Modules:

| module | file | models |
|---|---|---|
| `Wrappers` | wrappers.dfy | `Option`, `Result` |
| `Text` | text.dfy | `str.split`, prefix before a marker, code-point order, decimal rendering |
| `Seqs` | seqs.dfy | generic sequence facts used by the proofs |
| `PyValues` | pyvalues.dfy | decoded Python values (with `float`), exception kinds, `v[key]`, `==` |
| `Schemas` | schemas.dfy | the pydantic response classes and `from ... import` of them |
| `JsonText` | json_text.dfy | JSON text as the grammar of RFC 8259 allows it, in any layout (for the round-trip lemmas) |
| `Extractor` | extractor.dfy | `perturbations/parsers.py` |
| `AnalyzeExplanations` | analyze.dfy | `perturbations/analyze_explanations.py` |
| `Requests` | requests.dfy | request records, `perturbations/utils.py` |
| `Evaluators` | evaluators.dfy | what the builder scripts share: `create_dict`'s record, ids, loops |
| `PerturbationTable` | perturbation_table.dfy | `get_perturbed_type` |
| `PushFirebase` | push_firebase.dfy | `scripts/push_firebase.py` |
| `SingleAxes` | single_axes.dfy | `llm_evaluators/single_axes.py` |
| `SingleVanilla` | single_vanilla.dfy | `llm_evaluators/single_vanilla.py` |
| `CompareVanilla` | compare_vanilla.dfy | `llm_evaluators/compare_vanilla.py` |
| `CompareAxesRules` | compare_axes_rules.dfy | `llm_evaluators/compare_axes_rules.py` |
| `SingleAxesRubrics` | single_axes_rubrics.dfy | `scripts/llm_evaluators/single_axes_rubrics.py` |
| `ParallelCall` | parallel_call.dfy | `scripts/parallel_call.py` |

## Model

| member | source | states |
|---|---|---|
| Text.Split | perturbations/analyze_explanations.py:70-71 | `str.split(sep)` yields at least one part and no part contains the separator |
| Text.JoinOfSplit | perturbations/analyze_explanations.py:70-71 | joining the parts of a split with the separator gives back the original string |
| Text.SplitOfJoin | perturbations/analyze_explanations.py:70-71 | splitting a join of separator-free parts gives back the parts |
| Text.SplitAround | perturbations/analyze_explanations.py:70-71 | splitting `a + sep + b` is the split of `a` followed by the split of `b` |
| Text.SplitWithoutSeparator | perturbations/analyze_explanations.py:70-71 | a string without the separator splits into itself alone |
| Text.FirstOfJoined | perturbations/analyze_explanations.py:71 | `split('~')[0]` of a `~`-joined id is its first segment |
| Text.LastOfJoined | perturbations/analyze_explanations.py:70 | `split('~')[-1]` of a `~`-joined id is its last segment |
| Text.BeforeFirst | scripts/push_firebase.py:126 | `s.split(marker)[0]` is a prefix of `s` that holds no occurrence of the marker; when the marker occurs, it occurs right after that prefix |
| Text.BeforeFirstOfJoined | scripts/push_firebase.py:126 | the part before the first marker of `stem + marker + rest` is `stem`, when `stem` holds no occurrence of it |
| Text.BeforeFirstAbsent | llm_evaluators/compare_vanilla.py:104 | with no marker, `split(marker)[0]` is the whole string |
| Text.LessIrreflexive | perturbations/analyze_explanations.py:74 | the string order by which groups are visited is irreflexive |
| Text.LessTotal | perturbations/analyze_explanations.py:74 | ... total on distinct strings |
| Text.LessTransitive | perturbations/analyze_explanations.py:74 | ... and transitive |
| PyValues.PyEquals | perturbations/analyze_explanations.py:91 | Python's `==` on decoded values: `bool`, `int` and `float` by numeric value, lists element by element, dicts key by key, anything else only to itself |
| PyValues.NumbersCompareByValue | perturbations/analyze_explanations.py:91 | two numbers of any of the three kinds are `==` iff their values are equal (`1 == 1.0 == True`, `1.5 != 2.5`); a number is `== True` iff its value is 1 |
| PyValues.PyEqualsReflexive | perturbations/analyze_explanations.py:91 | every decoded value is `==` to itself |
| PyValues.PyEqualsSymmetric | perturbations/analyze_explanations.py:91 | `a == b` implies `b == a` |
| Schemas.Lookup | perturbations/analyze_explanations.py:11 | a name is found iff the module declares a class of that name, and what is found is that class |
| Schemas.ImportNames | perturbations/analyze_explanations.py:11 | `from m import a, b, ...` succeeds iff every name is declared in `m`, giving the classes in order; otherwise it raises `ImportError` on the first undeclared name |
| Text.NatToString | scripts/push_firebase.py:41 | the decimal rendering of `i` in `f"user{i}"` is non-empty and made of digits |
| Text.NatToStringValue | scripts/push_firebase.py:41 | the digits of that rendering read back, most significant first, give `i` itself |
| Text.NatToStringInjective | scripts/push_firebase.py:41 | two numbers render alike iff they are equal |
| Extractor.ScanFrom | perturbations/parsers.py:75-88 | a span the scan returns lies inside the text it scanned, with the start before the end |
| Extractor.OutermostSpan | perturbations/parsers.py:57-92 | the span of `find_outermost_json` is a non-empty range within the text |
| Extractor.FindOutermostJson | perturbations/parsers.py:57-92 | the loop over the text (depth counter, in-string and escape flags, start index) returns what the specification `OutermostJson` gives; a returned slice starts with `{` and ends with `}` |
| Extractor.RunAppend | perturbations/parsers.py:75-90 | the scan state after `a + b` is the state after `b` started from the state after `a` |
| Extractor.ScanAppend | perturbations/parsers.py:75-90 | a scan over `a + b` returns within `a` if it returns there, and otherwise resumes on `b` from where `a` left off |
| Extractor.LexToStep | perturbations/parsers.py:75-90 | the state before character `k + 1` is one loop step after the state before character `k` |
| Extractor.ScanResumes | perturbations/parsers.py:75-90 | while nothing has been returned, the rest of the run is the scan of the remaining text from the current state |
| Extractor.StartIsFirstOpen | perturbations/parsers.py:80-83 | the recorded start is the first `{` outside a string, and nothing opened before it |
| Extractor.SpanIsFirstObject | perturbations/parsers.py:75-92 | nothing is returned iff no `}` closes an object before the end. Otherwise the span starts at the first `{` outside a string, ends at the first `}` that brings the depth back to 0, and the depth stays positive in between |
| Extractor.FirstCloseExists | perturbations/parsers.py:84-88 | when some `}` closes the open object, there is a first one |
| Extractor.FirstClose | perturbations/parsers.py:84-88 | that first closing position, with the scan not yet returned before it |
| Extractor.LaterTextIgnored | perturbations/parsers.py:87-88 | once an object closes in `x`, any text appended after it changes neither the span nor the returned string |
| Extractor.TransparentAppend | perturbations/parsers.py:75-90 | text that leaves the scan state unchanged without returning composes under concatenation |
| Extractor.PlainTransparent | perturbations/parsers.py:89-90 | characters other than quotes, backslashes and braces leave an open object's state unchanged |
| Extractor.PairTransparent | perturbations/parsers.py:76-79 | two characters whose steps cancel out leave the state unchanged |
| Extractor.PiecesTransparent | perturbations/parsers.py:76-90 | the characters of a JSON string between its quotes, raw or escaped (`\"`, `\\`, `\/`, `\b`, `\f`, `\n`, `\r`, `\t`, `\uXXXX`), leave the in-string state unchanged: no escape ends the string, and braces inside it do not count |
| Extractor.QuoteTransparent | perturbations/parsers.py:76-79 | a complete quoted JSON string, in any escaping, met inside an object leaves the scan where it was |
| Extractor.NestedTransparent | perturbations/parsers.py:80-86 | a nested object or array inside an open object leaves the state unchanged |
| Extractor.BlankTransparent | perturbations/parsers.py:89-90 | JSON whitespace inside an object leaves the scan state unchanged |
| Extractor.ValueTransparent | perturbations/parsers.py:75-90 | any well-formed JSON value, in any layout, written inside an open object leaves the scan state unchanged and returns nothing early |
| Extractor.BodyTransparent | perturbations/parsers.py:75-90 | ... likewise the inside of an object's braces, whether blank or a list of members |
| Extractor.ItemTransparent | perturbations/parsers.py:75-90 | ... an array element with the whitespace around it |
| Extractor.ItemsTransparent | perturbations/parsers.py:75-90 | ... a comma-separated list of array elements |
| Extractor.MemberTransparent | perturbations/parsers.py:75-90 | ... a `"key" : value` member with whitespace anywhere the grammar allows it |
| Extractor.MembersTransparent | perturbations/parsers.py:75-90 | ... and a list of members |
| Extractor.ProseTransparent | perturbations/parsers.py:76-86 | prose with no `{` and no `"` before the object leaves the scan in its initial state, so a stray `}` or backslash there has no effect |
| Extractor.RoundTrip | perturbations/parsers.py:75-88 | for a prefix with no `{` or `"`, any well-formed JSON object `s` in any RFC 8259 layout (whitespace, numbers, every string escape) and any suffix, `find_outermost_json(prefix + s + suffix) == s` |
| Extractor.AfterProse | perturbations/parsers.py:76-86 | scanning such a prefix and then some text is scanning that text alone |
| Extractor.OpenedBody | perturbations/parsers.py:80-83 | after an object's `{` and its inside, the scan has returned nothing and is at depth one, outside any string, with the start at the brace |
| Extractor.ClosesAfter | perturbations/parsers.py:84-88 | a `}` that closes the object ends the span there, whatever follows |
| Extractor.Truncated | perturbations/parsers.py:92 | a strict prefix of a well-formed JSON object, in any layout, after such prose yields "No valid JSON could be extracted", never a partial slice |
| Extractor.NoBraceNoSpan | perturbations/parsers.py:92 | text without `{` never yields a span |
| Extractor.NewCustomJsonOutputParser | perturbations/parsers.py:43-55 | the constructor succeeds iff the class derives from pydantic's `BaseModel`, keeps that class, and otherwise raises the `ValueError` |
| Extractor.Invoke | perturbations/parsers.py:94-123 | no span gives "No valid JSON could be extracted". "JSON parsing failed" iff neither decoder reads the span. The `**json_data` `TypeError` iff a decoded value is not a dict. "JSON validation failed" iff the decoded dict fails the schema. A decoded dict that validates is returned itself, and success returns nothing else |
| Extractor.LiteralEvalOnlyAfterDecodeError | perturbations/parsers.py:109-113 | the literal evaluator is never consulted when the strict decoder succeeds |
| Extractor.InvokeRoundTrip | perturbations/parsers.py:107-119 | a well-formed JSON object in any layout, embedded in prose, that `json.loads` reads as a valid dict is returned as that dict |
| AnalyzeExplanations.JustificationAndScore | perturbations/analyze_explanations.py:42-46 | `(v['justification'], v['score'])` succeeds iff `v` is a dict with both keys; otherwise it raises `TypeError` or the `KeyError` of the first missing key |
| AnalyzeExplanations.ParseAndGetScore | perturbations/analyze_explanations.py:38-48 | when the library parser reads the reply, the result is that reading's `['justification']` and `['score']` (with their KeyError or TypeError); any other library exception is an error; a score found is the justification and score of some decoded dict |
| AnalyzeExplanations.LibraryPathScores | perturbations/analyze_explanations.py:40-42 | a library reading that is a dict with both keys gives exactly its `justification` and `score`; a missing `justification`, then a missing `score`, is a KeyError; a non-dict is a TypeError; the extractor is never consulted |
| AnalyzeExplanations.FallbackOnlyOnParserException | perturbations/analyze_explanations.py:41-43 | unless the library parser raises its parse exception, the extractor and the decoders behind it play no part in the result |
| AnalyzeExplanations.FallbackRecoversScore | perturbations/analyze_explanations.py:43-46 | after a parse exception, a reply the extractor reads as a valid dict yields its justification and score |
| AnalyzeExplanations.OtherExceptionsPropagate | perturbations/analyze_explanations.py:47-48 | any other exception of the library parser is raised again unchanged |
| AnalyzeExplanations.IdSegments | perturbations/analyze_explanations.py:70-71 | for an id `qid~...~role` whose qid and role hold no `~`, the join key is `qid` and the role is `role` |
| AnalyzeExplanations.Insert | perturbations/analyze_explanations.py:74 | inserting a key keeps the key list strictly ascending and adds exactly that key |
| AnalyzeExplanations.Qids | perturbations/analyze_explanations.py:74-76 | the groups are visited in strictly ascending key order, and the keys are exactly the qids of the rows |
| AnalyzeExplanations.FirstOfRoleIsFirst | perturbations/analyze_explanations.py:77-78 | the reply looked up for a group and role is the earliest row of that group with that role; none is found iff there is no such row |
| AnalyzeExplanations.Kept | perturbations/analyze_explanations.py:80-97 | one group adds at most one pair, with that group's qid and equal scores under `==` |
| AnalyzeExplanations.Collect | perturbations/analyze_explanations.py:76-97 | the only error over the groups is the `IndexError` of a missing side; otherwise at most one pair per group, each of a group's qid, with equal scores |
| AnalyzeExplanations.Agreeing | perturbations/analyze_explanations.py:69-97 | an empty file fails on `df['custom_id']`; the file fails iff it is empty or some group lacks a side; every pair kept has the qid of some row and equal scores |
| AnalyzeExplanations.AgreeingPairs | perturbations/analyze_explanations.py:69-97 | the loop over the groups builds `evals` as specified by `Agreeing`, and `count` equals the number of pairs appended |
| AnalyzeExplanations.KeepIfAgreeing | perturbations/analyze_explanations.py:80-97 | the loop body for one group appends that group's kept pair, if any, and counts it |
| AnalyzeExplanations.MissingSideAborts | perturbations/analyze_explanations.py:77-80 | the run fails iff some group lacks an `orig` or a `pert` row; the lookup is outside the `try`, so one such group aborts the whole file |
| AnalyzeExplanations.MissingSideEndsRun | perturbations/analyze_explanations.py:77-78 | a group without one of its sides ends the run with `IndexError` |
| AnalyzeExplanations.CollectErrorPersists | perturbations/analyze_explanations.py:76-78 | once a group has failed, no later group changes the outcome |
| AnalyzeExplanations.KeptExactly | perturbations/analyze_explanations.py:84-93 | a record is in `evals` iff its qid is a group key and it holds that group's first orig/pert explanations and scores, with scores equal under Python `==` |
| AnalyzeExplanations.KeptInGroupOrder | perturbations/analyze_explanations.py:76-92 | kept pairs come out in ascending qid order, at most one per qid |
| AnalyzeExplanations.Flagged | perturbations/analyze_explanations.py:124 | the number of scores equal to `True` is at most the number of rows |
| AnalyzeExplanations.FlaggedCountsTrue | perturbations/analyze_explanations.py:124 | the tally is exactly the number of positions whose score is `== True` (`len(df[df['pred_score'] == True])`) |
| AnalyzeExplanations.FlaggedAll | perturbations/analyze_explanations.py:124 | the tally equals the row count iff every score `== True` (so `1` and `1.0` count), and is 0 iff none does |
| AnalyzeExplanations.Predictions | perturbations/analyze_explanations.py:119 | a success holds the library parse of every reply, one per row, in row order |
| AnalyzeExplanations.PredictionsFailure | perturbations/analyze_explanations.py:119 | the column fails iff some reply is not read by the library parser, and then with the exception raised on the first such reply (its parse exception or any other) |
| AnalyzeExplanations.Column | perturbations/analyze_explanations.py:121 | `x['score']` for every prediction, in order; a failure names a prediction without the key |
| AnalyzeExplanations.CheckResults | perturbations/analyze_explanations.py:118-124 | `check_results` reports `(flagged, total)`: `total` is the number of replies and `flagged` exactly the number of replies whose parsed `score` is `== True`; an empty file has no `response` column, a KeyError |
| AnalyzeExplanations.CheckResultsTally | perturbations/analyze_explanations.py:118-124 | the count reported is the size of the set of replies whose parsed `score` is `== True` (so `1` and `1.0` count); it equals the number of replies iff every such score is, and is 0 iff none is |
| AnalyzeExplanations.ImportAsWrittenFails | perturbations/analyze_explanations.py:11 | as written, the import raises `ImportError` on `CompareVanillaCOTScore`, which `perturbations/parsers.py` does not declare |
| AnalyzeExplanations.ImportCorrected | perturbations/analyze_explanations.py:11 | with the two score classes declared beside the others, from pydantic's `BaseModel`, the import succeeds and `CustomJsonOutputParser` accepts every imported class; the class of the same name in `llm_evaluators/parsers.py`, derived from langchain's compatibility class, would be refused |
| Requests.CreateJsonl | perturbations/utils.py:5-28 | the record is a POST to `/v1/chat/completions` with id `cdx`, messages exactly [system "You are a helpful assistant.", user prompt], and model and every sampling setting copied unchanged |
| Requests.CreateJsonlInjective | perturbations/utils.py:5-28 | no argument is lost: equal records come from equal arguments |
| Evaluators.ChatRequest | llm_evaluators/single_axes.py:48-64 | a `create_dict` record: POST to the chat endpoint with the given id and model, [system, user] messages, `max_tokens` 1000 and `temperature` 0 |
| Evaluators.RequestIdKey | llm_evaluators/single_axes.py:74-78 | an id `{cdx}~{task}~{metric}~{role}` is read back by the analysis with key `cdx` and role `role` |
| Evaluators.RequestIdInjective | llm_evaluators/single_axes.py:74-78 | two ids of one task and metric are equal only for the same `cdx` and role |
| Evaluators.PositionsSwap | llm_evaluators/compare_vanilla.py:58-69 | the default mode puts `og` in A and `perturbed_gpt4` in B; `p_mode` puts the same two answers in the opposite positions |
| Evaluators.PerturbedFileNameReplaces | llm_evaluators/compare_vanilla.py:103-105 | in `p_mode` the output name is the given name cut before its first `.json`, plus `_perturb.jsonl` |
| Evaluators.PerturbedFileNameAppends | llm_evaluators/compare_axes_rules.py:126-128 | a name without `.json` gets `_perturb.jsonl` appended |
| Evaluators.RowsErrorPersists | llm_evaluators/single_axes.py:117-119 | a row whose builder raises ends the loop with that error, whatever rows follow |
| Evaluators.MetricsErrorPersists | llm_evaluators/single_axes.py:116-119 | ... and likewise for a metric |
| Evaluators.ExtendRows | llm_evaluators/single_axes.py:117-119 | the row loop extends the list already collected by every row's requests, in order, or raises the first builder error |
| Evaluators.CollectMetrics | llm_evaluators/single_axes.py:113-119 | the nested metric and row loops produce exactly the specification `Metrics`, metric-major |
| Evaluators.ExtendAndWrite | llm_evaluators/single_vanilla.py:94-98 | the loop that rewrites the file after every row leaves the file holding every row's requests; with no rows nothing is written |
| Evaluators.RowsEvery | llm_evaluators/single_axes.py:117-119 | a property of every request a row yields holds of every request collected |
| Evaluators.MetricsEvery | llm_evaluators/single_axes.py:116-119 | ... likewise over all metrics |
| Evaluators.RowsLength | llm_evaluators/single_vanilla.py:95-98 | when every row yields `k` requests, the list holds `k` per row |
| Evaluators.RowsBlock | llm_evaluators/single_vanilla.py:95-98 | the `j`-th block of `k` requests is row `j`'s list |
| Evaluators.MetricsLength | llm_evaluators/single_axes.py:115-120 | when every (metric, row) yields `k` requests, the list holds `metrics × rows × k` |
| Evaluators.MetricsBlock | llm_evaluators/single_axes.py:115-120 | the `m`-th block of `rows × k` requests is metric `m` over all rows |
| Evaluators.MetricsPosition | llm_evaluators/single_axes.py:115-120 | metric-major order: the `k` requests at `m·rows·k + j·k` are those of metric `m` on row `j` |
| PerturbationTable.TwelveTypes | scripts/push_firebase.py:45-61 | the table answers exactly the twelve known perturbation kinds; any other name raises `KeyError` on that name |
| PushFirebase.Users | scripts/push_firebase.py:41 | the user list is `user1`..`usern` in order |
| PushFirebase.UsersDistinct | scripts/push_firebase.py:41 | the `n` user names are pairwise distinct |
| PushFirebase.UserGenerator.constructor | scripts/push_firebase.py:40-43 | a fresh generator over `user1`..`usern` that has drawn nothing |
| PushFirebase.UserGenerator.Next | scripts/push_firebase.py:42-43 | draw number `k` (from 0) is `user{k mod n + 1}`, and one more name has been drawn |
| PushFirebase.PTypeOfPath | scripts/push_firebase.py:126 | for `dir/name-temp1.0rest`, with no `/` in the file part and no marker in `name`, the type is `name` |
| PushFirebase.ParseResponseFallback | scripts/push_firebase.py:63-74 | a library parse that succeeds is returned as is. After any library exception the extractor with the `DirectError` schema decides, and its failure is raised |
| PushFirebase.FindTestRow | scripts/push_firebase.py:82-83 | the answers-table row found is the first row with that `cdx` (`.values[0]`); none is found iff no row has it |
| PushFirebase.PrepareDocFields | scripts/push_firebase.py:78-97 | a missing `custom_id` or an unknown `cdx` raises. A prepared record copies `custom_id` to `id`, `explanation` to `expected_perturbation` and `err_answer` to `perturbed`, takes the question and answer of the first matching row, and leaves type and user unset |
| PushFirebase.PlaceDocs | scripts/push_firebase.py:131-144 | the loop over one file's documents produces the specification `PlaceAll`, and the generator has drawn one user per success so far |
| PushFirebase.PrepareUpload | scripts/push_firebase.py:121-144 | the loop over the files produces the specification `PushFiles` |
| PushFirebase.Place | scripts/push_firebase.py:132-144 | one document adds exactly one record, to `final_data` iff `prepare_doc` accepts it, and nothing already in either list changes |
| PushFirebase.PlaceAll | scripts/push_firebase.py:131-144 | a file's documents add one record each, and the lists only grow |
| PushFirebase.PushFiles | scripts/push_firebase.py:121-144 | the only error that ends the run is a `KeyError` (that of the type table, see `UnknownTypeAborts`) |
| PushFirebase.Accepted | scripts/push_firebase.py:132-141 | one document adds at most one success, none iff `prepare_doc` raises |
| PushFirebase.Successes | scripts/push_firebase.py:131-141 | the successes of a file are at most its documents |
| PushFirebase.Failures | scripts/push_firebase.py:138-144 | the failures of a file are at most its documents |
| PushFirebase.SuccessesAndFailures | scripts/push_firebase.py:131-144 | every document of a file is a success or a failure, not both |
| PushFirebase.SuccessesUsers | scripts/push_firebase.py:134-137 | the `i`-th success counted from `drawn` goes to `user{(drawn + i) mod n + 1}` |
| PushFirebase.PlaceAllPartitions | scripts/push_firebase.py:131-144 | the inner loop appends exactly the file's successes, in order, tagged and handed to users in turn, to `final_data`, and exactly its failures, in order, to `error_data` |
| PushFirebase.PushFilesErrorPersists | scripts/push_firebase.py:125-127 | once a file's type is unknown, the run's outcome is that error |
| PushFirebase.PushFilesFails | scripts/push_firebase.py:126-127 | the run fails iff some file's type is not in the table |
| PushFirebase.UnknownTypeAborts | scripts/push_firebase.py:126-127 | the run aborts exactly when some file's name gives an unknown perturbation type; the lookup is outside the per-document `try` |
| PushFirebase.PushFilesPartitions | scripts/push_firebase.py:121-144 | on completion, `final_data` is exactly the successes of every file in file order and `error_data` exactly the failures; together they hold one record per input document, and the `k`-th success has user `user{k mod n + 1}` |
| PushFirebase.PushFilesReference | scripts/push_firebase.py:121-144 | the run's two lists are the two reference sequences, and their lengths add up to the document count |
| PushFirebase.AllSuccessesInTurn | scripts/push_firebase.py:134-137 | across the whole run the `k`-th success goes to `user{k mod n + 1}` |
| SingleAxes.CreateDict | llm_evaluators/single_axes.py:37-65 | the request for one answer under an axis: the given id and model, the rendered prompt of that axis; an axis outside the table raises `KeyError` |
| SingleAxes.ProcessInstance | llm_evaluators/single_axes.py:67-81 | exactly two requests: `{cdx}~axes~{metric}~orig` on `og`, then `~pert` on `perturbed_gpt4`, with the same question and axis |
| SingleAxes.PairJoins | llm_evaluators/single_axes.py:74-78 | both requests of a row share the analysis key `cdx`, one with role `orig` and one with `pert` |
| SingleAxes.Build | llm_evaluators/single_axes.py:103-131 | `main` after reading the table: the model gate, the batch-mode switch, all axes or those of `--axes`, and one write of everything collected |
| SingleAxes.AxesCount | llm_evaluators/single_axes.py:115-127 | for known axes, the output holds 2 × axes × rows requests |
| SingleAxes.AxesOrder | llm_evaluators/single_axes.py:115-127 | ... metric-major: the pair of axis `m` on row `j` sits at `m·rows·2 + j·2` |
| SingleAxes.EveryInstanceIsPair | llm_evaluators/single_axes.py:67-81 | every known axis on every row yields a pair |
| SingleAxes.AxesModel | llm_evaluators/single_axes.py:53-109 | every request names the model chosen on the command line |
| SingleAxes.AllAxes | llm_evaluators/single_axes.py:111-131 | with `--all` in batch mode, a file is written iff the model is one offered, and it holds all four axes over all rows |
| SingleVanilla.ProcessInstance | llm_evaluators/single_vanilla.py:57-71 | two requests `{cdx}~vanilla~orig` on `og` and `~pert` on `perturbed_gpt4`, in that order |
| SingleVanilla.PairJoins | llm_evaluators/single_vanilla.py:64-69 | the pair shares the analysis key `cdx` with roles `orig` and `pert` |
| SingleVanilla.Build | llm_evaluators/single_vanilla.py:85-102 | `main`: the model gate, the batch-mode switch, and the file rewritten after every row |
| SingleVanilla.RowPairs | llm_evaluators/single_vanilla.py:92-98 | for an offered model, a file is written iff there are rows; after the last row it holds 2 × rows requests, row `j`'s pair at `2j` |
| CompareVanilla.ProcessInstance | llm_evaluators/compare_vanilla.py:57-75 | exactly one request, `{cdx}~compare_vanilla~orig_perturb` with `og` in A, or `~perturb_orig` with the answers swapped in `p_mode` |
| CompareVanilla.ModesSwap | llm_evaluators/compare_vanilla.py:58-69 | the two modes show the same pair in opposite positions, and their ids share the key `cdx` and differ only in the role |
| CompareVanilla.Build | llm_evaluators/compare_vanilla.py:90-111 | `main`: the model gate, the batch-mode switch, the `_perturb.jsonl` name in `p_mode`, and the file rewritten after every row |
| CompareVanilla.OnePerRow | llm_evaluators/compare_vanilla.py:97-105 | for an offered model, a file is written iff there are rows; it holds one request per row, in row order, under the mode's file name |
| CompareAxesRules.CreateDict | llm_evaluators/compare_axes_rules.py:37-66 | the request for a pair under one axis; an axis outside the table raises `KeyError` |
| CompareAxesRules.ProcessInstance | llm_evaluators/compare_axes_rules.py:68-86 | exactly one request per (row, axis), id `{cdx}~compare_axes_rules_cot~{metric}~orig_perturb` with `og` in A, or `~perturb_orig` swapped |
| CompareAxesRules.ModesSwap | llm_evaluators/compare_axes_rules.py:69-80 | the two modes present the same pair in opposite positions; the ids differ only in the role |
| CompareAxesRules.Build | llm_evaluators/compare_axes_rules.py:109-145 | `main`: the model gate, the batch-mode switch, all axes or `--axes`, and the output name of the mode |
| CompareAxesRules.EveryInstanceIsOne | llm_evaluators/compare_axes_rules.py:84-86 | every known axis on every row yields one request |
| CompareAxesRules.AxesCount | llm_evaluators/compare_axes_rules.py:121-125 | the output holds axes × rows requests |
| CompareAxesRules.AxesOrder | llm_evaluators/compare_axes_rules.py:121-125 | ... metric-major: axis `m` on row `j` at `m·rows + j` |
| CompareAxesRules.AllAxes | llm_evaluators/compare_axes_rules.py:117-145 | with `--all` in batch mode, a file is written iff the model is offered, and it holds all four axes over all rows |
| SingleAxesRubrics.CreateDict | scripts/llm_evaluators/single_axes_rubrics.py:38-66 | the request under one of the five rubric axes, always for model `gpt-4o`; another axis raises `KeyError` |
| SingleAxesRubrics.ProcessInstance | scripts/llm_evaluators/single_axes_rubrics.py:68-82 | `{cdx}~axes_rubric~{metric}~orig` on `og`, then `~pert` on `perturbed_gpt4` |
| SingleAxesRubrics.PairJoins | scripts/llm_evaluators/single_axes_rubrics.py:75-80 | the pair shares the analysis key `cdx` with roles `orig` and `pert` |
| SingleAxesRubrics.Build | scripts/llm_evaluators/single_axes_rubrics.py:96-118 | `main`, with the model gate corrected to the models the command line offers |
| SingleAxesRubrics.EveryInstanceIsPair | scripts/llm_evaluators/single_axes_rubrics.py:68-82 | every rubric axis on every row yields a pair |
| SingleAxesRubrics.AxesCount | scripts/llm_evaluators/single_axes_rubrics.py:107-112 | the output holds 2 × axes × rows requests |
| SingleAxesRubrics.AxesOrder | scripts/llm_evaluators/single_axes_rubrics.py:107-112 | ... metric-major: the pair of axis `m` on row `j` at `m·rows·2 + j·2` |
| SingleAxesRubrics.AlwaysGpt4o | scripts/llm_evaluators/single_axes_rubrics.py:54 | every request names `gpt-4o`, whatever `--model` says |
| SingleAxesRubrics.OfferedModelRejected | scripts/llm_evaluators/single_axes_rubrics.py:92-104 | as written, `--model gpt-3.5-turbo-0125` is offered by the command line but fails the gate and writes nothing |
| SingleAxesRubrics.EveryOfferedModelWrites | scripts/llm_evaluators/single_axes_rubrics.py:90-112 | with the corrected gate, every offered model writes the file: 2 × 5 × rows requests, all for `gpt-4o` |
| ParallelCall.LastContentIsLast | scripts/parallel_call.py:44-68 | the content kept is that of the last message of the kind; it is absent iff there is none |
| ParallelCall.NonSystem | scripts/parallel_call.py:44-58 | the kept messages are non-system messages of the input |
| ParallelCall.NonSystemSnoc | scripts/parallel_call.py:44-58 | appending a message keeps it iff it is not a system message |
| ParallelCall.ConversationIsNonSystem | scripts/parallel_call.py:49-58 | the Anthropic conversation is the non-system messages in order, each with its role and one text block of its content |
| ParallelCall.NoSystemKeepsAll | scripts/parallel_call.py:44-58 | with no system message every message is kept |
| ParallelCall.FormatAnthropicMessages | scripts/parallel_call.py:42-59 | the loop returns the specification `AnthropicFormat`, including the unbound-name failure when there is no system message |
| ParallelCall.FormatGeminiMessages | scripts/parallel_call.py:61-70 | the loop returns the specification `GeminiFormat`: the last system content and the last non-system content, or the unbound-name failure |
| ParallelCall.ConversationEndsWithLastTurn | scripts/parallel_call.py:61-70 | Gemini's prompt exists iff the Anthropic conversation is non-empty, and it is the text of its last turn |
| ParallelCall.GeminiAgreesWithAnthropic | scripts/parallel_call.py:42-70 | when the Gemini formatter succeeds, the Anthropic one does too, with the same system prompt, and Gemini's prompt is the last turn's text |
| ParallelCall.BuiltRequestsReshape | scripts/parallel_call.py:42-70 | for a [system, user] request as the builders write, both formatters succeed: the system prompt is split out and the user message becomes the one turn or the prompt |
| ParallelCall.FormatOpenAIResult | scripts/parallel_call.py:72-91 | the record keeps `custom_id`, has status 200, no request id, no error, object `chat.completion`, and id `parallel_req_` + the reply id; the reply's fields are copied |
| ParallelCall.FormatAnthropicResult | scripts/parallel_call.py:93-123 | succeeds iff the reply has a first content block with a `text` entry (an empty content list raises `IndexError`); the single choice holds that text and the reply's stop reason and role |
| ParallelCall.FormatGeminiResult | scripts/parallel_call.py:125-155 | succeeds iff there is a first candidate with a first part. The id is `parallel_req_Gemini_None`, the model is the aliased name, and the choice holds that part's text |
| ParallelCall.Resolve | scripts/parallel_call.py:190-272 | a call sends the alias of a short model name and any other name unchanged; the tables map `llama3-70b` to `meta-llama/Meta-Llama-3-70B-Instruct`, `claude3-opus` to `claude-3-opus-20240229` (lines 220-222), and `gemini-1.5-flash`/`-pro` to their `-latest` names (lines 268-272) |
| ParallelCall.AliasesIdempotent | scripts/parallel_call.py:190-272 | no alias is itself aliased: resolving a name twice under any of the three tables is the same as once |
| ParallelCall.CallKeepsId | scripts/parallel_call.py:158-299 | every record a call returns, a result or an error record `{'error': str(e), 'custom_id': ...}`, carries the request's `custom_id` |
| ParallelCall.CallReturns | scripts/parallel_call.py:215-314 | a call fails to return iff the Claude or Gemini formatter fails on the messages. For Claude that failure is retried without end; for Gemini it is raised. A [system, user] request always returns |
| ParallelCall.FirstRaised | scripts/parallel_call.py:336-346 | the exception of a record whose call raises, none iff no call raises |
| ParallelCall.CallAll | scripts/parallel_call.py:336-346 | the fan-out fails iff some call raises; when it writes, it writes one line per record, each the line of that record's call |
| ParallelCall.ProviderFor | scripts/parallel_call.py:335-348 | the provider is chosen from the model name: OpenAI for the four GPT names, Gemini for the two Gemini names |
| ParallelCall.RoutedNamesResolved | scripts/parallel_call.py:338-345 | the names `main` routes to Llama 3, Claude or Gemini are exactly that provider's alias keys, so none reaches its API in short form |
| ParallelCall.DispatchKeepsIds | scripts/parallel_call.py:331-346 | a written output has one record per input record, in input order, each with its input's `custom_id` |
| ParallelCall.DispatchOutcome | scripts/parallel_call.py:331-348 | the first record's model alone decides. An unlisted model prints "Still pending" and writes nothing; a listed one writes the output when every call returns |
| ParallelCall.Dispatch | scripts/parallel_call.py:331-348 | an empty input fails on `data[0]`; the run is "Still pending" iff the first record's model is not listed |
| ParallelCall.DispatchEndings | scripts/parallel_call.py:331-348 | under a listed model the run fails iff some call raises (only Gemini's can), never ends iff none raises and some call retries forever (only Claude's can), and otherwise writes |

## Left out

- Network calls to the providers, Firebase initialisation and writes, and reading and writing files
  are not modelled. The provider clients are function parameters, and the records read from files
  are sequences the functions take.
- Rate-limit retries (`backoff`) are abstracted: a client's answer is either a reply or a raised
  message. Only the retry that never ends (Claude's formatter failing before the `try`) is a
  distinct outcome.
- `joblib.Parallel` is modelled by its result, the per-record results in input order. Concurrency is
  not modelled.
- Argument parsing (`argparse`) is not modelled. The parsed arguments are a record, and its
  `--batch_mode` is a field, even though `store_true` with `default=True` makes it always true.
- langchain's `JsonOutputParser`, `json.loads`, `ast.literal_eval`, pydantic validation and prompt
  rendering are opaque functions. Their internals, and what the rendered prompts say, are not
  modelled.
- Floating-point numbers in requests are kept as a `real` field. Their formatting in JSON is not
  modelled.
- PyValues.PyEquals: floats are exact reals, so binary64 rounding and the values `nan`, `inf`
  and `-inf` (which `json.loads` accepts as `NaN` and `Infinity`) are not modelled. Values beyond
  JSON's shapes that `ast.literal_eval` can produce (tuples, sets, complex numbers) are opaque
  and equal only to themselves.
- Extractor.RoundTrip: the prose before the object holds no `{` and no `"`. Prose with a stray
  quote or brace can make the scan start or end elsewhere, and the lemma says nothing about it.
- ParallelCall.CallAll: when one call raises and another is retried forever, the model reports the
  exception. Which of the two `joblib` meets first depends on scheduling, which is not modelled.
- PushFirebase.UserGenerator.Next: requires at least one user. With `--num_users 0` the source's
  `next()` never returns, and that non-termination is not modelled.
- PushFirebase.PrepareUpload: requires `numUsers >= 1` for the same reason. With zero users, the
  first successful document would hang the run.
- Columns missing from a pandas frame or a JSON record (other than `custom_id`, a missing table
  row, the orig/pert lookup and an empty frame) are not modelled. Those lookups raise `KeyError`
  in the source, and the model assumes the fields are present.
- The answers table's `cdx` column is compared as its string form; pandas' dtype inference is not
  modelled.
- Partial output written before a builder raises mid-run is not modelled: a failed run writes
  nothing in the model.
- Logging, `print`, progress bars and the debug-mode dump of `push_firebase.py` are not modelled.
- Gemini safety settings and the generation configuration are passed to the client unchanged and
  are not modelled.
- `scripts/analyze_results.py` breaks off mid-statement and is not part of this model. Verdict
  normalisation, position-bias counting and score aggregation do not exist in the code and are not
  modelled.
- The compare prompts ask for `[[A]]`-style verdicts while the schemas declare an `int` verdict.
  The schemas are modelled as declared.

## Findings

| source | as written | input that shows it | evidently intended | confidence | as-written member | corrected member |
|---|---|---|---|---|---|---|
| perturbations/analyze_explanations.py:11 | the module imports `CompareVanillaCOTScore` and `SingleVanillaCOTScore` from `perturbations/parsers.py`, which declares neither, so importing the module raises `ImportError` | any run of the script | the two score classes are declared in `perturbations/parsers.py` beside the others, derived from pydantic's `BaseModel`, so the import succeeds and the extractor accepts them | not executed | AnalyzeExplanations.ImportAsWrittenFails | AnalyzeExplanations.ImportCorrected |
| scripts/llm_evaluators/single_axes_rubrics.py:92-104 | the model gate accepts `gpt-3.5-turbo`, but the command line only offers `gpt-3.5-turbo-0125`, so that choice prints "3Still pending" and writes nothing | `--model gpt-3.5-turbo-0125` | every model the command line offers passes the gate and writes the requests | not executed | SingleAxesRubrics.OfferedModelRejected | SingleAxesRubrics.EveryOfferedModelWrites |
