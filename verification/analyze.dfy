/** The explanation analysis of perturbations/analyze_explanations.py: parse each judge reply
    for a (justification, score) pair, join the `orig` and `pert` replies of one question on the
    first `~` segment of their request id, and keep the pairs whose scores agree; and the
    `check_results` tally of replies whose score is `True`. */
module AnalyzeExplanations {
  import opened Wrappers
  import opened PyValues
  import opened Schemas
  import opened Extractor
  import Text

  // ---------------------------------------------------------------------------------------
  // The import of line 11

  /** The classes line 11 imports from perturbations/parsers.py (besides the parser itself). */
  const ImportedClasses := ["DirectError", "CompareVanillaCOTScore", "SingleVanillaCOTScore"]

  /** As written, the import fails: perturbations/parsers.py declares neither score class, so
      the script stops with an ImportError naming the first of them before `main` runs. */
  lemma ImportAsWrittenFails()
    ensures ImportNames(PerturbationParsers, ImportedClasses) == Err(NotDeclared("CompareVanillaCOTScore"))
  {
    assert PerturbationParsers[3] == DirectError;
    assert Lookup(PerturbationParsers, "DirectError") == Some(DirectError);
    assert Lookup(PerturbationParsers, "CompareVanillaCOTScore").None?;
  }

  /** With the two score classes declared in perturbations/parsers.py, the import succeeds, and
      every class it yields is one the custom parser accepts, as the analysis needs for its
      fallback; the same score class taken from llm_evaluators/parsers.py instead would be
      refused, its base being langchain's compatibility class. */
  lemma ImportCorrected()
    ensures var imported := ImportNames(PerturbationParsers + [AnalysisCompareScore, AnalysisScore], ImportedClasses);
      && imported.Ok?
      && forall i :: 0 <= i < |imported.value| ==> NewCustomJsonOutputParser(imported.value[i]).Ok?
    ensures NewCustomJsonOutputParser(SingleVanillaCOTScore) == Err(NotAModelClass)
  {
    var declared := PerturbationParsers + [AnalysisCompareScore, AnalysisScore];
    assert declared[3].name == "DirectError";
    assert declared[5].name == "CompareVanillaCOTScore";
    assert declared[6].name == "SingleVanillaCOTScore";
    assert forall j :: 0 <= j < |declared| ==> declared[j].base == PydanticModel;
  }

  // ---------------------------------------------------------------------------------------
  // parse_and_get_score

  /** `(v['justification'], v['score'])`, subscripted in that order. */
  function JustificationAndScore(v: Value): (r: Result<(Value, Value), Failure>)
    ensures r.Ok? <==> v.Dict? && "justification" in v.fields && "score" in v.fields
    ensures r.Ok? ==> r.value == (v.fields["justification"], v.fields["score"])
    ensures !v.Dict? ==> r == Err(NotSubscriptable)
    ensures v.Dict? && "justification" !in v.fields ==> r == Err(KeyMissing("justification"))
  {
    match Get(v, "justification")
    case Err(e) => Err(e)
    case Ok(j) =>
      match Get(v, "score")
      case Err(e) => Err(e)
      case Ok(s) => Ok((j, s))
  }

  /** parse_and_get_score: the library parser first; the extractor only when the library
      parser raised its own parse exception; any other exception propagates. */
  function ParseAndGetScore(lib: Library, data: string): (r: Result<(Value, Value), Failure>)
    ensures lib.jsonOutputParser(data).OtherException? ==> r.Err?
    ensures lib.jsonOutputParser(data).Parsed? ==> r == JustificationAndScore(lib.jsonOutputParser(data).value)
    ensures r.Ok? ==> exists v: Value :: v.Dict? && JustificationAndScore(v) == r
  {
    match lib.jsonOutputParser(data)
    case Parsed(v) => JustificationAndScore(v)
    case OtherException(m) => Err(LibraryError(m))
    case ParserException =>
      match Invoke(CustomJsonOutputParser(AnalysisScore), lib, data)
      case Err(e) => Err(e)
      case Ok(fields) => JustificationAndScore(Dict(fields))
  }

  /** The extractor and the decoders behind it are consulted only when the library parser
      raised its parse exception. */
  lemma FallbackOnlyOnParserException(lib: Library, other: Library, data: string)
    requires other.jsonOutputParser == lib.jsonOutputParser
    requires !lib.jsonOutputParser(data).ParserException?
    ensures ParseAndGetScore(lib, data) == ParseAndGetScore(other, data)
  {
  }

  /** A reply the extractor recovers and validates against the score schema yields its
      justification and score, whatever prose surrounds it. */
  lemma FallbackRecoversScore(lib: Library, data: string, fields: map<string, Value>)
    requires lib.jsonOutputParser(data).ParserException?
    requires Invoke(CustomJsonOutputParser(AnalysisScore), lib, data) == Ok(fields)
    requires "justification" in fields && "score" in fields
    ensures ParseAndGetScore(lib, data) == Ok((fields["justification"], fields["score"]))
  {
  }

  /** When the library parser reads the reply, its `justification` and `score` are the result,
      and a reading without them is a KeyError, whatever the extractor would have made of it. */
  lemma LibraryPathScores(lib: Library, data: string)
    requires lib.jsonOutputParser(data).Parsed?
    ensures var v := lib.jsonOutputParser(data).value;
      && (v.Dict? && "justification" in v.fields && "score" in v.fields
          ==> ParseAndGetScore(lib, data) == Ok((v.fields["justification"], v.fields["score"])))
      && (v.Dict? && "justification" !in v.fields
          ==> ParseAndGetScore(lib, data) == Err(KeyMissing("justification")))
      && (v.Dict? && "justification" in v.fields && "score" !in v.fields
          ==> ParseAndGetScore(lib, data) == Err(KeyMissing("score")))
      && (!v.Dict? ==> ParseAndGetScore(lib, data) == Err(NotSubscriptable))
  {
  }

  /** Any exception of the library parser other than its parse exception is raised again. */
  lemma OtherExceptionsPropagate(lib: Library, data: string)
    requires lib.jsonOutputParser(data).OtherException?
    ensures ParseAndGetScore(lib, data) == Err(LibraryError(lib.jsonOutputParser(data).message))
  {
  }

  // ---------------------------------------------------------------------------------------
  // Records and their join key

  /** One line of a judge output file: its request id and the reply text. */
  datatype Row = Row(customId: string, content: string)

  /** The join key: the first `~` segment of the id. */
  function Qid(row: Row): string
  {
    Text.First(row.customId, '~')
  }

  /** The role: the last `~` segment of the id. */
  function Role(row: Row): string
  {
    Text.Last(row.customId, '~')
  }

  /** An id built as `qid~...~role` from a `~`-free question id and role is keyed and labelled
      by exactly those two. */
  lemma IdSegments(qid: string, middle: string, role: string)
    requires '~' !in qid && '~' !in role
    ensures Qid(Row(qid + ['~'] + middle + ['~'] + role, "")) == qid
    ensures Role(Row(qid + ['~'] + middle + ['~'] + role, "")) == role
  {
    assert qid + ['~'] + middle + ['~'] + role == qid + ['~'] + (middle + ['~'] + role);
    Text.FirstOfJoined(qid, '~', middle + ['~'] + role);
    Text.LastOfJoined(qid + ['~'] + middle, '~', role);
  }

  // ---------------------------------------------------------------------------------------
  // The groups of `groupby('qid')`: the distinct keys in ascending order

  predicate StrictlySorted(qs: seq<string>)
  {
    forall i, j :: 0 <= i < j < |qs| ==> Text.Less(qs[i], qs[j])
  }

  /** Adds `q` to an ascending list of distinct keys. */
  function Insert(qs: seq<string>, q: string): (r: seq<string>)
    requires StrictlySorted(qs)
    ensures StrictlySorted(r)
    ensures forall x :: x in r <==> x in qs || x == q
  {
    if qs == [] then [q]
    else if q == qs[0] then qs
    else if Text.Less(q, qs[0]) then
      assert forall j :: 0 <= j < |qs| ==> Text.Less(q, qs[j]) by {
        forall j | 0 < j < |qs| ensures Text.Less(q, qs[j]) {
          Text.LessTransitive(q, qs[0], qs[j]);
        }
      }
      [q] + qs
    else
      var rest := Insert(qs[1..], q);
      Text.LessTotal(q, qs[0]);
      assert forall x :: x in rest ==> Text.Less(qs[0], x) by {
        forall x | x in rest ensures Text.Less(qs[0], x) {
          if x != q {
            var j :| 0 <= j < |qs[1..]| && qs[1..][j] == x;
            assert qs[j + 1] == x;
          }
        }
      }
      [qs[0]] + rest
  }

  /** The group keys of `rows`, in the ascending order pandas iterates them. */
  function Qids(rows: seq<Row>): (r: seq<string>)
    ensures StrictlySorted(r)
    ensures forall q :: q in r <==> exists k :: 0 <= k < |rows| && Qid(rows[k]) == q
  {
    if rows == [] then []
    else
      var init := rows[..|rows| - 1];
      var r := Insert(Qids(init), Qid(rows[|rows| - 1]));
      assert forall k :: 0 <= k < |init| ==> init[k] == rows[k];
      r
  }

  /** The row `k` belongs to group `qid` and has role `role`. */
  predicate InGroup(rows: seq<Row>, k: int, qid: string, role: string)
    requires 0 <= k < |rows|
  {
    Qid(rows[k]) == qid && Role(rows[k]) == role
  }

  /** The content of the first row of group `qid` whose role is `role`
      (`group[group['category'] == role].iloc[0]`), or nothing when the group has none. */
  function FirstOfRole(rows: seq<Row>, qid: string, role: string): Option<string>
  {
    if rows == [] then None
    else if Qid(rows[0]) == qid && Role(rows[0]) == role then Some(rows[0].content)
    else FirstOfRole(rows[1..], qid, role)
  }

  /** The row looked up is the earliest row of the group with that role; nothing is found
      exactly when the group has no row with that role. */
  lemma {:induction false} FirstOfRoleIsFirst(rows: seq<Row>, qid: string, role: string)
    ensures FirstOfRole(rows, qid, role).None? <==> forall k :: 0 <= k < |rows| ==> !InGroup(rows, k, qid, role)
    ensures FirstOfRole(rows, qid, role).Some? ==>
      exists k :: 0 <= k < |rows| && InGroup(rows, k, qid, role)
        && rows[k].content == FirstOfRole(rows, qid, role).value
        && forall j :: 0 <= j < k ==> !InGroup(rows, j, qid, role)
    decreases |rows|
  {
    if rows != [] && !InGroup(rows, 0, qid, role) {
      var tail := rows[1..];
      FirstOfRoleIsFirst(tail, qid, role);
      assert forall k :: 0 < k < |rows| ==> (InGroup(rows, k, qid, role) <==> InGroup(tail, k - 1, qid, role));
      if FirstOfRole(tail, qid, role).Some? {
        var k :| 0 <= k < |tail| && InGroup(tail, k, qid, role)
          && tail[k].content == FirstOfRole(tail, qid, role).value
          && forall j :: 0 <= j < k ==> !InGroup(tail, j, qid, role);
        assert InGroup(rows, k + 1, qid, role) && rows[k + 1].content == tail[k].content;
      } else {
        assert forall k :: 0 <= k < |rows| ==> !InGroup(rows, k, qid, role);
      }
    }
  }

  // ---------------------------------------------------------------------------------------
  // The grouping loop of main

  /** One kept pair. */
  datatype Eval = Eval(qid: string, origExplanation: Value, origScore: Value,
                       pertExplanation: Value, pertScore: Value)

  /** What the loop body adds for one question whose two replies were found: the pair when
      both parse and the scores are equal, nothing otherwise. */
  function Kept(lib: Library, qid: string, original: string, perturbed: string): (r: seq<Eval>)
    ensures |r| <= 1
    ensures forall e :: e in r ==> e.qid == qid && PyEquals(e.origScore, e.pertScore)
  {
    match ParseAndGetScore(lib, original)
    case Err(_) => []
    case Ok((oe, os)) =>
      match ParseAndGetScore(lib, perturbed)
      case Err(_) => []
      case Ok((pe, ps)) => if PyEquals(os, ps) then [Eval(qid, oe, os, pe, ps)] else []
  }

  /** The pairs collected over the groups `qids`, or the error that ends the run when a group
      lacks an `orig` or a `pert` row. */
  function Collect(lib: Library, rows: seq<Row>, qids: seq<string>): (r: Result<seq<Eval>, Failure>)
    ensures r.Err? ==> r.error == IndexOutOfRange
    ensures r.Ok? ==> |r.value| <= |qids|
    ensures r.Ok? ==> forall e :: e in r.value ==> e.qid in qids && PyEquals(e.origScore, e.pertScore)
  {
    if qids == [] then Ok([])
    else
      var q := qids[|qids| - 1];
      match Collect(lib, rows, qids[..|qids| - 1])
      case Err(e) => Err(e)
      case Ok(evals) =>
        match (FirstOfRole(rows, q, "orig"), FirstOfRole(rows, q, "pert"))
        case (Some(o), Some(p)) => Ok(evals + Kept(lib, q, o, p))
        case _ => Err(IndexOutOfRange)
  }

  /** The grouping stage of main over one output file: `df['custom_id']` fails on an empty
      file; otherwise the groups in key order. */
  function Agreeing(lib: Library, rows: seq<Row>): (r: Result<seq<Eval>, Failure>)
    ensures r.Err? <==> rows == [] || Collect(lib, rows, Qids(rows)).Err?
    ensures rows == [] ==> r == Err(KeyMissing("custom_id"))
    ensures r.Ok? ==> forall e :: e in r.value ==>
      (exists k :: 0 <= k < |rows| && Qid(rows[k]) == e.qid) && PyEquals(e.origScore, e.pertScore)
  {
    if rows == [] then Err(KeyMissing("custom_id")) else Collect(lib, rows, Qids(rows))
  }

  /** The loop of main, lines 73-97: `evals` and `count` as the source builds them. */
  method AgreeingPairs(lib: Library, rows: seq<Row>) returns (r: Result<seq<Eval>, Failure>, count: nat)
    ensures r == Agreeing(lib, rows)
    ensures r.Ok? ==> count == |r.value|
  {
    if rows == [] {
      return Err(KeyMissing("custom_id")), 0;
    }
    var groups := Qids(rows);
    var evals: seq<Eval> := [];
    count := 0;
    var i := 0;
    assert groups[..0] == [];
    while i < |groups|
      invariant 0 <= i <= |groups|
      invariant Collect(lib, rows, groups[..i]) == Ok(evals)
      invariant count == |evals|
    {
      var name := groups[i];
      var original := FirstOfRole(rows, name, "orig");
      var perturbed := FirstOfRole(rows, name, "pert");
      if original.None? || perturbed.None? {
        MissingSideEndsRun(lib, rows, groups, i);
        AgreeingGroups(lib, rows);
        return Err(IndexOutOfRange), count;
      }
      ghost var before := evals;
      evals, count := KeepIfAgreeing(lib, name, original.value, perturbed.value, evals, count);
      CollectOkStep(lib, rows, groups, i, before, original.value, perturbed.value);
      i := i + 1;
    }
    assert groups[..i] == groups;
    AgreeingGroups(lib, rows);
    r := Ok(evals);
  }

  lemma AgreeingGroups(lib: Library, rows: seq<Row>)
    requires rows != []
    ensures Agreeing(lib, rows) == Collect(lib, rows, Qids(rows))
  {
  }

  lemma MissingSideEndsRun(lib: Library, rows: seq<Row>, qids: seq<string>, i: nat)
    requires i < |qids| && Collect(lib, rows, qids[..i]).Ok?
    requires FirstOfRole(rows, qids[i], "orig").None? || FirstOfRole(rows, qids[i], "pert").None?
    ensures Collect(lib, rows, qids) == Err(IndexOutOfRange)
  {
    CollectStep(lib, rows, qids, i);
    CollectErrorPersists(lib, rows, qids, i + 1);
    assert qids[..|qids|] == qids;
  }

  /** The body of the loop for one group whose two replies were found. */
  method KeepIfAgreeing(lib: Library, name: string, original: string, perturbed: string,
                        evals: seq<Eval>, count: nat) returns (evals': seq<Eval>, count': nat)
    ensures evals' == evals + Kept(lib, name, original, perturbed)
    ensures count' == count + |Kept(lib, name, original, perturbed)|
  {
    evals', count' := evals, count;
    var orig := ParseAndGetScore(lib, original);
    if orig.Ok? {
      var pert := ParseAndGetScore(lib, perturbed);
      if pert.Ok? {
        if PyEquals(orig.value.1, pert.value.1) {
          evals' := evals + [Eval(name, orig.value.0, orig.value.1, pert.value.0, pert.value.1)];
          count' := count + 1;
        }
      }
    }
    KeptCases(lib, name, original, perturbed);
  }

  lemma KeptCases(lib: Library, qid: string, original: string, perturbed: string)
    ensures var o := ParseAndGetScore(lib, original);
      var p := ParseAndGetScore(lib, perturbed);
      Kept(lib, qid, original, perturbed) ==
        if o.Ok? && p.Ok? && PyEquals(o.value.1, p.value.1) then [Eval(qid, o.value.0, o.value.1, p.value.0, p.value.1)]
        else []
  {
  }

  lemma CollectOkStep(lib: Library, rows: seq<Row>, qids: seq<string>, i: nat, before: seq<Eval>,
                      original: string, perturbed: string)
    requires i < |qids| && Collect(lib, rows, qids[..i]) == Ok(before)
    requires FirstOfRole(rows, qids[i], "orig") == Some(original)
    requires FirstOfRole(rows, qids[i], "pert") == Some(perturbed)
    ensures Collect(lib, rows, qids[..i + 1]) == Ok(before + Kept(lib, qids[i], original, perturbed))
  {
    CollectStep(lib, rows, qids, i);
  }

  lemma CollectStep(lib: Library, rows: seq<Row>, qids: seq<string>, i: nat)
    requires i < |qids|
    ensures var before := Collect(lib, rows, qids[..i]);
      var o := FirstOfRole(rows, qids[i], "orig");
      var p := FirstOfRole(rows, qids[i], "pert");
      Collect(lib, rows, qids[..i + 1]) ==
        if before.Err? then before
        else if o.None? || p.None? then Err(IndexOutOfRange)
        else Ok(before.value + Kept(lib, qids[i], o.value, p.value))
  {
    assert qids[..i + 1][..i] == qids[..i];
  }

  /** Once a group fails, the run has failed with that error, whatever groups follow. */
  lemma {:induction false} CollectErrorPersists(lib: Library, rows: seq<Row>, qids: seq<string>, i: nat)
    requires i <= |qids|
    requires Collect(lib, rows, qids[..i]).Err?
    ensures Collect(lib, rows, qids[..|qids|]) == Collect(lib, rows, qids[..i])
    decreases |qids| - i
  {
    if i < |qids| {
      CollectStep(lib, rows, qids, i);
      CollectErrorPersists(lib, rows, qids, i + 1);
    }
  }

  /** Both sides of every group are found exactly when no group lacks a side. */
  predicate Complete(rows: seq<Row>, qids: seq<string>)
  {
    forall i :: 0 <= i < |qids| ==>
      FirstOfRole(rows, qids[i], "orig").Some? && FirstOfRole(rows, qids[i], "pert").Some?
  }

  /** A single group without an `orig` or a `pert` row ends the whole run with an error. */
  lemma {:induction false} MissingSideAborts(lib: Library, rows: seq<Row>, qids: seq<string>)
    ensures Collect(lib, rows, qids).Err? <==> !Complete(rows, qids)
    decreases |qids|
  {
    if qids != [] {
      var init := qids[..|qids| - 1];
      var q := qids[|qids| - 1];
      MissingSideAborts(lib, rows, init);
      CompleteSnoc(rows, qids);
      assert Collect(lib, rows, qids).Err? <==>
        Collect(lib, rows, init).Err? || FirstOfRole(rows, q, "orig").None? || FirstOfRole(rows, q, "pert").None?;
    }
  }

  lemma CompleteSnoc(rows: seq<Row>, qids: seq<string>)
    requires qids != []
    ensures var q := qids[|qids| - 1];
      Complete(rows, qids) <==>
        (Complete(rows, qids[..|qids| - 1]) && FirstOfRole(rows, q, "orig").Some? && FirstOfRole(rows, q, "pert").Some?)
  {
    var init := qids[..|qids| - 1];
    assert forall i :: 0 <= i < |init| ==> init[i] == qids[i];
  }

  /** The pairs kept: a pair for question `q` is in the result exactly when `q` is one of the
      groups, both its replies parse, and the two scores are equal under Python's `==`. */
  lemma {:induction false} KeptExactly(lib: Library, rows: seq<Row>, qids: seq<string>, e: Eval)
    requires Collect(lib, rows, qids).Ok?
    ensures e in Collect(lib, rows, qids).value <==>
      && e.qid in qids
      && FirstOfRole(rows, e.qid, "orig").Some? && FirstOfRole(rows, e.qid, "pert").Some?
      && ParseAndGetScore(lib, FirstOfRole(rows, e.qid, "orig").value) == Ok((e.origExplanation, e.origScore))
      && ParseAndGetScore(lib, FirstOfRole(rows, e.qid, "pert").value) == Ok((e.pertExplanation, e.pertScore))
      && PyEquals(e.origScore, e.pertScore)
    decreases |qids|
  {
    if qids != [] {
      var init := qids[..|qids| - 1];
      var q := qids[|qids| - 1];
      KeptExactly(lib, rows, init, e);
      assert qids == init + [q];
      assert e.qid in qids <==> e.qid in init || e.qid == q;
    }
  }

  /** Kept pairs come out in ascending question order, one per question at most. */
  lemma {:induction false} KeptInGroupOrder(lib: Library, rows: seq<Row>, qids: seq<string>)
    requires StrictlySorted(qids)
    requires Collect(lib, rows, qids).Ok?
    ensures var evals := Collect(lib, rows, qids).value;
      forall i, j :: 0 <= i < j < |evals| ==> Text.Less(evals[i].qid, evals[j].qid)
    decreases |qids|
  {
    if qids != [] {
      var init := qids[..|qids| - 1];
      var q := qids[|qids| - 1];
      assert StrictlySorted(init);
      KeptInGroupOrder(lib, rows, init);
      var before := Collect(lib, rows, init).value;
      forall e | e in before ensures Text.Less(e.qid, q) {
        KeptExactly(lib, rows, init, e);
      }
    }
  }

  // ---------------------------------------------------------------------------------------
  // check_results

  /** How many of `scores` equal `True` under Python's `==` (so `1` and `1.0` count too). */
  function Flagged(scores: seq<Value>): (n: nat)
    ensures n <= |scores|
  {
    if scores == [] then 0
    else Flagged(scores[..|scores| - 1]) + (if PyEquals(scores[|scores| - 1], Bool(true)) then 1 else 0)
  }

  /** The positions of `scores` whose value is `== True`: the independent reading of the tally. */
  ghost function TrueAt(scores: seq<Value>): set<int>
  {
    set i | 0 <= i < |scores| && PyEquals(scores[i], Bool(true))
  }

  /** The tally is exactly the number of positions holding a value `== True`. */
  lemma {:induction false} FlaggedCountsTrue(scores: seq<Value>)
    ensures Flagged(scores) == |TrueAt(scores)|
    decreases |scores|
  {
    if scores != [] {
      var n := |scores| - 1;
      var init := scores[..n];
      FlaggedCountsTrue(init);
      var last: set<int> := if PyEquals(scores[n], Bool(true)) then {n} else {};
      assert TrueAt(scores) == TrueAt(init) + last by {
        forall i | 0 <= i < n ensures init[i] == scores[i] { }
      }
      assert TrueAt(init) !! last;
    }
  }

  lemma {:induction false} FlaggedAll(scores: seq<Value>)
    ensures Flagged(scores) == |scores| <==> forall i :: 0 <= i < |scores| ==> PyEquals(scores[i], Bool(true))
    ensures Flagged(scores) == 0 <==> forall i :: 0 <= i < |scores| ==> !PyEquals(scores[i], Bool(true))
    decreases |scores|
  {
    if scores != [] {
      var init := scores[..|scores| - 1];
      FlaggedAll(init);
      assert forall i :: 0 <= i < |init| ==> init[i] == scores[i];
    }
  }

  /** The exception the library parser raises on a reply it does not read. */
  function Raised(o: LibOutcome): (f: Failure)
    requires !o.Parsed?
    ensures o.ParserException? <==> f == OutputParserError
  {
    match o
    case ParserException => OutputParserError
    case OtherException(m) => LibraryError(m)
  }

  /** The first reply the library parser does not read, if any. */
  predicate FirstUnread(lib: Library, contents: seq<string>, i: int)
  {
    0 <= i < |contents| && !lib.jsonOutputParser(contents[i]).Parsed?
    && forall j :: 0 <= j < i ==> lib.jsonOutputParser(contents[j]).Parsed?
  }

  /** The library parser's result for every reply, or the first exception it raises. */
  function Predictions(lib: Library, contents: seq<string>): (r: Result<seq<Value>, Failure>)
    ensures r.Ok? ==> (|r.value| == |contents|
      && forall i :: 0 <= i < |contents| ==> lib.jsonOutputParser(contents[i]) == Parsed(r.value[i]))
  {
    if contents == [] then Ok([])
    else
      match Predictions(lib, contents[..|contents| - 1])
      case Err(e) => Err(e)
      case Ok(ps) =>
        match lib.jsonOutputParser(contents[|contents| - 1])
        case Parsed(v) => Ok(ps + [v])
        case _ => Err(Raised(lib.jsonOutputParser(contents[|contents| - 1])))
  }

  /** The predictions fail exactly when some reply is not read, and then with the exception
      raised on the first such reply. */
  lemma {:induction false} PredictionsFailure(lib: Library, contents: seq<string>)
    ensures Predictions(lib, contents).Err?
      <==> exists i :: 0 <= i < |contents| && !lib.jsonOutputParser(contents[i]).Parsed?
    ensures Predictions(lib, contents).Err? ==>
      exists i :: FirstUnread(lib, contents, i) && Predictions(lib, contents).error == Raised(lib.jsonOutputParser(contents[i]))
    decreases |contents|
  {
    if contents != [] {
      var n := |contents| - 1;
      var init := contents[..n];
      PredictionsFailure(lib, init);
      assert forall j :: 0 <= j < n ==> init[j] == contents[j];
      if Predictions(lib, init).Err? {
        var i :| FirstUnread(lib, init, i) && Predictions(lib, init).error == Raised(lib.jsonOutputParser(init[i]));
        assert FirstUnread(lib, contents, i);
      } else if !lib.jsonOutputParser(contents[n]).Parsed? {
        assert FirstUnread(lib, contents, n);
      }
    }
  }

  /** `x[key]` for every prediction, or the first failure. */
  function Column(values: seq<Value>, key: string): (r: Result<seq<Value>, Failure>)
    ensures r.Ok? ==> (|r.value| == |values|
      && forall i :: 0 <= i < |values| ==> Get(values[i], key) == Ok(r.value[i]))
    ensures r.Err? ==> exists i :: 0 <= i < |values| && Get(values[i], key).Err?
  {
    if values == [] then Ok([])
    else
      match Column(values[..|values| - 1], key)
      case Err(e) => Err(e)
      case Ok(vs) =>
        match Get(values[|values| - 1], key)
        case Ok(v) => Ok(vs + [v])
        case Err(e) => Err(e)
  }

  /** check_results over one output file: (replies whose score is `True`, all replies). */
  function CheckResults(lib: Library, contents: seq<string>): (r: Result<(nat, nat), Failure>)
    ensures r.Ok? ==> r.value.1 == |contents| && r.value.0 <= r.value.1
    ensures r.Ok? ==> r.value.0 == |FlaggedReplies(lib, contents)|
    ensures contents == [] ==> r == Err(KeyMissing("response"))
  {
    if contents == [] then Err(KeyMissing("response"))
    else
      match Predictions(lib, contents)
      case Err(e) => Err(e)
      case Ok(predictions) =>
        match Column(predictions, "score")
        case Err(e) => Err(e)
        case Ok(scores) =>
          match Column(predictions, "explanation")
          case Err(e) => Err(e)
          case Ok(_) =>
            ScoresAreReplyScores(lib, contents, predictions, scores);
            FlaggedCountsTrue(scores);
            Ok((Flagged(scores), |contents|))
  }

  /** The `score` entry of the library parser's reading of a reply (`None` where there is none). */
  function ReplyScore(lib: Library, content: string): Value
  {
    match lib.jsonOutputParser(content)
    case Parsed(Dict(fields)) => if "score" in fields then fields["score"] else Null
    case _ => Null
  }

  /** The replies whose parsed `score` is `== True`, by position. */
  ghost function FlaggedReplies(lib: Library, contents: seq<string>): set<int>
  {
    set i | 0 <= i < |contents| && PyEquals(ReplyScore(lib, contents[i]), Bool(true))
  }

  lemma ScoresAreReplyScores(lib: Library, contents: seq<string>, predictions: seq<Value>, scores: seq<Value>)
    requires Predictions(lib, contents) == Ok(predictions)
    requires Column(predictions, "score") == Ok(scores)
    ensures |scores| == |contents|
    ensures forall i :: 0 <= i < |contents| ==> ReplyScore(lib, contents[i]) == scores[i]
    ensures TrueAt(scores) == FlaggedReplies(lib, contents)
  {
    forall i | 0 <= i < |contents| ensures ReplyScore(lib, contents[i]) == scores[i] {
      assert lib.jsonOutputParser(contents[i]) == Parsed(predictions[i]);
      assert Get(predictions[i], "score") == Ok(scores[i]);
    }
  }

  /** The tally is all of the file exactly when every reply's score is `True` (or `1`, or `1.0`), and
      zero exactly when none is. */
  lemma CheckResultsTally(lib: Library, contents: seq<string>)
    requires CheckResults(lib, contents).Ok?
    ensures var (flagged, total) := CheckResults(lib, contents).value;
      && flagged == |set i | 0 <= i < |contents| && PyEquals(ReplyScore(lib, contents[i]), Bool(true))|
      && (flagged == total <==> forall i :: 0 <= i < |contents| ==> PyEquals(ReplyScore(lib, contents[i]), Bool(true)))
      && (flagged == 0 <==> forall i :: 0 <= i < |contents| ==> !PyEquals(ReplyScore(lib, contents[i]), Bool(true)))
  {
    var predictions := Predictions(lib, contents).value;
    var scores := Column(predictions, "score").value;
    FlaggedAll(scores);
    ScoresAreReplyScores(lib, contents, predictions, scores);
    assert FlaggedReplies(lib, contents) == set i | 0 <= i < |contents| && PyEquals(ReplyScore(lib, contents[i]), Bool(true));
  }
}
