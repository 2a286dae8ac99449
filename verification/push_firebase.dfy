/** The upload preparation of scripts/push_firebase.py: each perturbation output file is
    tagged with the perturbation type named by its file name, each document in it is parsed
    into an annotation record or logged as an error, and successful records are handed to
    annotators in round-robin order. */
module PushFirebase {
  import opened Wrappers
  import opened PyValues
  import opened Schemas
  import opened Extractor
  import Text
  import opened PerturbationTable

  // ---------------------------------------------------------------------------------------
  // generate_users

  function UserName(i: nat): string
  {
    "user" + Text.NatToString(i)
  }

  /** `[f"user{i}" for i in range(1, n + 1)]` */
  function Users(n: nat): (r: seq<string>)
    ensures |r| == n && forall i :: 0 <= i < n ==> r[i] == UserName(i + 1)
  {
    seq(n, i requires 0 <= i < n => UserName(i + 1))
  }

  /** The `n` annotators have `n` distinct names. */
  lemma UsersDistinct(n: nat)
    ensures forall i, j :: 0 <= i < j < n ==> Users(n)[i] != Users(n)[j]
  {
    forall i, j | 0 <= i < j < n ensures Users(n)[i] != Users(n)[j] {
      Text.NatToStringInjective(i + 1, j + 1);
      assert UserName(i + 1)[4..] == Text.NatToString(i + 1);
      assert UserName(j + 1)[4..] == Text.NatToString(j + 1);
    }
  }

  /** Counting one further around a cycle of `n`. */
  lemma ModSucc(k: nat, n: nat)
    requires n >= 1
    ensures (k + 1) % n == if k % n + 1 == n then 0 else k % n + 1
  {
    var q, r := k / n, k % n;
    assert k == q * n + r;
    if r + 1 == n {
      assert k + 1 == (q + 1) * n;
      ModOfMultiple(q + 1, n);
    } else {
      assert k + 1 == q * n + (r + 1);
      ModUnique(k + 1, n, q, r + 1);
    }
  }

  lemma ModOfMultiple(q: nat, n: nat)
    requires n >= 1
    ensures (q * n) % n == 0
  {
    ModUnique(q * n, n, q, 0);
  }

  lemma ModUnique(a: nat, n: nat, q: nat, r: nat)
    requires n >= 1 && r < n && a == q * n + r
    ensures a % n == r
  {
    var q', r' := a / n, a % n;
    assert a == q' * n + r';
    if q' < q {
      MulAtLeast(q - q', n);
    } else if q' > q {
      MulAtLeast(q' - q, n);
    }
  }

  lemma MulAtLeast(x: nat, n: nat)
    requires x >= 1
    ensures x * n >= n
  {
  }

  /** The generator returned by `generate_users(n)`: it walks the list of user names and starts
      over at its end, forever. */
  class UserGenerator {
    const users: seq<string>
    var position: nat
    /** How many names have been drawn so far. */
    ghost var drawn: nat

    ghost predicate Valid()
      reads this
    {
      && users == Users(|users|)
      && (|users| > 0 ==> position < |users| && position == drawn % |users|)
    }

    constructor(numUsers: nat)
      ensures Valid() && users == Users(numUsers) && drawn == 0
    {
      users := Users(numUsers);
      position := 0;
      drawn := 0;
    }

    /** `next(generator)`: the draw numbered k (from 0) is `user{k mod n + 1}`. */
    method Next() returns (u: string)
      requires Valid() && |users| > 0
      modifies this
      ensures Valid() && drawn == old(drawn) + 1
      ensures u == UserName(old(drawn) % |users| + 1)
    {
      ModSucc(drawn, |users|);
      u := users[position];
      position := if position + 1 == |users| then 0 else position + 1;
      drawn := drawn + 1;
    }
  }

  // ---------------------------------------------------------------------------------------
  // get_perturbed_type and the type named by a file

  const TempMarker := "-temp1.0"

  /** `file.split("/")[-1].split("-temp1.0")[0]` */
  function PType(path: string): string
  {
    Text.BeforeFirst(Text.Last(path, '/'), TempMarker)
  }

  /** A path `dir/name-temp1.0rest` names the type `name`, provided the file-name part holds
      no `/` and `name` holds no earlier `-temp1.0`. */
  lemma PTypeOfPath(dir: string, name: string, rest: string)
    requires '/' !in name && '/' !in rest
    requires forall i :: 0 <= i < |name| ==> !Text.OccursAt(name + TempMarker + rest, TempMarker, i)
    ensures PType(dir + ['/'] + (name + TempMarker + rest)) == name
  {
    var file := name + TempMarker + rest;
    assert '/' !in file by {
      forall i | 0 <= i < |file| ensures file[i] != '/' {
        if i < |name| {
          assert file[i] == name[i];
        } else if i >= |name| + |TempMarker| {
          assert file[i] == rest[i - |name| - |TempMarker|];
        }
      }
    }
    Text.LastOfJoined(dir, '/', file);
    Text.BeforeFirstOfJoined(name, TempMarker, rest);
  }

  // ---------------------------------------------------------------------------------------
  // parse_response and prepare_doc

  /** parse_response: the library parser; after any exception of it, the extractor with the
      `DirectError` schema, whose exception is raised in turn. */
  function ParseResponse(lib: Library, response: string): Result<Value, Failure>
  {
    match lib.jsonOutputParser(response)
    case Parsed(v) => Ok(v)
    case _ =>
      match Invoke(CustomJsonOutputParser(DirectError), lib, response)
      case Ok(fields) => Ok(Dict(fields))
      case Err(e) => Err(e)
  }

  /** The extractor is consulted only when the library parser raised (any exception at all),
      and then only a dict that passed the `DirectError` check comes back. */
  lemma ParseResponseFallback(lib: Library, other: Library, response: string)
    requires other.jsonOutputParser == lib.jsonOutputParser
    ensures lib.jsonOutputParser(response).Parsed? ==>
      ParseResponse(lib, response) == Ok(lib.jsonOutputParser(response).value)
      && ParseResponse(other, response) == ParseResponse(lib, response)
    ensures !lib.jsonOutputParser(response).Parsed? ==>
      (ParseResponse(lib, response).Ok? <==> Invoke(CustomJsonOutputParser(DirectError), lib, response).Ok?)
    ensures !lib.jsonOutputParser(response).Parsed? && ParseResponse(lib, response).Ok? ==>
      ParseResponse(lib, response).value.Dict? && lib.validates(DirectError, ParseResponse(lib, response).value.fields)
  {
  }

  /** One line of a perturbation output file: its `custom_id` (absent: none) and the outcome of
      `doc['response']['body']['choices'][0]['message']['content']`. */
  datatype InputDoc = InputDoc(customId: Option<string>, content: Result<string, Failure>)

  /** A row of the answers table. */
  datatype TestRow = TestRow(cdx: string, question: string, answer: string)

  /** An annotation record. */
  datatype Doc = Doc(id: string, question: string, perturbationType: Option<string>,
                     expectedPerturbation: Value, original: string, perturbed: Value,
                     user: Option<string>)

  /** The first answers-table row with that `cdx` (`testset[testset['cdx'] == cdx]...values[0]`). */
  function FindTestRow(testset: seq<TestRow>, cdx: string): (r: Option<TestRow>)
    ensures r.Some? ==> r.value.cdx == cdx
    ensures r.Some? ==>
      exists i :: 0 <= i < |testset| && testset[i] == r.value && (forall j :: 0 <= j < i ==> testset[j].cdx != cdx)
    ensures r.None? ==> forall i :: 0 <= i < |testset| ==> testset[i].cdx != cdx
  {
    if testset == [] then None
    else if testset[0].cdx == cdx then Some(testset[0])
    else
      var r := FindTestRow(testset[1..], cdx);
      if r.Some? then
        var i :| 0 <= i < |testset[1..]| && testset[1..][i] == r.value
          && (forall j :: 0 <= j < i ==> testset[1..][j].cdx != cdx);
        assert testset[i + 1] == r.value;
        r
      else r
  }

  /** prepare_doc: the record with `perturbation_type` and `user` still unset, or the first
      exception met while building it. */
  function PrepareDoc(lib: Library, testset: seq<TestRow>, d: InputDoc): Result<Doc, Failure>
  {
    match d.customId
    case None => Err(KeyMissing("custom_id"))
    case Some(cdx) =>
      match d.content
      case Err(e) => Err(e)
      case Ok(response) =>
        match FindTestRow(testset, cdx)
        case None => Err(IndexOutOfRange)
        case Some(row) =>
          match ParseResponse(lib, response)
          case Err(e) => Err(e)
          case Ok(parsed) =>
            match Get(parsed, "explanation")
            case Err(e) => Err(e)
            case Ok(explanation) =>
              match Get(parsed, "err_answer")
              case Err(e) => Err(e)
              case Ok(errAnswer) =>
                Ok(Doc(cdx, row.question, None, explanation, row.answer, errAnswer, None))
  }

  /** A prepared record copies `custom_id` to `id`, the question and answer of the first
      answers-table row with that id, `explanation` to `expected_perturbation` and `err_answer`
      to `perturbed`, and leaves the type and the user unset. */
  lemma PrepareDocFields(lib: Library, testset: seq<TestRow>, d: InputDoc)
    ensures d.customId.None? ==> PrepareDoc(lib, testset, d) == Err(KeyMissing("custom_id"))
    ensures d.customId.Some? && d.content.Ok? && FindTestRow(testset, d.customId.value).None? ==>
      PrepareDoc(lib, testset, d) == Err(IndexOutOfRange)
    ensures PrepareDoc(lib, testset, d).Ok? ==>
      && d.customId.Some? && d.content.Ok? && FindTestRow(testset, d.customId.value).Some?
      && var row := FindTestRow(testset, d.customId.value).value;
      && var doc := PrepareDoc(lib, testset, d).value;
      && var parsed := ParseResponse(lib, d.content.value);
      && doc.id == d.customId.value
      && doc.question == row.question && doc.original == row.answer
      && doc.perturbationType.None? && doc.user.None?
      && parsed.Ok?
      && Get(parsed.value, "explanation") == Ok(doc.expectedPerturbation)
      && Get(parsed.value, "err_answer") == Ok(doc.perturbed)
  {
  }

  /** prepare_doc with the answers table bound: the per-document step of the loop. The loop and
      its properties are stated for any such step, and hold for this one in particular. */
  function Preparer(lib: Library, testset: seq<TestRow>): InputDoc -> Result<Doc, Failure>
  {
    d => PrepareDoc(lib, testset, d)
  }

  // ---------------------------------------------------------------------------------------
  // The partition loop of main

  datatype InputFile = InputFile(path: string, docs: seq<InputDoc>)

  datatype ErrorRecord = ErrorRecord(fileName: string, document: InputDoc, error: Failure)

  /** `final_data` and `error_data`. */
  datatype Outcome = Outcome(finalData: seq<Doc>, errorData: seq<ErrorRecord>)

  /** What the body of the inner loop does with one document of file `path`. */
  function Place(prepare: InputDoc -> Result<Doc, Failure>, n: nat, acc: Outcome, path: string,
                 pType: string, description: string, d: InputDoc): (r: Outcome)
    requires n >= 1
    ensures acc.finalData <= r.finalData && acc.errorData <= r.errorData
    ensures |r.finalData| + |r.errorData| == |acc.finalData| + |acc.errorData| + 1
    ensures |r.finalData| == |acc.finalData| + 1 <==> prepare(d).Ok?
  {
    match prepare(d)
    case Ok(doc) =>
      var user := UserName(|acc.finalData| % n + 1);
      acc.(finalData := acc.finalData + [Tagged(doc, pType, description, user)])
    case Err(e) => acc.(errorData := acc.errorData + [ErrorRecord(path, d, e)])
  }

  /** The inner loop over the documents of one file. */
  function PlaceAll(prepare: InputDoc -> Result<Doc, Failure>, n: nat, acc: Outcome, path: string,
                    pType: string, description: string, docs: seq<InputDoc>): (r: Outcome)
    requires n >= 1
    ensures acc.finalData <= r.finalData && acc.errorData <= r.errorData
    ensures |r.finalData| + |r.errorData| == |acc.finalData| + |acc.errorData| + |docs|
  {
    if docs == [] then acc
    else
      var before := PlaceAll(prepare, n, acc, path, pType, description, docs[..|docs| - 1]);
      Place(prepare, n, before, path, pType, description, docs[|docs| - 1])
  }

  /** The outer loop over the files: the two lists, or the KeyError of a file whose name gives
      an unknown perturbation type, which ends the run. */
  function PushFiles(prepare: InputDoc -> Result<Doc, Failure>, n: nat, files: seq<InputFile>): (r: Result<Outcome, Failure>)
    requires n >= 1
    ensures r.Err? ==> r.error.KeyMissing?
  {
    if files == [] then Ok(Outcome([], []))
    else
      match PushFiles(prepare, n, files[..|files| - 1])
      case Err(e) => Err(e)
      case Ok(acc) =>
        var file := files[|files| - 1];
        var pType := PType(file.path);
        match GetPerturbedType(pType)
        case Err(e) => Err(e)
        case Ok(description) => Ok(PlaceAll(prepare, n, acc, file.path, pType, description, file.docs))
  }

  /** The inner loop of main (lines 131-144): the documents of one file, drawing a user for
      each success. */
  method PlaceDocs(lib: Library, testset: seq<TestRow>, numUsers: nat, userGenerator: UserGenerator,
                   acc: Outcome, file: string, pType: string, perturbedType: string, data: seq<InputDoc>)
    returns (out: Outcome)
    requires numUsers >= 1
    requires userGenerator.Valid() && userGenerator.users == Users(numUsers)
    requires userGenerator.drawn == |acc.finalData|
    modifies userGenerator
    ensures userGenerator.Valid() && userGenerator.drawn == |out.finalData|
    ensures out == PlaceAll(Preparer(lib, testset), numUsers, acc, file, pType, perturbedType, data)
  {
    var finalData, errorData := acc.finalData, acc.errorData;
    var j := 0;
    while j < |data|
      invariant 0 <= j <= |data|
      invariant PlaceAll(Preparer(lib, testset), numUsers, acc, file, pType, perturbedType, data[..j])
        == Outcome(finalData, errorData)
      invariant userGenerator.Valid() && userGenerator.users == Users(numUsers)
      invariant userGenerator.drawn == |finalData|
    {
      var d := data[j];
      ghost var before := Outcome(finalData, errorData);
      var prepared := PrepareDoc(lib, testset, d);
      if prepared.Ok? {
        var doc := prepared.value;
        doc := doc.(id := doc.id + "_" + pType);
        doc := doc.(perturbationType := Some(perturbedType));
        var user := userGenerator.Next();
        doc := doc.(user := Some(user));
        finalData := finalData + [doc];
      } else {
        errorData := errorData + [ErrorRecord(file, d, prepared.error)];
      }
      PlaceCases(Preparer(lib, testset), numUsers, before, file, pType, perturbedType, d);
      assert Outcome(finalData, errorData) == Place(Preparer(lib, testset), numUsers, before, file, pType, perturbedType, d);
      PlaceAllStep(Preparer(lib, testset), numUsers, acc, file, pType, perturbedType, data, j);
      j := j + 1;
    }
    assert data[..j] == data;
    out := Outcome(finalData, errorData);
  }

  /** The outer loop of main (lines 121-130) with the generator of `--num_users` users. */
  method PrepareUpload(lib: Library, testset: seq<TestRow>, numUsers: nat, files: seq<InputFile>)
    returns (r: Result<Outcome, Failure>)
    requires numUsers >= 1
    ensures r == PushFiles(Preparer(lib, testset), numUsers, files)
  {
    var outcome := Outcome([], []);
    var userGenerator := new UserGenerator(numUsers);
    var i := 0;
    while i < |files|
      invariant 0 <= i <= |files|
      invariant PushFiles(Preparer(lib, testset), numUsers, files[..i]) == Ok(outcome)
      invariant userGenerator.Valid() && userGenerator.users == Users(numUsers)
      invariant userGenerator.drawn == |outcome.finalData|
    {
      var file := files[i];
      PushFilesStep(Preparer(lib, testset), numUsers, files, i);
      var pType := PType(file.path);
      var perturbedType := GetPerturbedType(pType);
      if perturbedType.Err? {
        PushFilesErrorPersists(Preparer(lib, testset), numUsers, files, i + 1);
        assert files[..|files|] == files;
        return Err(perturbedType.error);
      }
      outcome := PlaceDocs(lib, testset, numUsers, userGenerator, outcome, file.path, pType, perturbedType.value, file.docs);
      i := i + 1;
    }
    assert files[..i] == files;
    r := Ok(outcome);
  }

  lemma PlaceCases(prepare: InputDoc -> Result<Doc, Failure>, n: nat, acc: Outcome, path: string,
                   pType: string, description: string, d: InputDoc)
    requires n >= 1
    ensures var prepared := prepare(d);
      Place(prepare, n, acc, path, pType, description, d) ==
        if prepared.Ok? then
          Outcome(acc.finalData + [prepared.value.(id := prepared.value.id + "_" + pType)
                                                .(perturbationType := Some(description))
                                                .(user := Some(UserName(|acc.finalData| % n + 1)))],
                  acc.errorData)
        else Outcome(acc.finalData, acc.errorData + [ErrorRecord(path, d, prepared.error)])
  {
  }

  lemma PlaceAllStep(prepare: InputDoc -> Result<Doc, Failure>, n: nat, acc: Outcome, path: string,
                     pType: string, description: string, docs: seq<InputDoc>, j: nat)
    requires n >= 1 && j < |docs|
    ensures PlaceAll(prepare, n, acc, path, pType, description, docs[..j + 1]) ==
      Place(prepare, n, PlaceAll(prepare, n, acc, path, pType, description, docs[..j]), path, pType, description, docs[j])
  {
    assert docs[..j + 1][..j] == docs[..j];
  }

  lemma PushFilesStep(prepare: InputDoc -> Result<Doc, Failure>, n: nat, files: seq<InputFile>, i: nat)
    requires n >= 1 && i < |files|
    ensures var pType := PType(files[i].path);
      var before := PushFiles(prepare, n, files[..i]);
      PushFiles(prepare, n, files[..i + 1]) ==
        if before.Err? then before
        else if GetPerturbedType(pType).Ok?
        then Ok(PlaceAll(prepare, n, before.value, files[i].path, pType, GetPerturbedType(pType).value, files[i].docs))
        else Err(GetPerturbedType(pType).error)
  {
    assert files[..i + 1][..i] == files[..i];
  }

  lemma {:induction false} PushFilesErrorPersists(prepare: InputDoc -> Result<Doc, Failure>, n: nat, files: seq<InputFile>, i: nat)
    requires n >= 1 && i <= |files|
    requires PushFiles(prepare, n, files[..i]).Err?
    ensures PushFiles(prepare, n, files[..|files|]) == PushFiles(prepare, n, files[..i])
    decreases |files| - i
  {
    if i < |files| {
      assert files[..i + 1][..i] == files[..i];
      PushFilesErrorPersists(prepare, n, files, i + 1);
    }
  }

  // ---------------------------------------------------------------------------------------
  // What main promises

  function DocCount(files: seq<InputFile>): nat
  {
    if files == [] then 0 else DocCount(files[..|files| - 1]) + |files[|files| - 1].docs|
  }

  /** The record a document that `prepare_doc` accepts becomes once main has renamed it
      `{cdx}_{p_type}`, tagged it with the type's description and handed it to `user`. */
  function Tagged(doc: Doc, pType: string, description: string, user: string): Doc
  {
    doc.(id := doc.id + "_" + pType, perturbationType := Some(description), user := Some(user))
  }

  /** The reference for the successes of one file: every document that `prepare_doc` accepts,
      in file order, tagged, and handed to the next user in turn counting from `drawn` users
      already drawn. */
  function Successes(prepare: InputDoc -> Result<Doc, Failure>, n: nat, drawn: nat, pType: string,
                     description: string, docs: seq<InputDoc>): (r: seq<Doc>)
    requires n >= 1
    ensures |r| <= |docs|
  {
    if docs == [] then []
    else
      var before := Successes(prepare, n, drawn, pType, description, docs[..|docs| - 1]);
      before + Accepted(prepare, n, drawn + |before|, pType, description, docs[|docs| - 1])
  }

  /** What one document adds to the successes: itself, tagged and handed to the next user,
      when `prepare_doc` accepts it, and nothing when it raises. */
  function Accepted(prepare: InputDoc -> Result<Doc, Failure>, n: nat, drawn: nat, pType: string,
                    description: string, d: InputDoc): (r: seq<Doc>)
    requires n >= 1
    ensures |r| <= 1 && (r == [] <==> prepare(d).Err?)
  {
    match prepare(d)
    case Ok(doc) => [Tagged(doc, pType, description, UserName(drawn % n + 1))]
    case Err(_) => []
  }

  /** The reference for the failures of one file: an error record with the file, the document
      and its exception for every document `prepare_doc` rejects, in file order. */
  function Failures(prepare: InputDoc -> Result<Doc, Failure>, path: string, docs: seq<InputDoc>): (r: seq<ErrorRecord>)
    ensures |r| <= |docs|
  {
    if docs == [] then []
    else
      var d := docs[|docs| - 1];
      Failures(prepare, path, docs[..|docs| - 1])
        + match prepare(d) case Ok(_) => [] case Err(e) => [ErrorRecord(path, d, e)]
  }

  /** Every document is a success or a failure and not both. */
  lemma {:induction false} SuccessesAndFailures(prepare: InputDoc -> Result<Doc, Failure>, n: nat, drawn: nat,
                                                path: string, pType: string, description: string, docs: seq<InputDoc>)
    requires n >= 1
    ensures |Successes(prepare, n, drawn, pType, description, docs)| + |Failures(prepare, path, docs)| == |docs|
    decreases |docs|
  {
    if docs != [] {
      SuccessesAndFailures(prepare, n, drawn, path, pType, description, docs[..|docs| - 1]);
    }
  }

  /** The inner loop over a file's documents appends exactly that file's successes, tagged and
      handed out in turn, to `final_data`, and exactly its failures to `error_data`: no document
      is dropped, duplicated or reordered. */
  lemma {:induction false} PlaceAllPartitions(prepare: InputDoc -> Result<Doc, Failure>, n: nat, acc: Outcome,
                                              path: string, pType: string, description: string, docs: seq<InputDoc>)
    requires n >= 1
    ensures var out := PlaceAll(prepare, n, acc, path, pType, description, docs);
      && out.finalData == acc.finalData + Successes(prepare, n, |acc.finalData|, pType, description, docs)
      && out.errorData == acc.errorData + Failures(prepare, path, docs)
    decreases |docs|
  {
    if docs != [] {
      var init := docs[..|docs| - 1];
      var d := docs[|docs| - 1];
      assert docs == init + [d];
      PlaceAllPartitions(prepare, n, acc, path, pType, description, init);
      var before := PlaceAll(prepare, n, acc, path, pType, description, init);
      PlaceCases(prepare, n, before, path, pType, description, d);
    }
  }

  /** The file's name gives one of the known perturbation types. */
  predicate KnownType(file: InputFile)
  {
    GetPerturbedType(PType(file.path)).Ok?
  }

  /** Every file satisfies `known`, read from the last file back as the run reads them. */
  predicate Every(files: seq<InputFile>, known: InputFile -> bool)
  {
    files == [] || (Every(files[..|files| - 1], known) && known(files[|files| - 1]))
  }

  lemma {:induction false} PushFilesFails(prepare: InputDoc -> Result<Doc, Failure>, n: nat, files: seq<InputFile>)
    requires n >= 1
    ensures PushFiles(prepare, n, files).Err? <==> !Every(files, KnownType)
  {
    if files != [] {
      PushFilesFails(prepare, n, files[..|files| - 1]);
    }
  }

  lemma {:induction false} EveryHolds(files: seq<InputFile>, known: InputFile -> bool)
    ensures Every(files, known) <==> forall i :: 0 <= i < |files| ==> known(files[i])
  {
    if files != [] {
      var init := files[..|files| - 1];
      EveryHolds(init, known);
      assert forall i :: 0 <= i < |init| ==> files[i] == init[i];
    }
  }

  /** The run aborts exactly when some file's name gives an unknown perturbation type. */
  lemma UnknownTypeAborts(prepare: InputDoc -> Result<Doc, Failure>, n: nat, files: seq<InputFile>)
    requires n >= 1
    ensures PushFiles(prepare, n, files).Err? <==> exists i :: 0 <= i < |files| && !KnownType(files[i])
  {
    PushFilesFails(prepare, n, files);
    EveryHolds(files, KnownType);
  }

  /** The reference for the successes of the whole run: file after file, each file's
      successes under the type its name gives, with the users counted on across files. */
  function AllSuccesses(prepare: InputDoc -> Result<Doc, Failure>, n: nat, files: seq<InputFile>): seq<Doc>
    requires n >= 1
  {
    if files == [] then []
    else
      var before := AllSuccesses(prepare, n, files[..|files| - 1]);
      before + FileSuccesses(prepare, n, |before|, files[|files| - 1])
  }

  /** The successes of one file, under the type its name gives. */
  function FileSuccesses(prepare: InputDoc -> Result<Doc, Failure>, n: nat, drawn: nat, file: InputFile): seq<Doc>
    requires n >= 1
  {
    var pType := PType(file.path);
    match GetPerturbedType(pType)
    case Ok(description) => Successes(prepare, n, drawn, pType, description, file.docs)
    case Err(_) => []
  }

  /** The reference for the failures of the whole run, file after file. */
  function AllFailures(prepare: InputDoc -> Result<Doc, Failure>, files: seq<InputFile>): seq<ErrorRecord>
  {
    if files == [] then []
    else
      var last := files[|files| - 1];
      AllFailures(prepare, files[..|files| - 1]) + Failures(prepare, last.path, last.docs)
  }

  /** When the run completes, `final_data` is exactly the successes of every file in file
      order, each tagged with its file's type and handed to the next user in turn, and
      `error_data` is exactly the failures of every file in the same order; so each input
      document is in exactly one list, and the k-th success goes to `user{k mod n + 1}`. */
  lemma PushFilesPartitions(prepare: InputDoc -> Result<Doc, Failure>, n: nat, files: seq<InputFile>)
    requires n >= 1
    requires PushFiles(prepare, n, files).Ok?
    ensures var out := PushFiles(prepare, n, files).value;
      && out.finalData == AllSuccesses(prepare, n, files)
      && out.errorData == AllFailures(prepare, files)
      && |out.finalData| + |out.errorData| == DocCount(files)
      && forall k :: 0 <= k < |out.finalData| ==> out.finalData[k].user == Some(UserName(k % n + 1))
  {
    PushFilesReference(prepare, n, files);
    AllSuccessesInTurn(prepare, n, files);
  }

  lemma {:induction false} PushFilesReference(prepare: InputDoc -> Result<Doc, Failure>, n: nat, files: seq<InputFile>)
    requires n >= 1
    requires PushFiles(prepare, n, files).Ok?
    ensures var out := PushFiles(prepare, n, files).value;
      && out.finalData == AllSuccesses(prepare, n, files)
      && out.errorData == AllFailures(prepare, files)
      && |out.finalData| + |out.errorData| == DocCount(files)
    decreases |files|
  {
    if files != [] {
      var init := files[..|files| - 1];
      var file := files[|files| - 1];
      PushFilesReference(prepare, n, init);
      var acc := PushFiles(prepare, n, init).value;
      var pType := PType(file.path);
      var description := GetPerturbedType(pType).value;
      PlaceAllPartitions(prepare, n, acc, file.path, pType, description, file.docs);
      SuccessesAndFailures(prepare, n, |acc.finalData|, file.path, pType, description, file.docs);
      assert FileSuccesses(prepare, n, |acc.finalData|, file)
        == Successes(prepare, n, |acc.finalData|, pType, description, file.docs);
    }
  }

  lemma InTurnAppend(a: seq<Doc>, b: seq<Doc>, n: nat)
    requires n >= 1 && InTurn(a, n, 0) && InTurn(b, n, |a|)
    ensures InTurn(a + b, n, 0)
  {
    forall k | |a| <= k < |a + b| ensures (a + b)[k].user == Some(UserName((0 + k) % n + 1)) {
      assert (a + b)[k] == b[k - |a|];
    }
  }

  /** Across the whole run, the k-th success goes to `user{k mod n + 1}`. */
  lemma {:induction false} AllSuccessesInTurn(prepare: InputDoc -> Result<Doc, Failure>, n: nat, files: seq<InputFile>)
    requires n >= 1
    ensures InTurn(AllSuccesses(prepare, n, files), n, 0)
    decreases |files|
  {
    if files != [] {
      var before := AllSuccesses(prepare, n, files[..|files| - 1]);
      var file := files[|files| - 1];
      AllSuccessesInTurn(prepare, n, files[..|files| - 1]);
      var pType := PType(file.path);
      if GetPerturbedType(pType).Ok? {
        SuccessesUsers(prepare, n, |before|, pType, GetPerturbedType(pType).value, file.docs);
      }
      InTurnAppend(before, FileSuccesses(prepare, n, |before|, file), n);
    }
  }

  /** The `i`-th record of `r` goes to `user{(drawn + i) mod n + 1}`. */
  predicate InTurn(r: seq<Doc>, n: nat, drawn: nat)
    requires n >= 1
  {
    forall i :: 0 <= i < |r| ==> r[i].user == Some(UserName((drawn + i) % n + 1))
  }

  /** The successes of a file counted from `drawn` go to the users in turn from there. */
  lemma {:induction false} SuccessesUsers(prepare: InputDoc -> Result<Doc, Failure>, n: nat, drawn: nat, pType: string,
                                          description: string, docs: seq<InputDoc>)
    requires n >= 1
    ensures InTurn(Successes(prepare, n, drawn, pType, description, docs), n, drawn)
    decreases |docs|
  {
    if docs != [] {
      var r := Successes(prepare, n, drawn, pType, description, docs);
      var before := Successes(prepare, n, drawn, pType, description, docs[..|docs| - 1]);
      SuccessesUsers(prepare, n, drawn, pType, description, docs[..|docs| - 1]);
      forall i | |before| <= i < |r| ensures r[i].user == Some(UserName((drawn + i) % n + 1)) {
        assert r[i] == Accepted(prepare, n, drawn + |before|, pType, description, docs[|docs| - 1])[0];
      }
    }
  }
}
