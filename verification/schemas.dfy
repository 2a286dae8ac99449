/** The response schemas: pydantic classes that name the fields a judge or a perturbation
    generator must return, with each field's declared type. Every field is required (none of
    the classes gives a default). */
module Schemas {
  import opened Wrappers
  import opened PyValues

  datatype FieldType = StrField | IntField | ListField

  datatype Field = Field(name: string, kind: FieldType)

  /** Which `BaseModel` a class derives from: pydantic's own, or the version-1 compatibility
      class re-exported by langchain, which is not a subclass of pydantic's. */
  datatype Base = PydanticModel | CompatV1Model

  datatype Schema = Schema(name: string, base: Base, fields: seq<Field>)

  // The classes of perturbations/parsers.py. There the name `BaseModel` is bound twice,
  // and the second import (pydantic's own class) is the one they derive from.

  const Facts := Schema("Facts", PydanticModel, [Field("facts", ListField)])
  const Errors := Schema("Errors", PydanticModel,
    [Field("errors", ListField), Field("explanation", StrField)])
  const Stitch := Schema("Stitch", PydanticModel, [Field("answer", StrField)])
  const DirectError := Schema("DirectError", PydanticModel,
    [Field("err_answer", StrField), Field("explanation", StrField)])
  const MultipleDirectErrors := Schema("MultipleDirectErrors", PydanticModel,
    [Field("err_answers", ListField), Field("explanations", ListField)])

  /** The classes perturbations/parsers.py declares. */
  const PerturbationParsers := [Facts, Errors, Stitch, DirectError, MultipleDirectErrors]

  /** The two score classes the explanation analysis imports from perturbations/parsers.py,
      where neither is declared; modelled as they would be declared there, next to the other
      classes of that file and from the same `BaseModel`. */
  const AnalysisCompareScore := Schema("CompareVanillaCOTScore", PydanticModel,
    [Field("justification", StrField), Field("verdict", IntField)])
  const AnalysisScore := Schema("SingleVanillaCOTScore", PydanticModel,
    [Field("justification", StrField), Field("score", IntField)])

  /** The class a module declares under `name`, the first one if several. */
  function Lookup(declared: seq<Schema>, name: string): (r: Option<Schema>)
    ensures r.None? <==> forall j :: 0 <= j < |declared| ==> declared[j].name != name
    ensures r.Some? ==> r.value in declared && r.value.name == name
  {
    if declared == [] then None
    else if declared[0].name == name then Some(declared[0])
    else Lookup(declared[1..], name)
  }

  /** `names[i]` is the first of `names` the module does not declare. */
  predicate FirstUndeclared(declared: seq<Schema>, names: seq<string>, i: int)
  {
    && 0 <= i < |names| && Lookup(declared, names[i]).None?
    && forall j :: 0 <= j < i ==> Lookup(declared, names[j]).Some?
  }

  /** `from module import names` over a module declaring `declared`: the classes named, in
      order, or the ImportError of the first name the module does not declare. */
  function ImportNames(declared: seq<Schema>, names: seq<string>): (r: Result<seq<Schema>, Failure>)
    ensures r.Ok? <==> forall i :: 0 <= i < |names| ==> Lookup(declared, names[i]).Some?
    ensures r.Ok? ==> |r.value| == |names|
    ensures r.Ok? ==> forall i :: 0 <= i < |names| ==> r.value[i] in declared && r.value[i].name == names[i]
    ensures r.Err? ==> exists i :: FirstUndeclared(declared, names, i) && r.error == NotDeclared(names[i])
  {
    if names == [] then Ok([])
    else
      match Lookup(declared, names[0])
      case None => Err(NotDeclared(names[0]))
      case Some(c) =>
        var rest := ImportNames(declared, names[1..]);
        assert forall i :: 0 < i < |names| ==> names[i] == names[1..][i - 1];
        if rest.Err? then
          var i :| FirstUndeclared(declared, names[1..], i) && rest.error == NotDeclared(names[1..][i]);
          assert FirstUndeclared(declared, names, i + 1);
          rest
        else
          Ok([c] + rest.value)
  }

  // The judge schemas of llm_evaluators/parsers.py, all derived from the compatibility class.

  const CompareVanillaCOTScore := Schema("CompareVanillaCOTScore", CompatV1Model,
    [Field("justification", StrField), Field("verdict", IntField)])
  const CompareVanillaScore := Schema("CompareVanillaScore", CompatV1Model,
    [Field("verdict", IntField)])
  const CompareRulesScore := Schema("CompareRulesScore", CompatV1Model,
    [Field("justification", StrField), Field("verdict", IntField)])
  const SingleVanillaScore := Schema("SingleVanillaScore", CompatV1Model,
    [Field("score", IntField)])
  const SingleVanillaCOTScore := Schema("SingleVanillaCOTScore", CompatV1Model,
    [Field("justification", StrField), Field("score", IntField)])
  const SingleRubricsScore := Schema("SingleRubricsScore", CompatV1Model,
    [Field("justification", StrField), Field("score", IntField)])
  const SingleAxesScore := Schema("SingleAxesScore", CompatV1Model,
    [Field("justification", StrField), Field("score", IntField)])
  const SingleAxesRubricsScore := Schema("SingleAxesRubricsScore", CompatV1Model,
    [Field("justification", StrField), Field("score", IntField)])

  /** Every declared field of `schema` is a key of `fields`: what any successful validation
      of a class without defaults implies. */
  predicate HasDeclaredFields(schema: Schema, fields: map<string, Value>)
  {
    forall i :: 0 <= i < |schema.fields| ==> schema.fields[i].name in fields
  }
}
