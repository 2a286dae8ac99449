/** The perturbation-type table of scripts/push_firebase.py, kept apart from the upload logic
    because its long description strings weigh on every proof that can see them. */
module PerturbationTable {
  import opened Wrappers
  import opened PyValues

  /** The table of get_perturbed_type: a description for each known perturbation type. */
  const PerturbationTypeMap: map<string, string> := map[
    "remove-fact" := "Removing an important fact from the answer",
    "opposite-fact" := "Introducing a negation or an opposite fact in the answer",
    "number-errors" := "Introducing errors in the numbers in the answer",
    "incorrect-fact" := "Introducing an incorrect fact in the answer",
    "entity-errors" := "Introducing errors in the entities in the answer",
    "contextual-errors" := "Replacing facts in the answer with contextually similar incorrect facts",
    "wrong-formula" := "Introducing errors in the formula used in the answer",
    "operation-order" := "Introducing errors in the order of operations in the answer",
    "final-answer-errors" := "Introducing errors only in the final answer with all remaining steps same",
    "copying-numbers-errors" := "Introducing errors by copying numbers incorrectly from the question in the answer",
    "incorrect-units" := "Introducing errors in the units in the answer",
    "calculation-errors" := "Introducing errors in the calculations in the answer"
  ]

  /** get_perturbed_type: the description of one of the twelve known types, or the KeyError
      of the table lookup. */
  function GetPerturbedType(pType: string): Result<string, Failure>
  {
    if pType in PerturbationTypeMap then Ok(PerturbationTypeMap[pType]) else Err(KeyMissing(pType))
  }

  const KnownTypes: set<string> := {"remove-fact", "opposite-fact", "number-errors",
    "incorrect-fact", "entity-errors", "contextual-errors", "wrong-formula", "operation-order",
    "final-answer-errors", "copying-numbers-errors", "incorrect-units", "calculation-errors"}

  /** The table knows exactly the twelve perturbation kinds; any other name is a KeyError
      naming it. */
  lemma TwelveTypes(pType: string)
    ensures GetPerturbedType(pType).Ok? <==> pType in KnownTypes
    ensures GetPerturbedType(pType).Err? ==> GetPerturbedType(pType).error == KeyMissing(pType)
  {
  }
}
