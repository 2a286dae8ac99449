/** The Python values a decoded judge reply is made of, the exceptions the pipeline's code
    raises or lets through, and the two Python operations on decoded values it uses:
    subscripting with a string key and `==`. */
module PyValues {
  import opened Wrappers

  /** A decoded value. `json.loads` reads a JSON number with a fraction or an exponent as a
      `Float`, and any other number as an `Int`. `Other` stands for what `ast.literal_eval` can
      produce beyond JSON's shapes (a tuple, a set, a dict with non-string keys, a complex
      number); the model does not look inside such a value, and `id` tells apart those that are
      unequal. */
  datatype Value =
    | Null
    | Bool(b: bool)
    | Int(i: int)
    | Float(r: real)
    | Str(s: string)
    | List(items: seq<Value>)
    | Dict(fields: map<string, Value>)
    | Other(id: nat)

  /** The exceptions of the modelled code, by kind. */
  datatype Failure =
    | NoJsonExtracted              // Exception("No valid JSON could be extracted")
    | JsonParsingFailed            // Exception("JSON parsing failed")
    | JsonValidationFailed         // Exception("JSON validation failed")
    | NotAModelClass               // ValueError from the parser's constructor
    | NotAMapping                  // TypeError: `**value` where value is not a dict with string keys
    | KeyMissing(key: string)      // KeyError
    | NotSubscriptable             // TypeError: a string subscript on something that is not a dict
    | IndexOutOfRange              // IndexError
    | Unbound(name: string)        // UnboundLocalError
    | NotIterable                  // TypeError: `for x in None`
    | OutputParserError            // langchain's OutputParserException
    | LibraryError(message: string) // any other exception raised inside a library call
    | NotDeclared(name: string)    // ImportError: the module declares no such name

  /** `str(e)` for the exceptions whose text ends up in a result record. */
  function FailureText(f: Failure): string
  {
    match f
    case IndexOutOfRange => "list index out of range"
    case KeyMissing(k) => "'" + k + "'"
    case LibraryError(m) => m
    case _ => "error"
  }

  /** `v[key]` */
  function Get(v: Value, key: string): Result<Value, Failure>
  {
    match v
    case Dict(fields) => if key in fields then Ok(fields[key]) else Err(KeyMissing(key))
    case _ => Err(NotSubscriptable)
  }

  /** The number a value stands for in comparisons: `True` is 1 and `False` is 0. */
  function Numeric(v: Value): Option<real>
  {
    match v
    case Bool(b) => Some(if b then 1.0 else 0.0)
    case Int(i) => Some(i as real)
    case Float(r) => Some(r)
    case _ => None
  }

  /** Python's `a == b` on decoded values: `bool`, `int` and `float` compare by numeric value;
      lists compare element by element and dicts key by key, with `==` again; anything else is
      equal only to the same value. */
  predicate PyEquals(a: Value, b: Value)
    decreases a
  {
    if Numeric(a).Some? && Numeric(b).Some? then Numeric(a) == Numeric(b)
    else if a.List? && b.List? then
      |a.items| == |b.items| && forall i :: 0 <= i < |a.items| ==> PyEquals(a.items[i], b.items[i])
    else if a.Dict? && b.Dict? then
      a.fields.Keys == b.fields.Keys && forall k :: k in a.fields ==> PyEquals(a.fields[k], b.fields[k])
    else a == b
  }

  /** Numbers of the three kinds are equal exactly when their values are: `1 == 1.0`,
      `True == 1.0` and `1.5 != 2.5`. */
  lemma NumbersCompareByValue(a: Value, b: Value)
    requires Numeric(a).Some? && Numeric(b).Some?
    ensures PyEquals(a, b) <==> Numeric(a).value == Numeric(b).value
    ensures PyEquals(a, Bool(true)) <==> Numeric(a).value == 1.0
  {
  }

  /** `==` is reflexive and symmetric on decoded values. */
  lemma {:induction false} PyEqualsReflexive(a: Value)
    ensures PyEquals(a, a)
    decreases a
  {
    if a.List? {
      forall i | 0 <= i < |a.items| ensures PyEquals(a.items[i], a.items[i]) {
        PyEqualsReflexive(a.items[i]);
      }
    } else if a.Dict? {
      forall k | k in a.fields ensures PyEquals(a.fields[k], a.fields[k]) {
        PyEqualsReflexive(a.fields[k]);
      }
    }
  }

  lemma {:induction false} PyEqualsSymmetric(a: Value, b: Value)
    ensures PyEquals(a, b) ==> PyEquals(b, a)
    decreases a
  {
    if PyEquals(a, b) && !(Numeric(a).Some? && Numeric(b).Some?) {
      if a.List? && b.List? {
        forall i | 0 <= i < |a.items| ensures PyEquals(b.items[i], a.items[i]) {
          PyEqualsSymmetric(a.items[i], b.items[i]);
        }
      } else if a.Dict? && b.Dict? {
        forall k | k in b.fields ensures PyEquals(b.fields[k], a.fields[k]) {
          PyEqualsSymmetric(a.fields[k], b.fields[k]);
        }
      }
    }
  }
}
