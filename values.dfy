/** The JavaScript values the active-record layer handles: attribute values, plain
    objects (as ordered lists of fields, in their own enumeration order), JavaScript
    truthiness, and the string conversion that `Array.prototype.join` applies. */
module Values {

  datatype Option<+T> = None | Some(value: T)

  datatype Result<+T> = Ok(value: T) | Err(error: Error)

  /** What an operation of the layer can fail with. The first four are raised by the
      layer itself; NullReference and FrozenModel are the TypeErrors the JavaScript
      runtime raises on its behalf; Transport is any failure of the HTTP client. */
  datatype Error =
    | ActionNotAllowed       // "action not allowed"
    | CannotUpdateKey        // "cannot update key"
    | MissingKey             // "field can not be updated because it is missing the key"
    | NotAnArray             // "documents is not an array"
    | NullReference          // a property of a null entity read, or Object.keys(null)
    | FrozenModel            // a property of a frozen model assigned or defined
    | Transport(reason: string)

  datatype Value =
    | Undefined
    | Null
    | Bool(b: bool)
    | Num(n: int)
    | Str(s: string)
    | Arr(items: seq<Value>)
    | Obj(fields: Record)

  datatype Field = Field(name: string, value: Value)

  /** A plain object: its own enumerable properties in enumeration order. */
  type Record = seq<Field>

  /** The attribute mapping behind a model. */
  type Entity = map<string, Value>

  /** `Boolean(v)`: undefined, null, false, 0 and "" are falsy, everything else is truthy. */
  predicate Truthy(v: Value) {
    match v
    case Undefined => false
    case Null => false
    case Bool(b) => b
    case Num(n) => n != 0
    case Str(s) => s != ""
    case Arr(_) => true
    case Obj(_) => true
  }

  /** `e[name]`: a missing property reads as undefined. */
  function Lookup(e: Entity, name: string): Value {
    if name in e then e[name] else Undefined
  }

  /** `Object.keys(r)`. */
  function Names(r: Record): seq<string> {
    seq(|r|, i requires 0 <= i < |r| => r[i].name)
  }

  /** Property names of a JavaScript object are distinct. */
  predicate Distinct(r: Record) {
    forall i, j :: 0 <= i < j < |r| ==> r[i].name != r[j].name
  }

  /** The mapping an object literal denotes; a later field wins over an earlier one. */
  function ToMap(r: Record): Entity {
    if r == [] then map[] else ToMap(r[..|r| - 1])[r[|r| - 1].name := r[|r| - 1].value]
  }

  /** An object's mapping has exactly its field names as keys and, when those are
      distinct, gives every field its own value. */
  lemma {:induction false} ToMapFields(r: Record)
    ensures forall n :: n in ToMap(r) <==> n in Names(r)
    ensures Distinct(r) ==> forall i :: 0 <= i < |r| ==> r[i].name in ToMap(r) && ToMap(r)[r[i].name] == r[i].value
  {
    if r != [] {
      var front := r[..|r| - 1];
      ToMapFields(front);
      assert Names(r) == Names(front) + [r[|r| - 1].name];
      if Distinct(r) {
        assert Distinct(front);
        forall i | 0 <= i < |r| ensures r[i].name in ToMap(r) && ToMap(r)[r[i].name] == r[i].value {
          if i < |r| - 1 {
            assert r[i].name != r[|r| - 1].name;
            assert front[i] == r[i];
          }
        }
      }
    }
  }

  /** `parts.join(sep)`. */
  function Join(sep: string, parts: seq<string>): string {
    if parts == [] then ""
    else if |parts| == 1 then parts[0]
    else parts[0] + sep + Join(sep, parts[1..])
  }

  function Digit(d: nat): char
    requires d < 10
  {
    "0123456789"[d]
  }

  /** Decimal digits of a natural number, most significant first. */
  function DigitsOf(n: nat): string
    decreases n
  {
    if n < 10 then [Digit(n)] else DigitsOf(n / 10) + [Digit(n % 10)]
  }

  /** `String(v)`, the conversion `join` applies to each element; null and undefined
      elements of an array become empty strings. */
  function ToText(v: Value): string
    decreases v
  {
    match v
    case Undefined => "undefined"
    case Null => "null"
    case Bool(b) => if b then "true" else "false"
    case Num(n) => if n < 0 then "-" + DigitsOf(-n) else DigitsOf(n)
    case Str(s) => s
    case Arr(items) =>
      Join(",", seq(|items|, i requires 0 <= i < |items| =>
        if items[i].Undefined? || items[i].Null? then "" else ToText(items[i])))
    case Obj(_) => "[object Object]"
  }
}
