/** JSON-shaped values: what a `serialize()` method returns and what the
    handlers hand to `jsonify`. Only the scalars the models use appear. */
module Json {

  /** Some/None, used both for nullable columns and for optional request fields. */
  datatype Option<+T> = None | Some(value: T) {
    predicate IsFailure() { None? }

    function PropagateFailure<U>(): Option<U>
      requires None?
    {
      None
    }

    function Extract(): T
      requires Some?
    {
      value
    }
  }

  /** A JSON scalar; `Null` is what Python's `None` becomes. */
  datatype Value = Null | Int(i: int) | Str(s: string)

  /** A serialized record: a JSON object whose values are scalars. */
  type Object = map<string, Value>

  /** The integer stored under key `k`, if there is one. */
  function IntAt(o: Object, k: string): (r: Option<int>)
    ensures r.Some? <==> k in o && o[k].Int?
  {
    if k in o && o[k].Int? then Some(o[k].i) else None
  }

  /** The string stored under key `k`, if there is one. */
  function StrAt(o: Object, k: string): (r: Option<string>)
    ensures r.Some? <==> k in o && o[k].Str?
  {
    if k in o && o[k].Str? then Some(o[k].s) else None
  }

  /** A nullable integer column: `null` reads as `None`, a string is malformed. */
  function NullableIntAt(o: Object, k: string): (r: Option<Option<int>>)
    ensures r.Some? <==> k in o && !o[k].Str?
  {
    if k !in o then None
    else match o[k]
      case Null => Some(None)
      case Int(n) => Some(Some(n))
      case Str(_) => None
  }

  /** A nullable string column: `null` reads as `None`, an integer is malformed. */
  function NullableStrAt(o: Object, k: string): (r: Option<Option<string>>)
    ensures r.Some? <==> k in o && !o[k].Int?
  {
    if k !in o then None
    else match o[k]
      case Null => Some(None)
      case Str(s) => Some(Some(s))
      case Int(_) => None
  }

  /** How a nullable integer column is written out. */
  function OfNullableInt(x: Option<int>): (v: Value)
    ensures v.Null? <==> x.None?
    ensures forall o: Object, k :: k in o && o[k] == v ==> NullableIntAt(o, k) == Some(x)
  {
    match x
    case None => Null
    case Some(n) => Int(n)
  }

  /** How a nullable string column is written out. */
  function OfNullableStr(x: Option<string>): (v: Value)
    ensures v.Null? <==> x.None?
    ensures forall o: Object, k :: k in o && o[k] == v ==> NullableStrAt(o, k) == Some(x)
  {
    match x
    case None => Null
    case Some(s) => Str(s)
  }
}
