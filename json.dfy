/**
 * The values stored in the metadata dictionaries, the progress file and the
 * formatted responses: the JSON-like subset of Python values the code builds,
 * with Python's truthiness and `dict.get`.
 */
module Json {
  import opened PyText

  datatype Value =
    | Null
    | Bool(b: bool)
    | Int(i: int)
    | Float(r: real)
    | Str(s: string)
    | List(items: seq<Value>)
    | Obj(fields: map<string, Value>)

  /** A Python `dict` with string keys (insertion order is not modelled). */
  type Dict = map<string, Value>

  /** `bool(v)`: `None`, `False`, zero, and empty strings, lists and dicts are false. */
  predicate Truthy(v: Value) {
    match v
    case Null => false
    case Bool(b) => b
    case Int(i) => i != 0
    case Float(r) => r != 0.0
    case Str(s) => s != ""
    case List(xs) => xs != []
    case Obj(m) => m != map[]
  }

  /** `d.get(k, default)`. */
  function Get(d: Dict, k: string, default: Value): (v: Value)
    ensures k in d ==> v == d[k]
    ensures k !in d ==> v == default
  {
    if k in d then d[k] else default
  }

  /**
   * `str(v)` inside an f-string, for the kinds that have a fixed rendering:
   * `None`, booleans, integers and strings. Floats, lists and dicts get a
   * placeholder (their repr is not modelled).
   */
  function Display(v: Value): (r: string)
    ensures v.Str? ==> r == v.s
    ensures v.Int? ==> r == IntToString(v.i)
  {
    match v
    case Null => "None"
    case Bool(b) => if b then "True" else "False"
    case Int(i) => IntToString(i)
    case Str(s) => s
    case _ => "..."
  }

  /**
   * An integer rendered by `Display` reads back with `int(...)`: a
   * non-negative one is a run of digits with that value, a negative one is a
   * minus sign followed by the digits of its absolute value.
   */
  lemma DisplayIntReadsBack(i: int)
    ensures var r := Display(Int(i));
      && (i >= 0 ==> (forall k :: 0 <= k < |r| ==> IsDigit(r[k])) && ParseNat(r) == i)
      && (i < 0 ==> r[0] == '-' && (forall k :: 1 <= k < |r| ==> IsDigit(r[k])) && ParseNat(r[1..]) == -i)
  {
    if i >= 0 {
      ParseNatToString(i);
    } else {
      ParseNatToString(-i);
      assert Display(Int(i))[1..] == NatToString(-i);
    }
  }
}
