/**
 * Decoded JSON values as the stock checker receives them from the remote
 * service, together with the few pieces of Python behaviour the parser relies
 * on: dictionary `get` with a default, hashability, truthiness and the text
 * that an f-string interpolation produces for a scalar.
 */
module PyJson {

  /** A decoded JSON document. `Null` is Python's `None`; objects are
      dictionaries with string keys. JSON numbers are integers here. */
  datatype Json =
    | Null
    | Bool(b: bool)
    | Int(i: int)
    | Str(s: string)
    | List(items: seq<Json>)
    | Dict(fields: map<string, Json>)

  /** The Python exceptions the parser can raise on a response of an
      unexpected shape. */
  datatype PyError =
    | NotIterable      // TypeError: the value under "stockLevels" cannot be iterated
    | NoGetAttribute   // AttributeError: an element is not a dict and has no `get`
    | Unhashable       // TypeError: a list or dict used as a dictionary key

  /** The outcome of a Python call: a value, or the exception it raised. */
  datatype Result<T> = Ok(value: T) | Err(error: PyError)

  /** `d.get(key, default)`. */
  function Get(d: map<string, Json>, key: string, default: Json): Json
  {
    if key in d then d[key] else default
  }

  /** Lists and dicts cannot be dictionary keys; every other value can. */
  predicate Hashable(v: Json)
  {
    !v.List? && !v.Dict?
  }

  /** Python's truth value of a decoded value (`if v:`). */
  predicate Truthy(v: Json)
    ensures Truthy(v) <==>
      v != Null && v != Bool(false) && v != Int(0) && v != Str("") && v != List([]) && v != Dict(map[])
  {
    match v
    case Null => false
    case Bool(b) => b
    case Int(i) => i != 0
    case Str(s) => s != ""
    case List(items) => items != []
    case Dict(fields) => fields != map[]
  }

  predicate IsDigit(c: char)
  {
    '0' <= c <= '9'
  }

  function DigitChar(d: nat): (c: char)
    requires d < 10
    ensures IsDigit(c) && DigitValue(c) == d
  {
    ('0' as int + d) as char
  }

  function DigitValue(c: char): int
  {
    c as int - '0' as int
  }

  /** The decimal digits of a natural number, most significant first. */
  function NatToDecimal(n: nat): (s: string)
    ensures |s| >= 1
    ensures forall k | 0 <= k < |s| :: IsDigit(s[k])
    ensures n >= 10 ==> s[0] != '0'
    decreases n
  {
    if n < 10 then [DigitChar(n)] else NatToDecimal(n / 10) + [DigitChar(n % 10)]
  }

  /** `str(i)` for a Python int: an optional minus sign, then the digits. */
  function IntToDecimal(i: int): (s: string)
    ensures |s| >= 1
    ensures i < 0 <==> s[0] == '-'
    ensures forall k | (if i < 0 then 1 else 0) <= k < |s| :: IsDigit(s[k])
    ensures |s| > (if i < 0 then 2 else 1) ==> s[if i < 0 then 1 else 0] != '0'
    ensures DecimalValue(if i < 0 then s[1..] else s) == (if i < 0 then -i else i)
  {
    DecimalRoundTrip(if i < 0 then -i else i);
    if i < 0 then "-" + NatToDecimal(-i) else NatToDecimal(i)
  }

  /** The value a string of decimal digits denotes (the reading direction of
      `IntToDecimal`). */
  function DecimalValue(s: string): int
    decreases |s|
  {
    if s == [] then 0 else 10 * DecimalValue(s[..|s| - 1]) + DigitValue(s[|s| - 1])
  }

  lemma {:induction false} DecimalRoundTrip(n: nat)
    ensures DecimalValue(NatToDecimal(n)) == n
    decreases n
  {
    if n >= 10 {
      var prefix := NatToDecimal(n / 10);
      var s := prefix + [DigitChar(n % 10)];
      assert s[..|s| - 1] == prefix;
      DecimalRoundTrip(n / 10);
    }
  }

  /** Distinct integers render as distinct text. */
  lemma {:induction false} IntToDecimalInjective(i: int, j: int)
    requires IntToDecimal(i) == IntToDecimal(j)
    ensures i == j
  {
    if i < 0 && j < 0 {
      assert NatToDecimal(-i) == IntToDecimal(i)[1..] == IntToDecimal(j)[1..] == NatToDecimal(-j);
      DecimalRoundTrip(-i);
      DecimalRoundTrip(-j);
    } else if i >= 0 && j >= 0 {
      DecimalRoundTrip(i);
      DecimalRoundTrip(j);
    }
  }

  /** The text `f"{v}"` produces for a scalar: `None`, `True`/`False`, the
      decimal digits of an int, or the string itself. */
  function Render(v: Json): (t: string)
    requires Hashable(v)
    ensures v.Str? ==> t == v.s
    ensures v.Int? ==> |t| >= 1 && (v.i < 0 <==> t[0] == '-')
    ensures v.Int? ==> forall k | (if v.i < 0 then 1 else 0) <= k < |t| :: IsDigit(t[k])
    ensures v.Int? && |t| > (if v.i < 0 then 2 else 1) ==> t[if v.i < 0 then 1 else 0] != '0'
    ensures v.Int? ==> DecimalValue(if v.i < 0 then t[1..] else t) == (if v.i < 0 then -v.i else v.i)
    ensures !v.Str? && !v.Int? ==> t in {"None", "True", "False"}
  {
    match v
    case Null => "None"
    case Bool(b) => if b then "True" else "False"
    case Int(i) => IntToDecimal(i)
    case Str(s) => s
  }
}
