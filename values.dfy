/**
 * The Python run-time values that flow through the option dictionaries:
 * `None`, integers, strings and (nested) lists, Python's truthiness test,
 * f-string formatting of a scalar, and the exceptions the core raises.
 */
module Values {

  datatype Value = Null | Int(i: int) | Str(s: string) | List(items: seq<Value>)

  /** The exceptions raised by the modelled code. */
  datatype Error =
    | KeyError(key: string)
    | ValueError(message: string)
    | TypeError(message: string)
    | FileNotFoundError(filename: string)

  /** Python's `bool(v)`: `None`, `0`, `""` and `[]` are falsy, everything else is truthy. */
  predicate Truthy(v: Value) {
    match v
    case Null => false
    case Int(i) => i != 0
    case Str(s) => s != ""
    case List(items) => items != []
  }

  function DigitChar(d: nat): char
    requires d < 10
  {
    "0123456789"[d]
  }

  /** Decimal digits of a natural number, most significant first (Python `str(n)`, n >= 0). */
  function NatToString(n: nat): (r: string)
    ensures |r| > 0
    ensures forall k :: 0 <= k < |r| ==> '0' <= r[k] <= '9'
  {
    if n < 10 then [DigitChar(n)] else NatToString(n / 10) + [DigitChar(n % 10)]
  }

  /** Python `str(i)` for an int. */
  function IntToString(i: int): (r: string)
    ensures |r| > 0
  {
    if i < 0 then "-" + NatToString(-i) else NatToString(i)
  }

  /** The text `f'{v}'` produces for a scalar value. Lists would be rendered by `repr`, which is not modelled. */
  function Format(v: Value): string
    requires !v.List?
  {
    match v
    case Null => "None"
    case Int(i) => IntToString(i)
    case Str(s) => s
  }

  /** Every token is a string, as `' '.join` and `subprocess.run` demand of their items. */
  predicate AllStr(tokens: seq<Value>) {
    forall i :: 0 <= i < |tokens| ==> tokens[i].Str?
  }

  /** Tokens joined one after the other are all strings exactly when both parts are. */
  lemma AllStrConcat(a: seq<Value>, b: seq<Value>)
    ensures AllStr(a + b) <==> AllStr(a) && AllStr(b)
  {
    if AllStr(a + b) {
      forall i | 0 <= i < |a| ensures a[i].Str? {
        assert (a + b)[i] == a[i];
      }
      forall i | 0 <= i < |b| ensures b[i].Str? {
        assert (a + b)[|a| + i] == b[i];
      }
    }
  }

  /** Every value of an environment is a string. */
  predicate StrValues(env: map<string, Value>) {
    forall k :: k in env ==> env[k].Str?
  }
}
