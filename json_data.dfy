/** JSON values (schema documents and instances) and the tokens of paths into them. */
module JsonData {
  import opened PyText

  /** A JSON value; numbers are modelled as integers. */
  datatype Json =
    | JObj(fields: map<string, Json>)
    | JArr(items: seq<Json>)
    | JStr(str: string)
    | JNum(num: int)
    | JBool(b: bool)
    | JNull

  /** One step of a path: a mapping key or a list index. */
  datatype Token = S(key: string) | I(index: int)

  /** Python's truthiness of a JSON value. */
  predicate Truthy(v: Json)
  {
    match v
    case JObj(m) => m != map[]
    case JArr(xs) => xs != []
    case JStr(s) => s != ""
    case JNum(n) => n != 0
    case JBool(b) => b
    case JNull => false
  }

  /** A path token Python treats as false: the empty string or the integer 0. */
  predicate IsFalsyToken(t: Token)
  {
    t == S("") || t == I(0)
  }

  /** `str(token)`. */
  function TokenString(t: Token): string
  {
    match t
    case S(s) => s
    case I(n) => IntToString(n)
  }

  /** Tokens for a path whose steps are all strings. */
  function Keys(names: seq<string>): (r: seq<Token>)
    ensures |r| == |names|
    ensures forall i :: 0 <= i < |names| ==> r[i] == S(names[i])
  {
    if names == [] then [] else [S(names[0])] + Keys(names[1..])
  }
}
