/**
 * JavaScript values as far as the request builders look at them: the
 * truthiness test of `if (params.x)`, the `!== undefined` test, the string
 * conversion `URLSearchParams.append` applies, and plain objects read by key.
 */
module JsValues {
  import opened Text

  /** A parameter value: numbers are integers (no fractions, no NaN). */
  datatype JsVal = Undefined | Null | Bool(b: bool) | Num(n: int) | Str(s: string)

  /** JavaScript's ToBoolean: `undefined`, `null`, `false`, `0` and `""` are falsy. */
  predicate Truthy(v: JsVal)
  {
    match v
    case Undefined => false
    case Null => false
    case Bool(b) => b
    case Num(n) => n != 0
    case Str(s) => s != ""
  }

  /** `v !== undefined`. */
  predicate Defined(v: JsVal)
  {
    !v.Undefined?
  }

  /** `String(v)`, the conversion applied to a value appended to a query string. */
  function ToStr(v: JsVal): string
  {
    match v
    case Undefined => "undefined"
    case Null => "null"
    case Bool(b) => if b then "true" else "false"
    case Num(n) => IntToString(n)
    case Str(s) => s
  }

  /** A plain object: a key that is not present reads as `undefined`. */
  type Obj = map<string, JsVal>

  function Get(o: Obj, k: string): JsVal
  {
    if k in o then o[k] else Undefined
  }

  /** `{...base, ...over}`: keys of `over` win, every other key reads from `base`. */
  function Spread(base: Obj, over: Obj): (r: Obj)
    ensures forall k :: k in over ==> Get(r, k) == over[k]
    ensures forall k :: k !in over ==> Get(r, k) == Get(base, k)
  {
    base + over
  }

  /** A truthy value is defined; the converse fails for `false`, `0`, `""` and `null`. */
  lemma TruthyIsDefined(v: JsVal)
    ensures Truthy(v) ==> Defined(v)
    ensures Defined(v) && !Truthy(v) <==> v in {Null, Bool(false), Num(0), Str("")}
  {
  }
}
