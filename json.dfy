/**
 * JavaScript values as the storefront reads them from JSON columns and request
 * bodies, with the language rules the code leans on: truthiness, `||`,
 * string conversion in templates, and the "parse if it is a string" idiom.
 * `JSON.parse`, `decodeURIComponent` and `new URL` are not modelled; they are
 * passed in as a `Runtime`, functions that may fail (a failure is a throw).
 */
module Json {
  import opened Wrappers
  import Text

  datatype Json =
    | JNull
    | JBool(b: bool)
    | JNum(n: int)
    | JStr(s: string)
    | JArr(items: seq<Json>)
    | JObj(fields: map<string, Json>)

  /** A parsed URL: its path and the first value of each query parameter. */
  datatype Url = Url(pathname: string, params: map<string, string>)

  /** The platform functions the code calls and that may throw. */
  datatype Runtime = Runtime(
    parseJson: string -> Option<Json>,
    decodeUri: string -> Option<string>,
    parseUrl: string -> Option<Url>)

  /** JavaScript truthiness of a present value (`undefined` is a missing field, `None`). */
  predicate Truthy(v: Json) {
    match v
    case JNull => false
    case JBool(b) => b
    case JNum(n) => n != 0
    case JStr(s) => s != ""
    case _ => true
  }

  predicate TruthyField(v: Option<Json>) {
    v.Some? && Truthy(v.value)
  }

  /** `a || b` on possibly missing values. */
  function Or(a: Option<Json>, b: Option<Json>): (r: Option<Json>)
    ensures TruthyField(a) ==> r == a
    ensures !TruthyField(a) ==> r == b
  {
    if TruthyField(a) then a else b
  }

  /** `v?.[key]`: a field of an object, missing for anything else. */
  function Get(v: Option<Json>, key: string): (r: Option<Json>)
    ensures r.Some? ==> v.Some? && v.value.JObj? && key in v.value.fields && r.value == v.value.fields[key]
  {
    if v.Some? && v.value.JObj? && key in v.value.fields then Some(v.value.fields[key]) else None
  }

  /** `String(v)`, as a template literal renders a value; a missing value renders "undefined". */
  function Render(v: Option<Json>): string {
    match v
    case None => "undefined"
    case Some(x) => RenderValue(x)
  }

  function RenderValue(v: Json): string
    decreases v, 1
  {
    match v
    case JNull => "null"
    case JBool(b) => if b then "true" else "false"
    case JNum(n) => Text.IntToString(n)
    case JStr(s) => s
    case JArr(items) => RenderItems(v, items)
    case JObj(_) => "[object Object]"
  }

  /** `items.join(',')`, where `null` elements render as the empty text. */
  function RenderItems(whole: Json, items: seq<Json>): string
    requires forall i :: 0 <= i < |items| ==> items[i] < whole
    decreases whole, 0, |items|
  {
    if items == [] then ""
    else
      var head := if items[0] == JNull then "" else RenderValue(items[0]);
      if |items| == 1 then head else head + "," + RenderItems(whole, items[1..])
  }

  /** `typeof v === 'string' ? JSON.parse(v) : v`. */
  function Coerce(rt: Runtime, v: Json): (r: Attempt<Json>)
    ensures !v.JStr? ==> r == Returned(v)
    ensures v.JStr? ==> (r.Threw? <==> rt.parseJson(v.s).None?)
    ensures v.JStr? && r.Returned? ==> Some(r.value) == rt.parseJson(v.s)
  {
    match v
    case JStr(s) => if rt.parseJson(s).Some? then Returned(rt.parseJson(s).value) else Threw
    case _ => Returned(v)
  }

  /** `v?.[i]` for an index: an array element or a one-character string, missing
      past the end and for values that are neither (object keys are not modelled). */
  function Index(v: Option<Json>, i: nat): (r: Option<Json>)
    ensures r.Some? ==> v.Some? && (v.value.JArr? || v.value.JStr?)
  {
    if v.None? then None
    else match v.value
      case JArr(items) => if i < |items| then Some(items[i]) else None
      case JStr(s) => if i < |s| then Some(JStr([s[i]])) else None
      case _ => None
  }

  /** `v && v.length > 0`: a non-empty array or string. */
  predicate NonEmptyList(v: Json) {
    (v.JArr? && v.items != []) || (v.JStr? && v.s != [])
  }

  /** The elements of an array value, and nothing for any other value (`Array.isArray`). */
  function ArrayItems(v: Json): seq<Json> {
    if v.JArr? then v.items else []
  }

  /** `s.map(f)` where `f` may throw: the first throw ends the whole map. */
  function MapAll<A, B>(s: seq<A>, f: A -> Attempt<B>): (r: Attempt<seq<B>>)
    ensures r.Returned? <==> forall i :: 0 <= i < |s| ==> f(s[i]).Returned?
    ensures r.Returned? ==> |r.value| == |s| && forall i :: 0 <= i < |s| ==> f(s[i]) == Returned(r.value[i])
  {
    if s == [] then Returned([])
    else match f(s[0])
      case Threw => Threw
      case Returned(b) =>
        match MapAll(s[1..], f)
        case Threw => Threw
        case Returned(rest) => Returned([b] + rest)
  }
}
