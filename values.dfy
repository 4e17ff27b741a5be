/** Values that appear in frontmatter, sidecars and hook configurations, with
    the JavaScript truthiness the build scripts rely on (`a || b`, `a && b`). */
module Values {

  datatype Option<+T> = None | Some(value: T)

  datatype Result<+T, +E> = Ok(value: T) | Err(error: E)

  /** A parsed YAML/JSON value. Numbers are integers: no build input relies on
      fractional values. */
  datatype Value =
    | Null
    | Bool(b: bool)
    | Num(n: int)
    | Str(s: string)
    | List(items: seq<Value>)
    | Object(fields: map<string, Value>)

  /** A document header: string keys to values. Key order is not modelled. */
  type Frontmatter = map<string, Value>

  /** JavaScript truthiness: null, false, 0 and "" are falsy; every list and
      object, even an empty one, is truthy. */
  predicate Truthy(v: Value) {
    match v
    case Null => false
    case Bool(b) => b
    case Num(n) => n != 0
    case Str(s) => s != ""
    case List(_) => true
    case Object(_) => true
  }

  /** The property `m[k]` of a JavaScript object, `undefined` being `None`. */
  function Get(m: Frontmatter, k: string): (r: Option<Value>)
    ensures r.Some? <==> k in m
    ensures r.Some? ==> r.value == m[k]
  {
    if k in m then Some(m[k]) else None
  }

  /** JavaScript `a || fallback` where `a` may be `undefined`. */
  function Or(a: Option<Value>, fallback: Value): (r: Value)
    ensures a.Some? && Truthy(a.value) ==> r == a.value
    ensures !(a.Some? && Truthy(a.value)) ==> r == fallback
  {
    if a.Some? && Truthy(a.value) then a.value else fallback
  }

  /** Replacing an entry twice is replacing it once, with the later value. */
  lemma ReplaceTwice<K, V>(m: map<K, V>, k: K, a: V, b: V)
    ensures m[k := a][k := b] == m[k := b]
  {
  }
}
