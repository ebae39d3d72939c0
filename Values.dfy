/** The untyped document model of a registry configuration: what a YAML
    loader hands back, and the few pieces of Python semantics the resolver
    relies on (truth values, string containment, iteration). */
module Values {

  datatype Option<+T> = None | Some(value: T)

  datatype Result<+T, +E> = Ok(value: T) | Err(error: E)

  /** One node of a loaded document. Floating-point numbers (pattern
      scores) are carried as reals and never computed with. */
  datatype Value =
    | Null
    | Bool(b: bool)
    | Int(i: int)
    | Float(f: real)
    | Str(s: string)
    | List(items: seq<Value>)
    | Dict(fields: map<string, Value>)

  /** A top-level configuration mapping, and also a keyword-argument set. */
  type Configuration = map<string, Value>

  /** Python's truth value of a node, `bool(v)`. */
  predicate Truthy(v: Value) {
    match v
    case Null => false
    case Bool(b) => b
    case Int(i) => i != 0
    case Float(f) => f != 0.0
    case Str(s) => s != ""
    case List(items) => items != []
    case Dict(fields) => fields != map[]
  }

  /** Python's `t in s` on two strings: `t` occurs in `s` as a contiguous run. */
  predicate ContainsSubstring(s: string, t: string)
    decreases |s|
  {
    |t| <= |s| && (s[..|t|] == t || (|s| > 0 && ContainsSubstring(s[1..], t)))
  }

  /** The one-character strings of `s`, in order: what `for x in s` yields. */
  function Characters(s: string): (r: seq<Value>)
    ensures |r| == |s|
    ensures forall i :: 0 <= i < |s| ==> r[i] == Str([s[i]])
  {
    seq(|s|, i requires 0 <= i < |s| => Str([s[i]]))
  }

  /** What `for x in v` iterates over: the items of a list, the characters
      of a string. Every other node is refused (Python raises TypeError for
      scalars and None; a mapping's key order is not part of this model). */
  function Iterate(v: Value): (r: Option<seq<Value>>)
    ensures r.Some? <==> v.List? || v.Str?
    ensures v.List? ==> r == Some(v.items)
    ensures v.Str? ==> r.Some? && |r.value| == |v.s|
  {
    match v
    case List(items) => Some(items)
    case Str(s) => Some(Characters(s))
    case _ => None
  }
}
