/**
 * The loosely typed JSON-like payloads of the engine (step configurations, input mappings,
 * integration results) as one tagged value, with the few JavaScript operations the engine
 * applies to them: truthiness, property lookup for `part in value` / `value[part]`, and the
 * object spread `{ ...v }`.
 */
module Values {
  import opened Wrappers
  import opened Text

  /** `Undef` is JavaScript's `undefined`; numbers are JSON numbers. */
  datatype Value =
    | Undef
    | Null
    | Bool(b: bool)
    | Num(n: real)
    | Str(s: string)
    | List(items: seq<Value>)
    | Obj(fields: map<string, Value>)

  /** JavaScript truthiness (`NaN` is not a JSON number, so only zero is a falsy number). */
  predicate Truthy(v: Value)
  {
    match v
    case Undef => false
    case Null => false
    case Bool(b) => b
    case Num(n) => n != 0.0
    case Str(s) => s != ""
    case List(_) => true
    case Obj(_) => true
  }

  /** `typeof v === "object"`: objects, arrays and `null`. */
  predicate IsObjectType(v: Value)
  {
    v.Null? || v.List? || v.Obj?
  }

  /** `m[k]` on an object's own properties: `undefined` when the key is absent. */
  function Get(m: map<string, Value>, k: string): (r: Value)
    ensures k !in m ==> r == Undef
    ensures k in m ==> r == m[k]
  {
    if k in m then m[k] else Undef
  }

  /**
   * `value[part]`, when `value && typeof value === "object" && part in value` holds; `None`
   * otherwise. An array's own properties are its indices and `length`.
   */
  function Child(v: Value, part: string): (r: Option<Value>)
    ensures r.Some? ==> Truthy(v) && IsObjectType(v)
    ensures !Truthy(v) || !IsObjectType(v) ==> r.None?
    ensures v.Obj? ==> (r.Some? <==> part in v.fields)
    ensures v.Obj? && part in v.fields ==> r == Some(v.fields[part])
    ensures v.List? && part == "length" ==> r == Some(Num(|v.items| as real))
    ensures v.List? && part != "length" ==>
              (r.Some? <==> IsCanonicalIndex(part) && DigitsValue(part) < |v.items|)
    ensures v.List? && r.Some? && part != "length" ==> r == Some(v.items[DigitsValue(part)])
  {
    match v
    case Obj(m) => if part in m then Some(m[part]) else None
    case List(items) =>
      if part == "length" then Some(Num(|items| as real))
      else
        (match ArrayIndex(part)
         case Some(k) => if k < |items| then Some(items[k]) else None
         case None => None)
    case _ => None
  }

  /** The own index properties of an array-like sequence: "0" to the element at 0, and so on. */
  function IndexMap(vals: seq<Value>): map<string, Value>
    decreases |vals|
  {
    if vals == [] then map[]
    else IndexMap(vals[..|vals| - 1])[NatToString(|vals| - 1) := vals[|vals| - 1]]
  }

  lemma {:induction false} IndexMapAt(vals: seq<Value>, i: nat)
    requires i < |vals|
    ensures NatToString(i) in IndexMap(vals) && IndexMap(vals)[NatToString(i)] == vals[i]
    decreases |vals|
  {
    if i < |vals| - 1 {
      IndexMapAt(vals[..|vals| - 1], i);
      if NatToString(i) == NatToString(|vals| - 1) {
        NatToStringInjective(i, |vals| - 1);
      }
    }
  }

  /** `{ ...v }`: the own enumerable properties of `v` copied into a fresh object. */
  function Spread(v: Value): (r: map<string, Value>)
    ensures v.Obj? ==> r == v.fields
    ensures !v.Obj? && !v.List? && !v.Str? ==> r == map[]
  {
    match v
    case Obj(m) => m
    case List(items) => IndexMap(items)
    case Str(s) => IndexMap(seq(|s|, i requires 0 <= i < |s| => Str([s[i]])))
    case _ => map[]
  }
}
