/** `resolve`, `int_kind` and `kind` of `wherecheck.py`: the value kind of a property schema. */
module PropertyKinds {
  import opened JsonValues
  import opened JsonPointers

  type Defs = map<string, Json>
  type Schema = map<string, Json>

  const Identifier: string := "application/x.dash.dpp.identifier"

  function Lookup(s: Schema, key: string): (r: Json) {
    if key in s then s[key] else Null
  }

  /** A schema with its `$ref` folded in, the site's own keywords winning. Nothing when a name is
      missing, or comes back (the loop would never end: each name fixes the next). */
  function Folded(defs: Defs, s: Schema): (r: Option<Schema>) {
    FoldedIn(defs, s, defs.Keys)
  }

  function FoldedIn(defs: Defs, s: Schema, unused: set<string>): (r: Option<Schema>)
    requires unused <= defs.Keys
    ensures r.Some? ==> "$ref" !in r.value
    decreases unused
  {
    if "$ref" !in s then Some(s)
    else if !s["$ref"].Str? then None
    else
      var name := BaseName(s["$ref"].s);
      if name !in unused || !defs[name].Obj? then None
      else FoldedIn(defs, Merge(defs[name].members, s), unused - {name})
  }

  /** `{**definition, **site without $ref}` */
  function Merge(definition: Schema, site: Schema): (r: Schema) {
    definition + (site - {"$ref"})
  }

  function Limit(s: Schema, key: string): (r: Option<real>) {
    var v := Lookup(s, key);
    if NumberLike(v) then Some(AsNumber(v)) else None
  }

  function Unsigned(most: real): (r: string) {
    if most <= 255.0 then "u8" else if most <= 65535.0 then "u16" else if most <= 4294967295.0 then "u32" else "u64"
  }

  function ByRange(least: real, most: real): (r: string) {
    if least >= 0.0 then Unsigned(most)
    else if least >= -128.0 && most <= 127.0 then "i8"
    else if least >= -32768.0 && most <= 32767.0 then "i16"
    else if least >= -2147483648.0 && most <= 2147483647.0 then "i32"
    else "i64"
  }

  /** `[v for v in s.get('enum', []) if isinstance(v, int)]`; Python counts booleans. */
  function EnumInts(items: seq<Json>): (r: seq<real>) {
    if items == [] then []
    else (if items[0].Int? || items[0].Bool? then [AsNumber(items[0])] else []) + EnumInts(items[1..])
  }

  function Least(xs: seq<real>): (r: real)
    requires xs != []
    ensures r in xs && forall x | x in xs :: r <= x
  {
    if |xs| == 1 then xs[0]
    else
      var rest := Least(xs[1..]);
      assert xs == [xs[0]] + xs[1..];
      if xs[0] <= rest then xs[0] else rest
  }

  function Greatest(xs: seq<real>): (r: real)
    requires xs != []
    ensures r in xs && forall x | x in xs :: x <= r
  {
    if |xs| == 1 then xs[0]
    else
      var rest := Greatest(xs[1..]);
      assert xs == [xs[0]] + xs[1..];
      if xs[0] >= rest then xs[0] else rest
  }

  function IntKind(s: Schema): (r: string) {
    var low, high := Limit(s, "minimum"), Limit(s, "maximum");
    if low.Some? && high.Some? then ByRange(low.value, high.value)
    else if low.Some? then (if low.value >= 0.0 then "u64" else "i64")
    else if high.Some? then Unsigned(high.value)
    else
      var listed := Lookup(s, "enum");
      var ints := if listed.Arr? then EnumInts(listed.items) else [];
      if |ints| > 1 then ByRange(Least(ints), Greatest(ints))
      else if |ints| == 1 then Unsigned(ints[0])
      else "i64"
  }

  predicate Truthy(v: Json) {
    match v
    case Null => false
    case Bool(b) => b
    case Int(n) => n != 0
    case Float(x) => x != 0.0
    case Str(s) => s != ""
    case Arr(xs) => xs != []
    case Obj(m) => m.Keys != {}
  }

  /** The kind of a resolved schema; a type that is no case of its own is its own kind. */
  function KindOf(s: Schema): (r: Json) {
    var t := Lookup(s, "type");
    if t == Str("identifier") || t == Str("bytes") then t
    else if t == Str("array") && Truthy(Lookup(s, "byteArray")) then
      (if Lookup(s, "contentMediaType") == Str(Identifier) then Str("identifier") else Str("bytes"))
    else if t == Str("array") then Str("typedArray")
    else if t == Str("integer") then Str(IntKind(s))
    else t
  }

  function Kind(defs: Defs, s: Schema): (r: Option<Json>) {
    var resolved := Folded(defs, s);
    if resolved.None? then None else Some(KindOf(resolved.value))
  }
}
