/** The JSON Schema validator of `json_check.py` against a declarative reading of its keywords. */
module JsonSchema {
  import opened JsonValues
  import opened JsonPointers

  /** How types and literals are read: as the code does, or as the draft says. */
  datatype Reading = Code | Draft

  /** The loaded schema files, `re.search(pattern, text)`, which this model leaves open, and the reading. */
  datatype Env = Env(files: map<string, Json>, search: (string, string) -> bool, reading: Reading)

  const Checked: set<string> := {"type", "properties", "required", "additionalProperties", "items", "enum", "const",
                                 "anyOf", "oneOf", "$ref", "pattern"}
  const Ignored: set<string> := {"$schema", "$id", "title", "description", "$defs"}
  const TypeNames: set<string> := {"string", "integer", "number", "boolean", "object", "array", "null"}

  /** A number with a zero fractional part. */
  predicate Whole(x: real) {
    x == x.Floor as real
  }

  /** Section 6.1.1 of the validation draft: `integer` is any number with a zero fractional part. The
      code asks for a Python `int`, which `1.0` is not. */
  predicate IsInteger(reading: Reading, v: Json) {
    v.Int? || (reading.Draft? && v.Float? && Whole(v.x))
  }

  predicate HasType(reading: Reading, v: Json, name: string) {
    (name == "string" && v.Str?) || (name == "integer" && IsInteger(reading, v)) || (name == "number" && IsNumber(v)) ||
    (name == "boolean" && v.Bool?) || (name == "object" && v.Obj?) || (name == "array" && v.Arr?) ||
    (name == "null" && v.Null?)
  }

  /** Sections 6.1.2 and 6.1.3: equality of JSON values; the code has `same`. */
  predicate Matches(reading: Reading, v: Json, literal: Json) {
    if reading.Code? then Same(v, literal) else JsonEqual(v, literal)
  }

  // ----- Reading a schema's keywords -----

  function ListAt(s: Json, key: string): (r: seq<Json>)
    ensures forall x | x in r :: s decreases to x
  {
    if s.Obj? && key in s.members && s.members[key].Arr? then
      assert forall x | x in s.members[key].items :: s.members[key] decreases to x;
      s.members[key].items
    else []
  }

  function Props(s: Json): (r: map<string, Json>) {
    if s.Obj? && "properties" in s.members && s.members["properties"].Obj? then s.members["properties"].members else map[]
  }

  function Required(s: Json): (r: seq<Json>) {
    if s.Obj? && "required" in s.members && s.members["required"].Arr? then s.members["required"].items else []
  }

  function Extra(s: Json): (r: Json) {
    if s.Obj? && "additionalProperties" in s.members then s.members["additionalProperties"] else Bool(true)
  }

  function Types(s: Json): (r: seq<Json>) {
    if s.Obj? && "type" in s.members then (if s.members["type"].Arr? then s.members["type"].items else [s.members["type"]]) else []
  }

  /** What a schema asks of the member named `k`. */
  datatype MemberRule = Forbidden | Free | Under(schema: Json)

  function SchemaFor(s: Json, k: string): (r: MemberRule) {
    if k in Props(s) then Under(Props(s)[k])
    else if Extra(s) == Bool(false) then Forbidden
    else if Extra(s).Obj? then Under(Extra(s))
    else Free
  }

  predicate HasRef(s: Json) {
    s.Obj? && "$ref" in s.members && s.members["$ref"].Str?
  }

  function RefOf(s: Json): (r: string)
    requires HasRef(s)
  {
    s.members["$ref"].s
  }

  // ----- Termination: references followed without going down in the value -----

  type Rank = (string, string) -> nat

  /** More than the rank of every reference `s` follows on the same value (its own `$ref`, and
      those of its `anyOf` and `oneOf` branches). */
  ghost function Weight(rank: Rank, s: Json, base: string): (w: nat)
    ensures HasRef(s) ==> rank(base, RefOf(s)) < w
    decreases s, 1
  {
    var own := if HasRef(s) then rank(base, RefOf(s)) + 1 else 0;
    Max(own, Max(Heaviest(rank, s, "anyOf", |ListAt(s, "anyOf")|, base), Heaviest(rank, s, "oneOf", |ListAt(s, "oneOf")|, base)))
  }

  function Max(a: nat, b: nat): (r: nat) {
    if a < b then b else a
  }

  ghost function Heaviest(rank: Rank, s: Json, key: string, n: nat, base: string): (w: nat)
    requires n <= |ListAt(s, key)|
    decreases s, 0, n
  {
    if n == 0 then 0
    else
      Max(Heaviest(rank, s, key, n - 1, base), Weight(rank, ListAt(s, key)[n - 1], base))
  }

  lemma {:induction false} HeaviestBounds(rank: Rank, s: Json, key: string, n: nat, i: nat, base: string)
    requires i < n <= |ListAt(s, key)|
    ensures Weight(rank, ListAt(s, key)[i], base) <= Heaviest(rank, s, key, n, base)
  {
    if i < n - 1 {
      HeaviestBounds(rank, s, key, n - 1, i, base);
    }
  }

  lemma {:induction false} BranchWeights(rank: Rank, s: Json, base: string)
    ensures forall i | 0 <= i < |ListAt(s, "anyOf")| :: Weight(rank, ListAt(s, "anyOf")[i], base) <= Weight(rank, s, base)
    ensures forall i | 0 <= i < |ListAt(s, "oneOf")| :: Weight(rank, ListAt(s, "oneOf")[i], base) <= Weight(rank, s, base)
  {
    forall i | 0 <= i < |ListAt(s, "anyOf")| ensures Weight(rank, ListAt(s, "anyOf")[i], base) <= Weight(rank, s, base) {
      HeaviestBounds(rank, s, "anyOf", |ListAt(s, "anyOf")|, i, base);
    }
    forall i | 0 <= i < |ListAt(s, "oneOf")| ensures Weight(rank, ListAt(s, "oneOf")[i], base) <= Weight(rank, s, base) {
      HeaviestBounds(rank, s, "oneOf", |ListAt(s, "oneOf")|, i, base);
    }
  }

  /** No reference leads back to itself on one value. A schema may still describe itself through
      `properties`, `items` or `additionalProperties`, where the value gets smaller. */
  ghost predicate Ranked(env: Env, rank: Rank) {
    forall ref, base ::
      var t := Resolve(env.files, ref, base);
      t.Some? ==> Weight(rank, t.value.node, t.value.file) <= rank(base, ref)
  }

  // ----- What the keywords mean -----

  ghost predicate Satisfies(env: Env, rank: Rank, v: Json, s: Json, base: string)
    requires Ranked(env, rank)
    decreases v, Weight(rank, s, base), s, 1
  {
    && RefHolds(env, rank, v, s, base)
    && TypeHolds(env.reading, v, s)
    && ConstHolds(env.reading, v, s)
    && EnumHolds(env.reading, v, s)
    && PatternHolds(env, v, s)
    && MembersHold(env, rank, v, s, base)
    && ItemsHold(env, rank, v, s, base)
    && AnyOfHolds(env, rank, v, s, base)
    && OneOfHolds(env, rank, v, s, base)
  }

  ghost predicate RefHolds(env: Env, rank: Rank, v: Json, s: Json, base: string)
    requires Ranked(env, rank)
    decreases v, Weight(rank, s, base), s, 0
  {
    HasRef(s) ==>
      var t := Resolve(env.files, RefOf(s), base);
      t.Some? && Satisfies(env, rank, v, t.value.node, t.value.file)
  }

  predicate TypeHolds(reading: Reading, v: Json, s: Json) {
    Get(s, "type").Some? ==> exists i | 0 <= i < |Types(s)| :: Types(s)[i].Str? && HasType(reading, v, Types(s)[i].s)
  }

  predicate ConstHolds(reading: Reading, v: Json, s: Json) {
    var c := Get(s, "const");
    c.Some? ==> Matches(reading, v, c.value)
  }

  predicate EnumHolds(reading: Reading, v: Json, s: Json) {
    Get(s, "enum").Some? ==> exists i | 0 <= i < |ListAt(s, "enum")| :: Matches(reading, v, ListAt(s, "enum")[i])
  }

  predicate PatternHolds(env: Env, v: Json, s: Json) {
    var p := Get(s, "pattern");
    p.Some? && p.value.Str? && v.Str? ==> env.search(p.value.s, v.s)
  }

  predicate HasMember(v: Json, name: Json) {
    v.Obj? && name.Str? && name.s in v.members
  }

  ghost predicate MembersHold(env: Env, rank: Rank, v: Json, s: Json, base: string)
    requires Ranked(env, rank)
    decreases v, Weight(rank, s, base), s, 0
  {
    v.Obj? ==>
      && (forall i | 0 <= i < |Required(s)| :: HasMember(v, Required(s)[i]))
      && (forall k | k in v.members ::
            && SchemaFor(s, k) != Forbidden
            && (SchemaFor(s, k).Under? ==> Satisfies(env, rank, v.members[k], SchemaFor(s, k).schema, base)))
  }

  ghost predicate ItemsHold(env: Env, rank: Rank, v: Json, s: Json, base: string)
    requires Ranked(env, rank)
    decreases v, Weight(rank, s, base), s, 0
  {
    var items := Get(s, "items");
    v.Arr? && items.Some? ==> forall i | 0 <= i < |v.items| :: Satisfies(env, rank, v.items[i], items.value, base)
  }

  ghost predicate AnyOfHolds(env: Env, rank: Rank, v: Json, s: Json, base: string)
    requires Ranked(env, rank)
    decreases v, Weight(rank, s, base), s, 0
  {
    BranchWeights(rank, s, base);
    var bs := ListAt(s, "anyOf");
    Get(s, "anyOf").Some? ==> exists i | 0 <= i < |bs| :: Satisfies(env, rank, v, bs[i], base)
  }

  ghost predicate OneOfHolds(env: Env, rank: Rank, v: Json, s: Json, base: string)
    requires Ranked(env, rank)
    decreases v, Weight(rank, s, base), s, 0
  {
    BranchWeights(rank, s, base);
    var bs := ListAt(s, "oneOf");
    Get(s, "oneOf").Some? ==>
      exists i | 0 <= i < |bs| ::
        && Satisfies(env, rank, v, bs[i], base)
        && forall j | 0 <= j < |bs| && j != i :: !Satisfies(env, rank, v, bs[j], base)
  }

  /** Branch `i` is the only one the value satisfies. */
  ghost predicate OnlyMatch(env: Env, rank: Rank, v: Json, bs: seq<Json>, i: nat, base: string)
    requires Ranked(env, rank)
  {
    && i < |bs| && Satisfies(env, rank, v, bs[i], base)
    && forall j | 0 <= j < |bs| && j != i :: !Satisfies(env, rank, v, bs[j], base)
  }

  lemma {:induction false} OneOfGives(env: Env, rank: Rank, v: Json, s: Json, base: string) returns (i: nat)
    requires Ranked(env, rank) && Get(s, "oneOf").Some? && OneOfHolds(env, rank, v, s, base)
    ensures OnlyMatch(env, rank, v, ListAt(s, "oneOf"), i, base)
  {
    var bs := ListAt(s, "oneOf");
    i :| 0 <= i < |bs| && Satisfies(env, rank, v, bs[i], base)
      && forall j | 0 <= j < |bs| && j != i :: !Satisfies(env, rank, v, bs[j], base);
  }

  lemma {:induction false} OneOfFrom(env: Env, rank: Rank, v: Json, s: Json, base: string, i: nat)
    requires Ranked(env, rank) && OnlyMatch(env, rank, v, ListAt(s, "oneOf"), i, base)
    ensures OneOfHolds(env, rank, v, s, base)
  {
  }

  lemma {:induction false} OneOfMeans(env: Env, rank: Rank, v: Json, s: Json, base: string)
    requires Ranked(env, rank) && Get(s, "oneOf").Some?
    ensures OneOfHolds(env, rank, v, s, base) <==> exists i: nat :: OnlyMatch(env, rank, v, ListAt(s, "oneOf"), i, base)
  {
    if OneOfHolds(env, rank, v, s, base) {
      var i := OneOfGives(env, rank, v, s, base);
    }
    if i: nat :| OnlyMatch(env, rank, v, ListAt(s, "oneOf"), i, base) {
      OneOfFrom(env, rank, v, s, base, i);
    }
  }

  // ----- The meaning does not depend on the ranking that shows termination -----

  /** Any two rankings of the references give the same verdict. */
  lemma {:induction false} RankIsImmaterial(env: Env, p: Rank, q: Rank, v: Json, s: Json, base: string)
    requires Ranked(env, p) && Ranked(env, q)
    ensures Satisfies(env, p, v, s, base) <==> Satisfies(env, q, v, s, base)
    decreases v, Weight(p, s, base), s, 1
  {
    if HasRef(s) {
      var t := Resolve(env.files, RefOf(s), base);
      if t.Some? {
        RankIsImmaterial(env, p, q, v, t.value.node, t.value.file);
      }
    }
    SameBelow(env, p, q, v, s, base);
    SameBranches(env, p, q, v, s, base);
  }

  lemma {:induction false} SameBelow(env: Env, p: Rank, q: Rank, v: Json, s: Json, base: string)
    requires Ranked(env, p) && Ranked(env, q)
    ensures MembersHold(env, p, v, s, base) <==> MembersHold(env, q, v, s, base)
    ensures ItemsHold(env, p, v, s, base) <==> ItemsHold(env, q, v, s, base)
    decreases v, Weight(p, s, base), s, 0
  {
    if v.Obj? {
      forall k | k in v.members && SchemaFor(s, k).Under?
        ensures Satisfies(env, p, v.members[k], SchemaFor(s, k).schema, base) <==> Satisfies(env, q, v.members[k], SchemaFor(s, k).schema, base)
      {
        RankIsImmaterial(env, p, q, v.members[k], SchemaFor(s, k).schema, base);
      }
    }
    var items := Get(s, "items");
    if v.Arr? && items.Some? {
      forall i | 0 <= i < |v.items|
        ensures Satisfies(env, p, v.items[i], items.value, base) <==> Satisfies(env, q, v.items[i], items.value, base)
      {
        RankIsImmaterial(env, p, q, v.items[i], items.value, base);
      }
    }
  }

  lemma {:induction false} SameBranches(env: Env, p: Rank, q: Rank, v: Json, s: Json, base: string)
    requires Ranked(env, p) && Ranked(env, q)
    ensures AnyOfHolds(env, p, v, s, base) <==> AnyOfHolds(env, q, v, s, base)
    ensures OneOfHolds(env, p, v, s, base) <==> OneOfHolds(env, q, v, s, base)
    decreases v, Weight(p, s, base), s, 0
  {
    BranchWeights(p, s, base);
    var any, one := ListAt(s, "anyOf"), ListAt(s, "oneOf");
    forall i | 0 <= i < |any| ensures Satisfies(env, p, v, any[i], base) <==> Satisfies(env, q, v, any[i], base) {
      RankIsImmaterial(env, p, q, v, any[i], base);
    }
    forall i | 0 <= i < |one| ensures Satisfies(env, p, v, one[i], base) <==> Satisfies(env, q, v, one[i], base) {
      RankIsImmaterial(env, p, q, v, one[i], base);
    }
  }
}
