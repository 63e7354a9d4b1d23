/** The combinators of `docs/schemas/generate.py`, and what a value that satisfies them is. */
module SchemaWriter {
  import opened JsonValues
  import opened JsonPointers
  import opened JsonSchema

  function OfType(name: string): (r: Json) {
    Obj(map["type" := Str(name)])
  }

  /** `nl(t)`: a bare type name becomes a pair of names, anything else a choice with null. */
  function Nullable(t: map<string, Json>): (r: Json) {
    if t.Keys == {"type"} && t["type"].Str? then Obj(map["type" := Arr([t["type"], Str("null")])])
    else Obj(map["anyOf" := Arr([Obj(t), OfType("null")])])
  }

  /** `A(items)` */
  function ArrayOf(items: Option<Json>): (r: Json) {
    if items.Some? then Obj(map["type" := Str("array"), "items" := items.value]) else OfType("array")
  }

  function Strings(names: seq<string>): (r: Json) {
    Arr(seq(|names|, i requires 0 <= i < |names| => Str(names[i])))
  }

  /** `O(props, req)` */
  function ObjectOf(props: map<string, Json>, req: seq<string>): (r: Json) {
    var o := map["type" := Str("object"), "properties" := Obj(props)];
    Obj(if req == [] then o else o["required" := Strings(req)])
  }

  /** `E(*values)` */
  function OneOfWords(words: seq<string>): (r: Json) {
    Obj(map["type" := Str("string"), "enum" := Strings(words)])
  }

  /** `D(desc, t)` */
  function Described(desc: string, t: map<string, Json>): (r: Json) {
    Obj(t["description" := Str(desc)])
  }

  datatype Branch = Branch(props: map<string, Json>, req: seq<string>)

  /** The annotations at the top of a schema file. */
  datatype Head = Head(dialect: string, id: string, title: string, desc: string)

  /** `schema_of`, its `oneOf` branches written by `cmd` as `O(p, r)`. */
  function SchemaOf(head: Head, props: map<string, Json>, req: seq<string>, oneOf: seq<Branch>): (r: Json) {
    var schema := Plain(head, props, req);
    Obj(if oneOf == [] then schema else schema["oneOf" := Arr(BranchSchemas(oneOf))])
  }

  function Plain(head: Head, props: map<string, Json>, req: seq<string>): (r: map<string, Json>) {
    map[
      "$schema" := Str(head.dialect),
      "$id" := Str(head.id),
      "title" := Str(head.title),
      "description" := Str(head.desc),
      "type" := Str("object"),
      "properties" := Obj(Version + props),
      "required" := Strings(["schemaVersion"] + req),
      "additionalProperties" := Bool(true)]
  }

  const Version: map<string, Json> := map["schemaVersion" := Obj(map["const" := Int(1)])]

  function BranchSchemas(oneOf: seq<Branch>): (r: seq<Json>)
    ensures |r| == |oneOf|
  {
    seq(|oneOf|, i requires 0 <= i < |oneOf| => ObjectOf(oneOf[i].props, oneOf[i].req))
  }

  // ----- What they mean -----

  /** `{'type': name}` is satisfied by the values of that type. */
  lemma {:induction false} TypeMeans(env: Env, rank: Rank, v: Json, name: string, base: string)
    requires Ranked(env, rank)
    ensures Satisfies(env, rank, v, OfType(name), base) <==> HasType(env.reading, v, name)
  {
    OnlyType(env, rank, v, Str(name), base);
    assert Types(OfType(name))[0] == Str(name);
  }

  /** A value satisfies `nl(t)` exactly when it is null or satisfies `t`. */
  lemma {:induction false} NullableMeans(env: Env, rank: Rank, v: Json, t: map<string, Json>, base: string)
    requires Ranked(env, rank)
    ensures Satisfies(env, rank, v, Nullable(t), base) <==> v.Null? || Satisfies(env, rank, v, Obj(t), base)
  {
    if t.Keys == {"type"} && t["type"].Str? {
      NullableNameMeans(env, rank, v, t["type"].s, base);
      assert Obj(t) == OfType(t["type"].s);
    } else {
      NullableChoiceMeans(env, rank, v, t, base);
    }
  }

  lemma {:induction false} NullableNameMeans(env: Env, rank: Rank, v: Json, name: string, base: string)
    requires Ranked(env, rank)
    ensures Satisfies(env, rank, v, Nullable(map["type" := Str(name)]), base)
      <==> v.Null? || Satisfies(env, rank, v, OfType(name), base)
  {
    OnlyType(env, rank, v, Arr([Str(name), Str("null")]), base);
    TypeMeans(env, rank, v, name, base);
    var s := Obj(map["type" := Arr([Str(name), Str("null")])]);
    assert Types(s)[0] == Str(name) && Types(s)[1] == Str("null") && |Types(s)| == 2;
  }

  lemma {:induction false} OnlyType(env: Env, rank: Rank, v: Json, types: Json, base: string)
    requires Ranked(env, rank)
    ensures var s := Obj(map["type" := types]); Satisfies(env, rank, v, s, base) <==> TypeHolds(env.reading, v, s)
  {
  }

  lemma {:induction false} NullableChoiceMeans(env: Env, rank: Rank, v: Json, t: map<string, Json>, base: string)
    requires Ranked(env, rank) && !(t.Keys == {"type"} && t["type"].Str?)
    ensures Satisfies(env, rank, v, Nullable(t), base) <==> v.Null? || Satisfies(env, rank, v, Obj(t), base)
  {
    TypeMeans(env, rank, v, "null", base);
    EitherMeans(env, rank, v, Obj(t), OfType("null"), base);
    OnlyAnyOf(env, rank, v, [Obj(t), OfType("null")], base);
  }

  lemma {:induction false} OnlyAnyOf(env: Env, rank: Rank, v: Json, bs: seq<Json>, base: string)
    requires Ranked(env, rank)
    ensures var s := Obj(map["anyOf" := Arr(bs)]); Satisfies(env, rank, v, s, base) <==> AnyOfHolds(env, rank, v, s, base)
  {
  }

  lemma {:induction false} EitherMeans(env: Env, rank: Rank, v: Json, a: Json, b: Json, base: string)
    requires Ranked(env, rank)
    ensures AnyOfHolds(env, rank, v, Obj(map["anyOf" := Arr([a, b])]), base)
      <==> Satisfies(env, rank, v, a, base) || Satisfies(env, rank, v, b, base)
  {
    var s := Obj(map["anyOf" := Arr([a, b])]);
    var bs := ListAt(s, "anyOf");
    assert bs[0] == a && bs[1] == b && |bs| == 2;
  }

  /** A value satisfies `A(items)` exactly when it is an array whose every item satisfies `items`. */
  lemma {:induction false} ArrayMeans(env: Env, rank: Rank, v: Json, items: Option<Json>, base: string)
    requires Ranked(env, rank)
    ensures Satisfies(env, rank, v, ArrayOf(items), base) <==>
      v.Arr? && (items.Some? ==> forall i | 0 <= i < |v.items| :: Satisfies(env, rank, v.items[i], items.value, base))
  {
    var s := ArrayOf(items);
    assert Types(s) == [Str("array")];
    assert Types(s)[0].Str?;
    assert items.Some? ==> Get(s, "items") == items;
  }

  /** A value satisfies `O(props, req)` exactly when it is an object that has every required field
      and whose named fields satisfy their schemas; other fields are free. */
  lemma {:induction false} ObjectMeans(env: Env, rank: Rank, v: Json, props: map<string, Json>, req: seq<string>, base: string)
    requires Ranked(env, rank)
    ensures Satisfies(env, rank, v, ObjectOf(props, req), base) <==> Fields(env, rank, v, props, req, base)
  {
    var s := ObjectOf(props, req);
    assert Types(s) == [Str("object")];
    assert Types(s)[0].Str?;
    assert Props(s) == props && Extra(s) == Bool(true);
    assert Satisfies(env, rank, v, s, base) <==> v.Obj? && MembersHold(env, rank, v, s, base);
    if v.Obj? {
      FieldsMean(env, rank, v, s, props, req, base);
    }
  }

  /** What `properties` and `required` ask when other fields are free. */
  ghost predicate Fields(env: Env, rank: Rank, v: Json, props: map<string, Json>, req: seq<string>, base: string)
    requires Ranked(env, rank)
  {
    && v.Obj?
    && (forall i | 0 <= i < |req| :: req[i] in v.members)
    && (forall k | k in v.members && k in props :: Satisfies(env, rank, v.members[k], props[k], base))
  }

  lemma {:induction false} FieldsMean(env: Env, rank: Rank, v: Json, s: Json, props: map<string, Json>, req: seq<string>, base: string)
    requires Ranked(env, rank) && v.Obj?
    requires Props(s) == props && Required(s) == Strings(req).items && Extra(s) == Bool(true)
    ensures MembersHold(env, rank, v, s, base) <==> Fields(env, rank, v, props, req, base)
  {
    RequiredMeans(v, s, req);
    assert forall k | k in v.members :: SchemaFor(s, k) == if k in props then Under(props[k]) else Free;
  }

  lemma RequiredMeans(v: Json, s: Json, req: seq<string>)
    requires v.Obj? && Required(s) == Strings(req).items
    ensures (forall i | 0 <= i < |Required(s)| :: HasMember(v, Required(s)[i])) <==> (forall i | 0 <= i < |req| :: req[i] in v.members)
  {
    assert forall i | 0 <= i < |req| :: Required(s)[i] == Str(req[i]);
    if forall i | 0 <= i < |Required(s)| :: HasMember(v, Required(s)[i]) {
      forall i | 0 <= i < |req| ensures req[i] in v.members {
        assert HasMember(v, Required(s)[i]);
      }
    }
  }

  /** A value satisfies `E(*words)` exactly when it is one of the words. */
  lemma {:induction false} WordsMean(env: Env, rank: Rank, v: Json, words: seq<string>, base: string)
    requires Ranked(env, rank)
    ensures Satisfies(env, rank, v, OneOfWords(words), base) <==> v.Str? && v.s in words
  {
    var s := OneOfWords(words);
    assert Types(s) == [Str("string")];
    assert Types(s)[0].Str?;
    assert ListAt(s, "enum") == Strings(words).items;
    if v.Str? && v.s in words {
      var i :| 0 <= i < |words| && words[i] == v.s;
      assert Matches(env.reading, v, ListAt(s, "enum")[i]);
    }
  }

  /** `D(desc, t)` means what `t` means. */
  lemma {:induction false} DescribedMeans(env: Env, rank: Rank, v: Json, desc: string, t: map<string, Json>, base: string)
    requires Ranked(env, rank)
    ensures Satisfies(env, rank, v, Described(desc, t), base) <==> Satisfies(env, rank, v, Obj(t), base)
  {
    SameKeywords(env, rank, v, Obj(t), Described(desc, t), base);
  }

  /** Two schemas that agree on every keyword the validator reads. */
  predicate Alike(s: Json, d: Json) {
    s.Obj? && d.Obj? && forall key | key in Checked :: Get(s, key) == Get(d, key)
  }

  lemma {:induction false} SameKeywords(env: Env, rank: Rank, v: Json, s: Json, d: Json, base: string)
    requires Ranked(env, rank) && Alike(s, d)
    ensures Satisfies(env, rank, v, s, base) <==> Satisfies(env, rank, v, d, base)
  {
    assert Get(s, "$ref") == Get(d, "$ref");
    assert RefHolds(env, rank, v, s, base) <==> RefHolds(env, rank, v, d, base);
    SamePlain(env, v, s, d);
    SameMembers(env, rank, v, s, d, base);
    SameChoices(env, rank, v, s, d, base);
  }

  lemma SamePlain(env: Env, v: Json, s: Json, d: Json)
    requires Alike(s, d)
    ensures TypeHolds(env.reading, v, s) <==> TypeHolds(env.reading, v, d)
    ensures ConstHolds(env.reading, v, s) <==> ConstHolds(env.reading, v, d)
    ensures EnumHolds(env.reading, v, s) <==> EnumHolds(env.reading, v, d)
    ensures PatternHolds(env, v, s) <==> PatternHolds(env, v, d)
  {
    assert Get(s, "type") == Get(d, "type") && Get(s, "const") == Get(d, "const");
    assert Get(s, "enum") == Get(d, "enum") && Get(s, "pattern") == Get(d, "pattern");
    assert Types(s) == Types(d) && ListAt(s, "enum") == ListAt(d, "enum");
  }

  lemma {:induction false} SameMembers(env: Env, rank: Rank, v: Json, s: Json, d: Json, base: string)
    requires Ranked(env, rank) && Alike(s, d)
    ensures MembersHold(env, rank, v, s, base) <==> MembersHold(env, rank, v, d, base)
    ensures ItemsHold(env, rank, v, s, base) <==> ItemsHold(env, rank, v, d, base)
  {
    assert Get(s, "properties") == Get(d, "properties") && Get(s, "required") == Get(d, "required");
    assert Get(s, "additionalProperties") == Get(d, "additionalProperties") && Get(s, "items") == Get(d, "items");
    assert Props(s) == Props(d) && Required(s) == Required(d) && Extra(s) == Extra(d);
    assert forall k | v.Obj? && k in v.members :: SchemaFor(s, k) == SchemaFor(d, k);
  }

  lemma {:induction false} SameChoices(env: Env, rank: Rank, v: Json, s: Json, d: Json, base: string)
    requires Ranked(env, rank) && Alike(s, d)
    ensures AnyOfHolds(env, rank, v, s, base) <==> AnyOfHolds(env, rank, v, d, base)
    ensures OneOfHolds(env, rank, v, s, base) <==> OneOfHolds(env, rank, v, d, base)
  {
    assert Get(s, "anyOf") == Get(d, "anyOf") && Get(s, "oneOf") == Get(d, "oneOf");
    assert ListAt(s, "anyOf") == ListAt(d, "anyOf") && ListAt(s, "oneOf") == ListAt(d, "oneOf");
  }

  // ----- New fields stay welcome -----

  /** What a command's schema asks of its output. */
  lemma {:induction false} SchemaOfMeans(env: Env, rank: Rank, v: Json, head: Head, props: map<string, Json>, req: seq<string>,
                      oneOf: seq<Branch>, base: string)
    requires Ranked(env, rank)
    ensures Satisfies(env, rank, v, SchemaOf(head, props, req, oneOf), base) <==>
      && Fields(env, rank, v, Version + props, ["schemaVersion"] + req, base)
      && (oneOf == [] || exists i | 0 <= i < |oneOf| :: OnlyBranch(env, rank, v, oneOf, i, base))
  {
    var s := SchemaOf(head, props, req, oneOf);
    SchemaOfKeywords(head, props, req, oneOf);
    ObjectSchemaMeans(env, rank, v, s, base);
    if v.Obj? {
      FieldsMean(env, rank, v, s, Version + props, ["schemaVersion"] + req, base);
    }
    BranchesMean(env, rank, v, s, oneOf, base);
  }

  /** An object schema: fields and one choice, no other keyword the validator reads. */
  predicate ObjectSchema(s: Json) {
    && Types(s) == [Str("object")]
    && Get(s, "$ref").None? && Get(s, "const").None? && Get(s, "enum").None? && Get(s, "pattern").None?
    && Get(s, "items").None? && Get(s, "anyOf").None?
  }

  lemma SchemaOfKeywords(head: Head, props: map<string, Json>, req: seq<string>, oneOf: seq<Branch>)
    ensures var s := SchemaOf(head, props, req, oneOf);
      && ObjectSchema(s)
      && Props(s) == Version + props && Required(s) == Strings(["schemaVersion"] + req).items && Extra(s) == Bool(true)
      && Get(s, "oneOf") == if oneOf == [] then None else Some(Arr(BranchSchemas(oneOf)))
  {
    PlainKeywords(head, props, req);
  }

  lemma PlainKeywords(head: Head, props: map<string, Json>, req: seq<string>)
    ensures var s := Obj(Plain(head, props, req));
      && ObjectSchema(s) && Get(s, "oneOf").None?
      && Props(s) == Version + props && Required(s) == Strings(["schemaVersion"] + req).items && Extra(s) == Bool(true)
  {
  }

  lemma {:induction false} ObjectSchemaMeans(env: Env, rank: Rank, v: Json, s: Json, base: string)
    requires Ranked(env, rank) && ObjectSchema(s)
    ensures Satisfies(env, rank, v, s, base) <==> v.Obj? && MembersHold(env, rank, v, s, base) && OneOfHolds(env, rank, v, s, base)
  {
    assert Types(s)[0] == Str("object");
  }

  ghost predicate OnlyBranch(env: Env, rank: Rank, v: Json, oneOf: seq<Branch>, i: nat, base: string)
    requires Ranked(env, rank) && i < |oneOf|
  {
    && Fields(env, rank, v, oneOf[i].props, oneOf[i].req, base)
    && forall j | 0 <= j < |oneOf| && j != i :: !Fields(env, rank, v, oneOf[j].props, oneOf[j].req, base)
  }

  lemma {:induction false} BranchesMean(env: Env, rank: Rank, v: Json, s: Json, oneOf: seq<Branch>, base: string)
    requires Ranked(env, rank)
    requires Get(s, "oneOf") == if oneOf == [] then None else Some(Arr(BranchSchemas(oneOf)))
    ensures OneOfHolds(env, rank, v, s, base) <==>
      (oneOf == [] || exists i | 0 <= i < |oneOf| :: OnlyBranch(env, rank, v, oneOf, i, base))
  {
    if oneOf != [] {
      OneOfMeans(env, rank, v, s, base);
      var bs := BranchSchemas(oneOf);
      assert ListAt(s, "oneOf") == bs;
      if i: nat :| OnlyMatch(env, rank, v, bs, i, base) {
        ChosenBranch(env, rank, v, oneOf, i, base);
        assert OnlyBranch(env, rank, v, oneOf, i, base);
      }
      if i: nat :| i < |oneOf| && OnlyBranch(env, rank, v, oneOf, i, base) {
        ChosenBranch(env, rank, v, oneOf, i, base);
        assert OnlyMatch(env, rank, v, bs, i, base);
      }
    }
  }

  lemma ChosenBranch(env: Env, rank: Rank, v: Json, oneOf: seq<Branch>, i: nat, base: string)
    requires Ranked(env, rank) && i < |oneOf|
    ensures OnlyBranch(env, rank, v, oneOf, i, base) <==> OnlyMatch(env, rank, v, BranchSchemas(oneOf), i, base)
  {
    var bs := BranchSchemas(oneOf);
    forall j | 0 <= j < |bs|
      ensures Satisfies(env, rank, v, bs[j], base) <==> Fields(env, rank, v, oneOf[j].props, oneOf[j].req, base)
    {
      ObjectMeans(env, rank, v, oneOf[j].props, oneOf[j].req, base);
    }
  }

  /** The field `k` is named by no `properties` and no `required` of the schema or its branches. */
  predicate Unnamed(k: string, props: map<string, Json>, req: seq<string>, oneOf: seq<Branch>) {
    && k != "schemaVersion" && k !in props && k !in req
    && forall i | 0 <= i < |oneOf| :: k !in oneOf[i].props && k !in oneOf[i].req
  }

  lemma FieldsIgnore(env: Env, rank: Rank, m: map<string, Json>, k: string, x: Json, props: map<string, Json>, req: seq<string>,
                     base: string)
    requires Ranked(env, rank) && k !in props && k !in req
    ensures Fields(env, rank, Obj(m[k := x]), props, req, base) <==> Fields(env, rank, Obj(m), props, req, base)
  {
  }

  /** Adding a field the schema does not name, with any value, changes no verdict: neither from
      valid to invalid nor back. */
  lemma {:induction false} NewFieldsAreIgnored(env: Env, rank: Rank, m: map<string, Json>, k: string, x: Json, head: Head,
                            props: map<string, Json>, req: seq<string>, oneOf: seq<Branch>, base: string)
    requires Ranked(env, rank) && Unnamed(k, props, req, oneOf)
    ensures var s := SchemaOf(head, props, req, oneOf);
      Satisfies(env, rank, Obj(m[k := x]), s, base) <==> Satisfies(env, rank, Obj(m), s, base)
  {
    var old_, new_ := Obj(m), Obj(m[k := x]);
    SchemaOfMeans(env, rank, old_, head, props, req, oneOf, base);
    SchemaOfMeans(env, rank, new_, head, props, req, oneOf, base);
    FieldsIgnore(env, rank, m, k, x, Version + props, ["schemaVersion"] + req, base);
    forall i | 0 <= i < |oneOf|
      ensures OnlyBranch(env, rank, new_, oneOf, i, base) <==> OnlyBranch(env, rank, old_, oneOf, i, base)
    {
      forall j | 0 <= j < |oneOf|
        ensures Fields(env, rank, new_, oneOf[j].props, oneOf[j].req, base) <==> Fields(env, rank, old_, oneOf[j].props, oneOf[j].req, base)
      {
        FieldsIgnore(env, rank, m, k, x, oneOf[j].props, oneOf[j].req, base);
      }
    }
  }
}
