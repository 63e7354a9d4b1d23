/** `Schemas.validate`: the accumulating, recursive checker, proved to decide `Satisfies`. */
module JsonCheck {
  import opened JsonValues
  import opened JsonPointers
  import opened JsonSchema

  /** Python raised, or the list of problems found (each by the keyword that failed). */
  datatype Outcome = Raised | Done(errors: seq<string>) {
    predicate IsFailure() { Raised? }
    function PropagateFailure(): (r: Outcome) requires IsFailure() { Raised }
    function Extract(): (r: seq<string>) requires !IsFailure() { errors }
  }

  // ----- The subset of JSON Schema the validator reads -----

  predicate Shaped(s: Json) {
    && s.Obj?
    && s.members.Keys <= Checked + Ignored
    && ("$ref" in s.members ==> s.members["$ref"].Str?)
    && (forall i | 0 <= i < |Types(s)| :: Types(s)[i].Str? && Types(s)[i].s in TypeNames)
    && ("enum" in s.members ==> s.members["enum"].Arr?)
    && ("pattern" in s.members ==> s.members["pattern"].Str?)
    && ("properties" in s.members ==> s.members["properties"].Obj?)
    && ("required" in s.members ==> s.members["required"].Arr?)
    && ("anyOf" in s.members ==> s.members["anyOf"].Arr?)
    && ("oneOf" in s.members ==> s.members["oneOf"].Arr?)
  }

  /** Every schema the value meets on the way is well formed and uses implemented keywords only. */
  ghost predicate Supported(env: Env, rank: Rank, v: Json, s: Json, base: string)
    requires Ranked(env, rank)
    decreases v, Weight(rank, s, base), s, 1
  {
    && Shaped(s)
    && RefSupported(env, rank, v, s, base)
    && (v.Obj? ==> forall k | k in v.members ::
          SchemaFor(s, k).Under? ==> Supported(env, rank, v.members[k], SchemaFor(s, k).schema, base))
    && (v.Arr? && Get(s, "items").Some? ==> forall i | 0 <= i < |v.items| ::
          Supported(env, rank, v.items[i], Get(s, "items").value, base))
    && BranchesSupported(env, rank, v, s, base)
  }

  ghost predicate RefSupported(env: Env, rank: Rank, v: Json, s: Json, base: string)
    requires Ranked(env, rank)
    decreases v, Weight(rank, s, base), s, 0
  {
    HasRef(s) ==>
      var t := Resolve(env.files, RefOf(s), base);
      t.Some? && Supported(env, rank, v, t.value.node, t.value.file)
  }

  ghost predicate BranchesSupported(env: Env, rank: Rank, v: Json, s: Json, base: string)
    requires Ranked(env, rank)
    decreases v, Weight(rank, s, base), s, 0
  {
    BranchWeights(rank, s, base);
    && (forall i | 0 <= i < |ListAt(s, "anyOf")| :: Supported(env, rank, v, ListAt(s, "anyOf")[i], base))
    && (forall i | 0 <= i < |ListAt(s, "oneOf")| :: Supported(env, rank, v, ListAt(s, "oneOf")[i], base))
  }

  // ----- The validator -----

  /** `any(TYPES[t](value) for t in types)`: an unknown name raises only when it is reached. */
  method AnyType(v: Json, s: Json) returns (r: Option<bool>)
    requires Get(s, "type").Some?
    ensures r.Some? ==> (r.value <==> TypeHolds(Code, v, s))
    ensures Shaped(s) ==> r.Some?
  {
    var types := Types(s);
    for i := 0 to |types|
      invariant forall j | 0 <= j < i :: types[j].Str? && !HasType(Code, v, types[j].s)
    {
      if !types[i].Str? || types[i].s !in TypeNames {
        return None;
      }
      if HasType(Code, v, types[i].s) {
        return Some(true);
      }
    }
    return Some(false);
  }

  /** `any(same(value, e) for e in schema['enum'])` */
  method AnySame(v: Json, es: seq<Json>) returns (found: bool)
    ensures found <==> exists i | 0 <= i < |es| :: Same(v, es[i])
  {
    found := false;
    for i := 0 to |es|
      invariant found <==> exists j | 0 <= j < i :: Same(v, es[j])
    {
      found := found || Same(v, es[i]);
    }
  }

  /** Every way `v` does not match `s`, a schema of file `base`. */
  method Validate(env: Env, ghost rank: Rank, v: Json, s: Json, base: string) returns (r: Outcome)
    requires Ranked(env, rank) && env.reading == Code
    ensures r.Done? ==> (r.errors == [] <==> Satisfies(env, rank, v, s, base))
    ensures r.Done? ==> s.Obj? && s.members.Keys <= Checked + Ignored
    ensures Supported(env, rank, v, s, base) ==> r.Done?
    decreases v, Weight(rank, s, base), s, 2
  {
    if !s.Obj? || !(s.members.Keys <= Checked + Ignored) {
      return Raised;
    }
    var errors := [];
    if "$ref" in s.members {
      var found :- ValidateRef(env, rank, v, s, base);
      errors := found;
    }
    if "type" in s.members {
      var ok := AnyType(v, s);
      if ok.None? {
        return Raised;
      }
      if !ok.value {
        return Done(errors + ["type"]);
      }
    }
    var plain :- ValidatePlain(env, v, s);
    errors := errors + plain;
    if v.Obj? {
      var found :- ValidateMembers(env, rank, v, s, base);
      errors := errors + found;
    }
    if v.Arr? && "items" in s.members {
      var found :- ValidateItems(env, rank, v, s, base);
      errors := errors + found;
    }
    var choices :- ValidateChoices(env, rank, v, s, base);
    return Done(errors + choices);
  }

  method ValidateRef(env: Env, ghost rank: Rank, v: Json, s: Json, base: string) returns (r: Outcome)
    requires Ranked(env, rank) && env.reading == Code && s.Obj? && "$ref" in s.members
    ensures r.Done? ==> (r.errors == [] <==> RefHolds(env, rank, v, s, base))
    ensures Shaped(s) && RefSupported(env, rank, v, s, base) ==> r.Done?
    decreases v, Weight(rank, s, base), s, 0
  {
    if !s.members["$ref"].Str? {
      return Raised;
    }
    var t := Resolve(env.files, s.members["$ref"].s, base);
    if t.None? {
      return Raised;
    }
    r := Validate(env, rank, v, t.value.node, t.value.file);
  }

  /** `const`, `enum` and `pattern`. */
  method ValidatePlain(env: Env, v: Json, s: Json) returns (r: Outcome)
    requires s.Obj?
    ensures r.Done? ==> (r.errors == [] <==> ConstHolds(Code, v, s) && EnumHolds(Code, v, s) && PatternHolds(env, v, s))
    ensures Shaped(s) ==> r.Done?
  {
    var errors := [];
    if "const" in s.members && !Same(v, s.members["const"]) {
      errors := errors + ["const"];
    }
    if "enum" in s.members {
      if !s.members["enum"].Arr? {
        return Raised;
      }
      var any := AnySame(v, ListAt(s, "enum"));
      if !any {
        errors := errors + ["enum"];
      }
    }
    if "pattern" in s.members && v.Str? {
      if !s.members["pattern"].Str? {
        return Raised;
      }
      if !env.search(s.members["pattern"].s, v.s) {
        errors := errors + ["pattern"];
      }
    }
    return Done(errors);
  }

  method MissingMembers(v: Json, s: Json) returns (errors: seq<string>)
    requires v.Obj?
    ensures errors == [] <==> forall i | 0 <= i < |Required(s)| :: HasMember(v, Required(s)[i])
  {
    errors := [];
    var required := Required(s);
    for i := 0 to |required|
      invariant errors == [] <==> forall j | 0 <= j < i :: HasMember(v, required[j])
    {
      if !HasMember(v, required[i]) {
        errors := errors + ["required"];
      }
    }
  }

  ghost predicate MemberOk(env: Env, rank: Rank, v: Json, s: Json, base: string, k: string)
    requires Ranked(env, rank) && env.reading == Code && v.Obj? && k in v.members
  {
    SchemaFor(s, k) != Forbidden &&
    (SchemaFor(s, k).Under? ==> Satisfies(env, rank, v.members[k], SchemaFor(s, k).schema, base))
  }

  method ValidateMembers(env: Env, ghost rank: Rank, v: Json, s: Json, base: string) returns (r: Outcome)
    requires Ranked(env, rank) && env.reading == Code && v.Obj? && s.Obj?
    ensures r.Done? ==> (r.errors == [] <==> MembersHold(env, rank, v, s, base))
    ensures Supported(env, rank, v, s, base) ==> r.Done?
    decreases v, Weight(rank, s, base), s, 1
  {
    if ("properties" in s.members && !s.members["properties"].Obj?) || ("required" in s.members && !s.members["required"].Arr?) {
      return Raised;
    }
    var missing := MissingMembers(v, s);
    var errors, todo := missing, v.members.Keys;
    while todo != {}
      invariant todo <= v.members.Keys
      invariant errors == [] <==> missing == [] && forall k | k in v.members && k !in todo :: MemberOk(env, rank, v, s, base, k)
      decreases todo
    {
      var k :| k in todo;
      todo := todo - {k};
      match SchemaFor(s, k)
      case Under(schema) =>
        var found :- Validate(env, rank, v.members[k], schema, base);
        errors := errors + found;
      case Forbidden => errors := errors + ["additionalProperties"];
      case Free =>
    }
    return Done(errors);
  }

  method ValidateItems(env: Env, ghost rank: Rank, v: Json, s: Json, base: string) returns (r: Outcome)
    requires Ranked(env, rank) && env.reading == Code && v.Arr? && s.Obj? && "items" in s.members
    ensures r.Done? ==> (r.errors == [] <==> ItemsHold(env, rank, v, s, base))
    ensures Supported(env, rank, v, s, base) ==> r.Done?
    decreases v, Weight(rank, s, base), s, 1
  {
    var errors, items := [], s.members["items"];
    for i := 0 to |v.items|
      invariant errors == [] <==> forall j | 0 <= j < i :: Satisfies(env, rank, v.items[j], items, base)
    {
      var found :- Validate(env, rank, v.items[i], items, base);
      errors := errors + found;
    }
    return Done(errors);
  }

  method ValidateChoices(env: Env, ghost rank: Rank, v: Json, s: Json, base: string) returns (r: Outcome)
    requires Ranked(env, rank) && env.reading == Code && s.Obj?
    ensures r.Done? ==> (r.errors == [] <==> AnyOfHolds(env, rank, v, s, base) && OneOfHolds(env, rank, v, s, base))
    ensures Shaped(s) && BranchesSupported(env, rank, v, s, base) ==> r.Done?
    decreases v, Weight(rank, s, base), s, 1
  {
    var errors := [];
    if "anyOf" in s.members {
      var matched := Try(env, rank, v, s, "anyOf", base);
      if matched.None? {
        return Raised;
      }
      AnyOfCounts(env, rank, v, s, base);
      if matched.value == 0 {
        errors := errors + ["anyOf"];
      }
    }
    if "oneOf" in s.members {
      var matched := Try(env, rank, v, s, "oneOf", base);
      if matched.None? {
        return Raised;
      }
      OneOfCounts(env, rank, v, s, base);
      if matched.value != 1 {
        errors := errors + ["oneOf"];
      }
    }
    return Done(errors);
  }

  /** How many branches of `key` the value matches. */
  method Try(env: Env, ghost rank: Rank, v: Json, s: Json, key: string, base: string) returns (r: Option<nat>)
    requires Ranked(env, rank) && env.reading == Code && s.Obj? && key in s.members && (key == "anyOf" || key == "oneOf")
    ensures r.Some? ==> r.value == Matched(Verdicts(env, rank, v, ListAt(s, key), base))
    ensures Shaped(s) && BranchesSupported(env, rank, v, s, base) ==> r.Some?
    decreases v, Weight(rank, s, base), s, 0
  {
    if !s.members[key].Arr? {
      return None;
    }
    BranchWeights(rank, s, base);
    var branches, matched := ListAt(s, key), 0;
    ghost var verdicts := Verdicts(env, rank, v, branches, base);
    for i := 0 to |branches|
      invariant matched == Matched(verdicts[..i])
    {
      var found := Validate(env, rank, v, branches[i], base);
      if found.Raised? {
        return None;
      }
      MatchedStep(verdicts, i);
      matched := matched + (if found.errors == [] then 1 else 0);
    }
    assert verdicts[..|branches|] == verdicts;
    return Some(matched);
  }

  lemma MatchedStep(tried: seq<bool>, i: nat)
    requires i < |tried|
    ensures Matched(tried[..i + 1]) == Matched(tried[..i]) + (if tried[i] then 1 else 0)
  {
    assert tried[..i + 1][..i] == tried[..i];
  }

  ghost function Verdicts(env: Env, rank: Rank, v: Json, branches: seq<Json>, base: string): (r: seq<bool>)
    requires Ranked(env, rank)
    ensures |r| == |branches|
  {
    seq(|branches|, i requires 0 <= i < |branches| => Satisfies(env, rank, v, branches[i], base))
  }

  lemma {:induction false} AnyOfCounts(env: Env, rank: Rank, v: Json, s: Json, base: string)
    requires Ranked(env, rank) && Get(s, "anyOf").Some?
    ensures AnyOfHolds(env, rank, v, s, base) <==> Matched(Verdicts(env, rank, v, ListAt(s, "anyOf"), base)) != 0
  {
    var bs := ListAt(s, "anyOf");
    var verdicts := Verdicts(env, rank, v, bs, base);
    NoneMatch(verdicts);
    assert forall i | 0 <= i < |bs| :: verdicts[i] <==> Satisfies(env, rank, v, bs[i], base);
  }

  lemma {:induction false} OneOfCounts(env: Env, rank: Rank, v: Json, s: Json, base: string)
    requires Ranked(env, rank) && Get(s, "oneOf").Some?
    ensures OneOfHolds(env, rank, v, s, base) <==> Matched(Verdicts(env, rank, v, ListAt(s, "oneOf"), base)) == 1
  {
    var bs := ListAt(s, "oneOf");
    var verdicts := Verdicts(env, rank, v, bs, base);
    OneMatch(verdicts);
    OneOfMeans(env, rank, v, s, base);
    if i: nat :| OnlyAt(verdicts, i) {
      OnlyVerdict(env, rank, v, bs, i, base);
    }
    if i: nat :| OnlyMatch(env, rank, v, bs, i, base) {
      OnlyVerdict(env, rank, v, bs, i, base);
    }
  }

  lemma OnlyVerdict(env: Env, rank: Rank, v: Json, bs: seq<Json>, i: nat, base: string)
    requires Ranked(env, rank) && i < |bs|
    ensures OnlyMatch(env, rank, v, bs, i, base) <==> OnlyAt(Verdicts(env, rank, v, bs, base), i)
  {
    var verdicts := Verdicts(env, rank, v, bs, base);
    assert forall j | 0 <= j < |bs| :: verdicts[j] <==> Satisfies(env, rank, v, bs[j], base);
  }

  /** `sum(1 for t in tried if not t)` */
  function Matched(tried: seq<bool>): (n: nat) {
    if tried == [] then 0 else Matched(tried[..|tried| - 1]) + (if tried[|tried| - 1] then 1 else 0)
  }

  lemma {:induction false} NoneMatch(tried: seq<bool>)
    ensures Matched(tried) == 0 <==> forall i | 0 <= i < |tried| :: !tried[i]
  {
    if tried != [] {
      NoneMatch(tried[..|tried| - 1]);
    }
  }

  predicate OnlyAt(tried: seq<bool>, i: nat) {
    i < |tried| && tried[i] && forall j | 0 <= j < |tried| && j != i :: !tried[j]
  }

  lemma {:induction false} OneMatch(tried: seq<bool>)
    ensures Matched(tried) == 1 <==> exists i: nat :: OnlyAt(tried, i)
  {
    if tried != [] {
      var n := |tried| - 1;
      var init := tried[..n];
      assert forall j | 0 <= j < n :: init[j] == tried[j];
      OneMatch(init);
      NoneMatch(init);
      if Matched(tried) == 1 {
        if tried[n] {
          assert OnlyAt(tried, n);
        } else {
          var i: nat :| OnlyAt(init, i);
          assert OnlyAt(tried, i);
        }
      }
      if i: nat :| OnlyAt(tried, i) {
        assert i < n ==> OnlyAt(init, i);
      }
    }
  }
}
