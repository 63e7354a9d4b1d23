/** Where the validator leaves the draft: the values and literals it reads differently, and a
    condition under which its verdict is the draft's. */
module SchemaDraft {
  import opened JsonValues
  import opened JsonPointers
  import opened JsonSchema

  /** The code and the draft differ on a type exactly for `integer` and a float that is whole. */
  lemma TypesDifferIff(v: Json, name: string)
    ensures HasType(Code, v, name) != HasType(Draft, v, name) <==> name == "integer" && v.Float? && Whole(v.x)
  {
  }

  /** A schema that asks for an integer refuses 1.0, which the draft accepts. */
  lemma {:induction false} WholeFloatIsRefused(env: Env, rank: Rank, base: string)
    requires Ranked(env, rank)
    ensures var s, v := Obj(map["type" := Str("integer")]), Float(1.0);
      Satisfies(env, rank, v, s, base) <==> env.reading == Draft
  {
    var s := Obj(map["type" := Str("integer")]);
    assert Types(s) == [Str("integer")];
    assert Types(s)[0].Str?;
    assert Whole(1.0);
  }

  /** No float of the value is whole. */
  predicate NoWholeFloat(v: Json) {
    match v
    case Float(x) => !Whole(x)
    case Arr(xs) => forall i | 0 <= i < |xs| :: NoWholeFloat(xs[i])
    case Obj(m) => forall k | k in m :: NoWholeFloat(m[k])
    case _ => true
  }

  /** The literals of a schema on which `same` is JSON equality. */
  predicate ExactLiterals(s: Json) {
    && (Get(s, "const").Some? ==> Exact(Get(s, "const").value))
    && (forall i | 0 <= i < |ListAt(s, "enum")| :: Exact(ListAt(s, "enum")[i]))
  }

  /** Every schema the value meets on the way has such literals only. */
  ghost predicate ExactAlong(env: Env, rank: Rank, v: Json, s: Json, base: string)
    requires Ranked(env, rank)
    decreases v, Weight(rank, s, base), s, 1
  {
    && ExactLiterals(s)
    && ExactRef(env, rank, v, s, base)
    && (v.Obj? ==> forall k | k in v.members ::
          SchemaFor(s, k).Under? ==> ExactAlong(env, rank, v.members[k], SchemaFor(s, k).schema, base))
    && (v.Arr? && Get(s, "items").Some? ==> forall i | 0 <= i < |v.items| ::
          ExactAlong(env, rank, v.items[i], Get(s, "items").value, base))
    && ExactBranches(env, rank, v, s, base)
  }

  ghost predicate ExactRef(env: Env, rank: Rank, v: Json, s: Json, base: string)
    requires Ranked(env, rank)
    decreases v, Weight(rank, s, base), s, 0
  {
    HasRef(s) ==>
      var t := Resolve(env.files, RefOf(s), base);
      t.Some? ==> ExactAlong(env, rank, v, t.value.node, t.value.file)
  }

  ghost predicate ExactBranches(env: Env, rank: Rank, v: Json, s: Json, base: string)
    requires Ranked(env, rank)
    decreases v, Weight(rank, s, base), s, 0
  {
    BranchWeights(rank, s, base);
    && (forall i | 0 <= i < |ListAt(s, "anyOf")| :: ExactAlong(env, rank, v, ListAt(s, "anyOf")[i], base))
    && (forall i | 0 <= i < |ListAt(s, "oneOf")| :: ExactAlong(env, rank, v, ListAt(s, "oneOf")[i], base))
  }

  /** The same files, read the other way. */
  ghost predicate TwoReadings(code: Env, draft: Env, rank: Rank) {
    code.reading == Code && draft == code.(reading := Draft) && Ranked(code, rank) && Ranked(draft, rank)
  }

  lemma {:induction false} PlainAgrees(v: Json, s: Json)
    requires NoWholeFloat(v) && ExactLiterals(s)
    ensures TypeHolds(Code, v, s) <==> TypeHolds(Draft, v, s)
    ensures ConstHolds(Code, v, s) <==> ConstHolds(Draft, v, s)
    ensures EnumHolds(Code, v, s) <==> EnumHolds(Draft, v, s)
  {
    forall name: string ensures HasType(Code, v, name) == HasType(Draft, v, name) {
      TypesDifferIff(v, name);
    }
    if Get(s, "const").Some? {
      ExactAgrees(v, Get(s, "const").value);
    }
    forall i | 0 <= i < |ListAt(s, "enum")| ensures Matches(Code, v, ListAt(s, "enum")[i]) <==> Matches(Draft, v, ListAt(s, "enum")[i]) {
      ExactAgrees(v, ListAt(s, "enum")[i]);
    }
  }

  /** On a value without whole floats, through schemas whose literals are exact, the code's verdict is
      the draft's. */
  lemma {:induction false} VerdictIsTheDrafts(code: Env, draft: Env, rank: Rank, v: Json, s: Json, base: string)
    requires TwoReadings(code, draft, rank) && NoWholeFloat(v) && ExactAlong(code, rank, v, s, base)
    ensures Satisfies(code, rank, v, s, base) <==> Satisfies(draft, rank, v, s, base)
    decreases v, Weight(rank, s, base), s, 1
  {
    PlainAgrees(v, s);
    RefAgrees(code, draft, rank, v, s, base);
    BelowAgrees(code, draft, rank, v, s, base);
    BranchesAgree(code, draft, rank, v, s, base);
  }

  lemma {:induction false} RefAgrees(code: Env, draft: Env, rank: Rank, v: Json, s: Json, base: string)
    requires TwoReadings(code, draft, rank) && NoWholeFloat(v) && ExactRef(code, rank, v, s, base)
    ensures RefHolds(code, rank, v, s, base) <==> RefHolds(draft, rank, v, s, base)
    decreases v, Weight(rank, s, base), s, 0
  {
    if HasRef(s) {
      var t := Resolve(code.files, RefOf(s), base);
      if t.Some? {
        VerdictIsTheDrafts(code, draft, rank, v, t.value.node, t.value.file);
      }
    }
  }

  lemma {:induction false} BelowAgrees(code: Env, draft: Env, rank: Rank, v: Json, s: Json, base: string)
    requires TwoReadings(code, draft, rank) && NoWholeFloat(v) && ExactAlong(code, rank, v, s, base)
    ensures MembersHold(code, rank, v, s, base) <==> MembersHold(draft, rank, v, s, base)
    ensures ItemsHold(code, rank, v, s, base) <==> ItemsHold(draft, rank, v, s, base)
    decreases v, Weight(rank, s, base), s, 0
  {
    if v.Obj? {
      forall k | k in v.members && SchemaFor(s, k).Under?
        ensures Satisfies(code, rank, v.members[k], SchemaFor(s, k).schema, base) <==> Satisfies(draft, rank, v.members[k], SchemaFor(s, k).schema, base)
      {
        VerdictIsTheDrafts(code, draft, rank, v.members[k], SchemaFor(s, k).schema, base);
      }
    }
    var items := Get(s, "items");
    if v.Arr? && items.Some? {
      forall i | 0 <= i < |v.items|
        ensures Satisfies(code, rank, v.items[i], items.value, base) <==> Satisfies(draft, rank, v.items[i], items.value, base)
      {
        VerdictIsTheDrafts(code, draft, rank, v.items[i], items.value, base);
      }
    }
  }

  lemma {:induction false} BranchesAgree(code: Env, draft: Env, rank: Rank, v: Json, s: Json, base: string)
    requires TwoReadings(code, draft, rank) && NoWholeFloat(v) && ExactBranches(code, rank, v, s, base)
    ensures AnyOfHolds(code, rank, v, s, base) <==> AnyOfHolds(draft, rank, v, s, base)
    ensures OneOfHolds(code, rank, v, s, base) <==> OneOfHolds(draft, rank, v, s, base)
    decreases v, Weight(rank, s, base), s, 0
  {
    BranchWeights(rank, s, base);
    var any, one := ListAt(s, "anyOf"), ListAt(s, "oneOf");
    forall i | 0 <= i < |any| ensures Satisfies(code, rank, v, any[i], base) <==> Satisfies(draft, rank, v, any[i], base) {
      VerdictIsTheDrafts(code, draft, rank, v, any[i], base);
    }
    forall i | 0 <= i < |one| ensures Satisfies(code, rank, v, one[i], base) <==> Satisfies(draft, rank, v, one[i], base) {
      VerdictIsTheDrafts(code, draft, rank, v, one[i], base);
    }
  }
}
