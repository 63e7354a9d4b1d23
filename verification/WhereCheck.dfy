/** `check` of `wherecheck.py`: the loops over contracts, types, declarations and leaves. */
module WhereCheck {
  import opened JsonValues
  import opened PropertyKinds
  import opened Literals
  import opened References

  predicate DistinctNames(cs: seq<Contract>) {
    forall i, j | 0 <= i < j < |cs| :: cs[i].name != cs[j].name
  }

  /** The branches of an agreement pair, in the code's order. */
  method CheckAgreement(c: Contract, t: DocType, d: Declaration, tc: Contract, tt: DocType, referenced: string, referring: string)
    returns (bad: bool)
    ensures bad <==> !AgreementRight(c, t, d, tc, tt, referenced, referring)
  {
    if d.prop == Some(referring) {
      return true;
    }
    var own: Json;
    if IsSystem(referring) {
      if referring != "$ownerId" {
        return true;
      }
      own := Str("identifier");
    } else if referring !in t.props {
      return true;
    } else {
      own := PropertyKind(c.defs, t.props[referring]);
    }
    if IsSystem(referenced) {
      return referenced !in Identities || own != Str("identifier");
    }
    if referenced !in tt.props {
      return true;
    }
    var other := PropertyKind(tc.defs, tt.props[referenced]);
    return own == Str("object") || other == Str("object") || own == Str("typedArray") || other == Str("typedArray") || own != other;
  }

  /** `next(filter(None, (literal_problem(dk, ds, x) for x in arg)), None)` */
  method AllLiterals(kind: Json, s: Schema, xs: seq<Json>) returns (ok: bool)
    ensures ok <==> forall i | 0 <= i < |xs| :: LiteralRight(kind, s, xs[i])
  {
    for i := 0 to |xs|
      invariant forall j | 0 <= j < i :: LiteralRight(kind, s, xs[j])
    {
      var bad := LiteralProblem(kind, s, xs[i]);
      if bad {
        return false;
      }
    }
    return true;
  }

  method CheckNotEqual(c: Contract, t: DocType, d: Declaration, kind: Json, s: Schema, arg: Json) returns (bad: bool)
    ensures bad <==> !NotEqualRight(c, t, d, kind, s, arg)
  {
    if IsConst(arg) {
      bad := LiteralProblem(kind, s, arg.members["const"]);
    } else if arg.Str? && Some(arg.s) == d.prop {
      bad := true;
    } else {
      var ours := Null;
      if arg.Str? && (arg.s == "$ownerId" || !IsSystem(arg.s)) {
        ours := SourceKind(c, t, d, arg.s);
      }
      bad := ours == Null || ours != kind;
    }
  }

  method CheckOrdering(c: Contract, t: DocType, kind: Json, arg: Json) returns (bad: bool)
    ensures bad <==> !OrderingRight(c, t, kind, arg)
  {
    if !IsIntKind(kind) {
      return true;
    }
    if IsConst(arg) {
      return !arg.members["const"].Int?;
    }
    if arg.Str? && IsSystem(arg.s) {
      return SystemKind(arg.s) == Null || SystemKind(arg.s) == Str("identifier") || arg.s !in t.required;
    }
    if arg.Str? && arg.s in t.props {
      return !IsIntKind(PropertyKind(c.defs, t.props[arg.s]));
    }
    return true;
  }

  method CheckOperator(c: Contract, t: DocType, d: Declaration, kind: Json, s: Schema, op: string, arg: Json) returns (bad: bool)
    ensures bad <==> !OperatorRight(c, t, d, kind, s, op, arg)
  {
    if op == "const" {
      bad := LiteralProblem(kind, s, arg);
    } else if op == "in" {
      bad := CheckList(kind, s, arg);
    } else if op == "notEqual" {
      bad := CheckNotEqual(c, t, d, kind, s, arg);
    } else if op in Orderings {
      bad := CheckOrdering(c, t, kind, arg);
    } else {
      bad := true;
    }
  }

  method CheckList(kind: Json, s: Schema, arg: Json) returns (bad: bool)
    ensures bad <==> !ListRight(kind, s, arg)
  {
    if !arg.Arr? {
      return true;
    }
    SetCount(arg.items);
    if !(2 <= |arg.items| <= 30) || |(set x | x in arg.items)| != |arg.items| {
      return true;
    }
    var ok := AllLiterals(kind, s, arg.items);
    return !ok;
  }

  /** As many members as items: no item twice. */
  lemma {:induction false} SetCount(xs: seq<Json>)
    ensures |(set x | x in xs)| <= |xs|
    ensures |(set x | x in xs)| == |xs| <==> AllDistinct(xs)
  {
    if xs != [] {
      var n := |xs| - 1;
      var init, last := xs[..n], xs[n];
      SetCount(init);
      assert xs == init + [last];
      assert (set x | x in xs) == (set x | x in init) + {last};
      if last in init {
        assert (set x | x in init) + {last} == (set x | x in init);
        var i :| 0 <= i < n && init[i] == last;
        assert xs[i] == xs[n];
      } else {
        assert AllDistinct(init) ==> AllDistinct(xs);
        assert AllDistinct(xs) ==> AllDistinct(init);
      }
    }
  }

  method CheckCondition(c: Contract, t: DocType, d: Declaration, tc: Contract, tt: DocType, referenced: string, condition: map<string, Json>)
    returns (bad: bool)
    ensures bad <==> !ConditionRight(c, t, d, tc, tt, referenced, condition)
  {
    if |condition.Keys| != 1 {
      return true;
    }
    var op :| op in condition.Keys;
    assert condition.Keys == {op} by {
      assert |condition.Keys - {op}| == 0;
    }
    if !IsSystem(referenced) && referenced !in tt.props {
      return true;
    }
    var s := if IsSystem(referenced) then map[] else tt.props[referenced];
    bad := CheckOperator(c, t, d, NamedKind(tc, tt, referenced), s, op, condition[op]);
  }

  /** The `where` pairs: one problem for each that is not right. */
  method CheckPairs(c: Contract, t: DocType, d: Declaration, tc: Contract, tt: DocType, pairs: map<string, Json>) returns (problems: nat)
    ensures problems == 0 <==> forall p | p in pairs :: PairRight(c, t, d, tc, tt, p, pairs[p])
  {
    problems := 0;
    var todo := pairs.Keys;
    while todo != {}
      invariant todo <= pairs.Keys
      invariant problems == 0 <==> forall p | p in pairs && p !in todo :: PairRight(c, t, d, tc, tt, p, pairs[p])
      decreases todo
    {
      var p :| p in todo;
      var bad := true;
      match pairs[p] {
        case Obj(condition) => bad := CheckCondition(c, t, d, tc, tt, p, condition);
        case Str(name) => bad := CheckAgreement(c, t, d, tc, tt, p, name);
        case _ =>
      }
      todo := todo - {p};
      problems := problems + (if bad then 1 else 0);
    }
  }

  /** `findBy` into another contract. */
  method CheckFindBy(c: Contract, t: DocType, d: Declaration, tc: Contract, tt: DocType, keys: map<string, string>) returns (problems: nat)
    ensures problems == 0 <==> FindByRight(c, t, d, tc, tt, keys)
  {
    problems := 0;
    var unique := false;
    for i := 0 to |tt.indices|
      invariant unique <==> exists j | 0 <= j < i :: UniqueOver(tt.indices[j], keys.Keys)
    {
      unique := unique || UniqueOver(tt.indices[i], keys.Keys);
    }
    if !unique {
      problems := problems + 1;
    }
    if tt.indexOnly {
      problems := problems + 1;
    }
    var sofar, todo := problems, keys.Keys;
    while todo != {}
      invariant todo <= keys.Keys
      invariant problems == 0 <==> sofar == 0 && forall k | k in keys && k !in todo :: KeyRight(c, t, d, tc, tt, k, keys[k])
      decreases todo
    {
      var k :| k in todo;
      var theirs, ours := NamedKind(tc, tt, k), SourceKind(c, t, d, keys[k]);
      if theirs == Null || theirs != ours {
        problems := problems + 1;
      }
      if tt.mutable && k !in SystemFixed && Always(k) !in tt.immutable {
        problems := problems + 1;
      }
      todo := todo - {k};
    }
  }

  datatype Report = Report(missing: nat, lifetime: nat, findBy: nat, pairs: nat)

  /** One leaf: the problems by the code they are reported under (40121; 40122 and 40131; 40137; 40126). */
  method CheckLeaf(cs: seq<Contract>, i: nat, ids: map<string, string>, t: DocType, d: Declaration, leaf: Leaf) returns (r: Report)
    requires i < |cs| && DistinctNames(cs)
    ensures r == Report(0, 0, 0, 0) <==> LeafRight(cs, i, ids, t, d, leaf)
    ensures r.missing > 0 <==> IsDocumentReference(leaf) && !exists j: nat | j <= i :: TargetAt(cs, i, ids, leaf, j)
  {
    if !IsDocumentReference(leaf) {
      return Report(0, 0, 0, 0);
    }
    var name := TargetName(cs[i], ids, leaf);
    var j := 0;
    while j <= i && (name != Some(cs[j].name))
      invariant j <= i + 1
      invariant forall k | 0 <= k < j :: name != Some(cs[k].name)
    {
      j := j + 1;
    }
    if j > i || leaf.docType !in cs[j].types {
      NoOtherTarget(cs, i, ids, leaf, j);
      return Report(1, 0, 0, 0);
    }
    OnlyTarget(cs, i, ids, leaf, j);
    r := CheckReferent(cs[i], t, d, leaf, cs[j], cs[j].types[leaf.docType]);
    assert TargetAt(cs, i, ids, leaf, j);
  }

  lemma NoOtherTarget(cs: seq<Contract>, i: nat, ids: map<string, string>, leaf: Leaf, j: nat)
    requires i < |cs| && DistinctNames(cs) && j <= i + 1
    requires forall k | 0 <= k < j :: TargetName(cs[i], ids, leaf) != Some(cs[k].name)
    requires j <= i ==> TargetName(cs[i], ids, leaf) == Some(cs[j].name) && leaf.docType !in cs[j].types
    ensures forall k: nat | k <= i :: !TargetAt(cs, i, ids, leaf, k)
  {
    forall k: nat | k <= i ensures !TargetAt(cs, i, ids, leaf, k) {
      if k > j {
        assert cs[j].name != cs[k].name;
      }
    }
  }

  lemma OnlyTarget(cs: seq<Contract>, i: nat, ids: map<string, string>, leaf: Leaf, j: nat)
    requires i < |cs| && DistinctNames(cs) && TargetAt(cs, i, ids, leaf, j)
    ensures forall k: nat | TargetAt(cs, i, ids, leaf, k) :: k == j
  {
  }

  method CheckReferent(c: Contract, t: DocType, d: Declaration, leaf: Leaf, tc: Contract, tt: DocType) returns (r: Report)
    requires IsDocumentReference(leaf)
    ensures r.missing == 0
    ensures r.lifetime == 0 <==> LifetimeRight(leaf, tc, tt)
    ensures r == Report(0, 0, 0, 0) <==> ReferentRight(c, t, d, leaf, tc, tt)
  {
    var lifetime, findBy := 0, 0;
    var gone := CanDisappear(tc, tt);
    if leaf.kind == "permanentDocument" && gone {
      lifetime := lifetime + 1;
    }
    if leaf.kind == "deletableDocument" && !gone {
      lifetime := lifetime + 1;
    }
    if leaf.findBy.Some? && tc.name != c.name {
      findBy := CheckFindBy(c, t, d, tc, tt, leaf.findBy.value);
    }
    var pairs := CheckPairs(c, t, d, tc, tt, leaf.where_);
    return Report(0, lifetime, findBy, pairs);
  }

  method CheckDeclaration(cs: seq<Contract>, i: nat, ids: map<string, string>, t: DocType, d: Declaration) returns (problems: nat)
    requires i < |cs| && DistinctNames(cs)
    ensures problems == 0 <==> DeclarationRight(cs, i, ids, t, d)
  {
    problems := 0;
    var leaves := Leaves(d.tree);
    for k := 0 to |leaves|
      invariant problems == 0 <==> forall n | 0 <= n < k :: LeafRight(cs, i, ids, t, d, leaves[n])
    {
      var r := CheckLeaf(cs, i, ids, t, d, leaves[k]);
      problems := problems + r.missing + r.lifetime + r.findBy + r.pairs;
    }
  }

  method CheckType(cs: seq<Contract>, i: nat, ids: map<string, string>, t: DocType) returns (problems: nat)
    requires i < |cs| && DistinctNames(cs)
    ensures problems == 0 <==> TypeRight(cs, i, ids, t)
  {
    problems := 0;
    for k := 0 to |t.declarations|
      invariant problems == 0 <==> forall n | 0 <= n < k :: DeclarationRight(cs, i, ids, t, t.declarations[n])
    {
      var more := CheckDeclaration(cs, i, ids, t, t.declarations[k]);
      problems := problems + more;
    }
  }

  /** The whole check: no problem exactly when the set registers. */
  method Check(cs: seq<Contract>, ids: map<string, string>) returns (problems: nat)
    requires DistinctNames(cs)
    ensures problems == 0 <==> SetRight(cs, ids)
  {
    problems := 0;
    for i := 0 to |cs|
      invariant problems == 0 <==> forall n | 0 <= n < i :: ContractRight(cs, n, ids)
    {
      var more := CheckContract(cs, i, ids);
      problems := problems + more;
    }
  }

  method CheckContract(cs: seq<Contract>, i: nat, ids: map<string, string>) returns (problems: nat)
    requires i < |cs| && DistinctNames(cs)
    ensures problems == 0 <==> ContractRight(cs, i, ids)
  {
    problems := |cs[i].features * Unported|;
    var sofar, todo := problems, cs[i].types.Keys;
    while todo != {}
      invariant todo <= cs[i].types.Keys
      invariant problems == 0 <==> sofar == 0 && forall n | n in cs[i].types && n !in todo :: TypeRight(cs, i, ids, cs[i].types[n])
      decreases todo
    {
      var n :| n in todo;
      var more := CheckType(cs, i, ids, cs[i].types[n]);
      problems := problems + more;
      todo := todo - {n};
    }
  }
}
