/** What `wherecheck.py` demands of a reference declaration, stated without its loops. */
module References {
  import opened JsonValues
  import opened PropertyKinds
  import opened Literals

  // ----- Contracts as the checker reads them -----

  datatype Index = Index(props: seq<string>, unique: bool)

  /** An entry of `immutable`: a name listed outright, or a name frozen under a condition. */
  datatype Frozen = Always(name: string) | Under(name: string)

  /** One referent; `where_` maps a referenced property to a property name or to a condition. */
  datatype Leaf = Leaf(kind: string, contractId: Option<string>, docType: string, findBy: Option<map<string, string>>,
                       where_: map<string, Json>)

  datatype Tree = One(leaf: Leaf) | AnyOf(options: seq<Tree>) | AllOf(parts: seq<Tree>)

  /** A `refersTo` of the property `prop` (of each of its elements when `element`), or of the owner. */
  datatype Declaration = Declaration(prop: Option<string>, element: bool, tree: Tree)

  /** `props` holds every property, flattened and resolved. */
  datatype DocType = DocType(props: map<string, Schema>, required: set<string>, declarations: seq<Declaration>,
                             canBeDeleted: Option<bool>, moderatorsDelete: bool, ttl: bool,
                             indices: seq<Index>, indexOnly: bool, immutable: seq<Frozen>, mutable: bool)

  /** `features` holds the quoted words of the contract's text. */
  datatype Contract = Contract(name: string, types: map<string, DocType>, defs: Defs, deletedByDefault: bool, features: set<string>)

  const Unported: set<string> := {"inList", "creatorRefersTo", "revealed", "consume", "minimumAgeBlocks", "moderatedDocument", "moderatorAbilities"}
  const SystemFixed: set<string> := {"$ownerId", "$id", "$createdAt", "$createdAtBlockHeight", "$createdAtCoreBlockHeight"}
  const Identities: set<string> := {"$ownerId", "$creatorId", "$id"}
  const Times: set<string> := {"$createdAt", "$updatedAt", "$transferredAt"}
  const Heights: set<string> := {"$createdAtBlockHeight", "$updatedAtBlockHeight", "$transferredAtBlockHeight"}
  const CoreHeights: set<string> := {"$createdAtCoreBlockHeight", "$updatedAtCoreBlockHeight", "$transferredAtCoreBlockHeight"}
  const Orderings: set<string> := {"greaterThan", "greaterThanOrEqual", "lessThan", "lessThanOrEqual"}

  predicate IsSystem(name: string) {
    |name| > 0 && name[0] == '$'
  }

  /** The kind of a system property; null is Python's None throughout. */
  function SystemKind(name: string): (r: Json) {
    if name in Identities then Str("identifier")
    else if name in Times then Str("date")
    else if name in Heights then Str("u64")
    else if name in CoreHeights then Str("u32")
    else Null
  }

  function PropertyKind(defs: Defs, s: Schema): (r: Json) {
    var k := Kind(defs, s);
    if k.Some? then k.value else Null
  }

  function NamedKind(c: Contract, t: DocType, name: string): (r: Json) {
    if IsSystem(name) then SystemKind(name)
    else if name in t.props then PropertyKind(c.defs, t.props[name])
    else Null
  }

  /** `source_kind`: `.` is the reference's own value. */
  function SourceKind(c: Contract, t: DocType, d: Declaration, source: string): (r: Json) {
    if source != "." then NamedKind(c, t, source)
    else if d.prop.None? then Str("identifier")
    else if d.prop.value !in t.props then Null
    else if !d.element then PropertyKind(c.defs, t.props[d.prop.value])
    else
      var items := Lookup(t.props[d.prop.value], "items");
      if items.Obj? then PropertyKind(c.defs, items.members) else Null
  }

  function Leaves(tree: Tree): (r: seq<Leaf>) {
    match tree
    case One(leaf) => [leaf]
    case AnyOf(ts) => LeavesOf(ts)
    case AllOf(ts) => LeavesOf(ts)
  }

  function LeavesOf(ts: seq<Tree>): (r: seq<Leaf>) {
    if ts == [] then [] else Leaves(ts[0]) + LeavesOf(ts[1..])
  }

  predicate CanDisappear(c: Contract, t: DocType) {
    (if t.canBeDeleted.Some? then t.canBeDeleted.value else c.deletedByDefault) || t.moderatorsDelete || t.ttl
  }

  predicate IsDocumentReference(leaf: Leaf) {
    leaf.kind == "permanentDocument" || leaf.kind == "deletableDocument"
  }

  // ----- The target -----

  /** The contract a leaf names; `ids` reads the placeholder ids. */
  function TargetName(c: Contract, ids: map<string, string>, leaf: Leaf): (r: Option<string>) {
    if leaf.contractId.None? then Some(c.name)
    else if leaf.contractId.value in ids then Some(ids[leaf.contractId.value])
    else None
  }

  /** Contract `j` is the one the leaf names, and it defines the type. */
  predicate TargetAt(cs: seq<Contract>, i: nat, ids: map<string, string>, leaf: Leaf, j: nat)
    requires i < |cs|
  {
    j < |cs| && TargetName(cs[i], ids, leaf) == Some(cs[j].name) && leaf.docType in cs[j].types
  }

  // ----- What is demanded -----

  /** `findBy` into another contract: a unique index over exactly its keys, each key filled from a
      value of its kind and fixed once written. */
  predicate FindByRight(c: Contract, t: DocType, d: Declaration, tc: Contract, tt: DocType, keys: map<string, string>) {
    && !tt.indexOnly
    && (exists i | 0 <= i < |tt.indices| :: UniqueOver(tt.indices[i], keys.Keys))
    && (forall k | k in keys :: KeyRight(c, t, d, tc, tt, k, keys[k]))
  }

  predicate UniqueOver(index: Index, keys: set<string>) {
    index.unique && (set p | p in index.props) == keys
  }

  predicate KeyRight(c: Contract, t: DocType, d: Declaration, tc: Contract, tt: DocType, key: string, source: string) {
    && NamedKind(tc, tt, key) != Null
    && NamedKind(tc, tt, key) == SourceKind(c, t, d, source)
    && FixedOnceWritten(tt, key)
  }

  predicate FixedOnceWritten(t: DocType, key: string) {
    t.mutable ==> key in SystemFixed || Always(key) in t.immutable
  }

  predicate SingleValue(kind: Json) {
    kind != Str("object") && kind != Str("typedArray")
  }

  /** An agreement compares two single values of one kind, and never the reference with itself. */
  predicate AgreementRight(c: Contract, t: DocType, d: Declaration, tc: Contract, tt: DocType, referenced: string, referring: string) {
    && d.prop != Some(referring)
    && (referring == "$ownerId" || (!IsSystem(referring) && referring in t.props))
    && (referenced in Identities || (!IsSystem(referenced) && referenced in tt.props))
    && NamedKind(c, t, referring) == NamedKind(tc, tt, referenced)
    && SingleValue(NamedKind(c, t, referring)) && SingleValue(NamedKind(tc, tt, referenced))
  }

  predicate Digits(s: string) {
    s != "" && forall i | 0 <= i < |s| :: '0' <= s[i] <= '9'
  }

  predicate IsIntKind(k: Json) {
    k.Str? && |k.s| > 1 && (k.s[0] == 'u' || k.s[0] == 'i') && Digits(k.s[1..])
  }

  /** `{'const': literal}` */
  predicate IsConst(arg: Json) {
    arg.Obj? && arg.members.Keys == {"const"}
  }

  predicate AllDistinct(xs: seq<Json>) {
    forall i, j | 0 <= i < j < |xs| :: xs[i] != xs[j]
  }

  predicate NotEqualRight(c: Contract, t: DocType, d: Declaration, kind: Json, s: Schema, arg: Json) {
    if IsConst(arg) then LiteralRight(kind, s, arg.members["const"])
    else
      && arg.Str? && d.prop != Some(arg.s)
      && (arg.s == "$ownerId" || !IsSystem(arg.s))
      && SourceKind(c, t, d, arg.s) != Null && SourceKind(c, t, d, arg.s) == kind
  }

  /** An ordering compares a sized integer: with an integer literal, with a time or height the declaring
      type requires, or with one of its sized integer properties. */
  predicate OrderingRight(c: Contract, t: DocType, kind: Json, arg: Json) {
    && IsIntKind(kind)
    && ((IsConst(arg) && arg.members["const"].Int?)
        || (arg.Str? && arg.s in Times + Heights + CoreHeights && arg.s in t.required)
        || (arg.Str? && !IsSystem(arg.s) && arg.s in t.props && IsIntKind(NamedKind(c, t, arg.s))))
  }

  /** Two to thirty different literals, each right. */
  predicate ListRight(kind: Json, s: Schema, arg: Json) {
    arg.Arr? && 2 <= |arg.items| <= 30 && AllDistinct(arg.items) && forall i | 0 <= i < |arg.items| :: LiteralRight(kind, s, arg.items[i])
  }

  predicate OperatorRight(c: Contract, t: DocType, d: Declaration, kind: Json, s: Schema, op: string, arg: Json) {
    || (op == "const" && LiteralRight(kind, s, arg))
    || (op == "in" && ListRight(kind, s, arg))
    || (op == "notEqual" && NotEqualRight(c, t, d, kind, s, arg))
    || (op in Orderings && OrderingRight(c, t, kind, arg))
  }

  /** A condition on the referenced property: one operator, one argument that fits its kind. */
  predicate ConditionRight(c: Contract, t: DocType, d: Declaration, tc: Contract, tt: DocType, referenced: string, condition: map<string, Json>) {
    && |condition.Keys| == 1
    && (IsSystem(referenced) || referenced in tt.props)
    && forall op | op in condition ::
         OperatorRight(c, t, d, NamedKind(tc, tt, referenced), if IsSystem(referenced) then map[] else tt.props[referenced], op, condition[op])
  }

  predicate PairRight(c: Contract, t: DocType, d: Declaration, tc: Contract, tt: DocType, referenced: string, referring: Json) {
    match referring
    case Obj(condition) => ConditionRight(c, t, d, tc, tt, referenced, condition)
    case Str(name) => AgreementRight(c, t, d, tc, tt, referenced, name)
    case _ => false
  }

  predicate LifetimeRight(leaf: Leaf, tc: Contract, tt: DocType) {
    && (leaf.kind == "permanentDocument" ==> !CanDisappear(tc, tt))
    && (leaf.kind == "deletableDocument" ==> CanDisappear(tc, tt))
  }

  predicate ReferentRight(c: Contract, t: DocType, d: Declaration, leaf: Leaf, tc: Contract, tt: DocType) {
    && LifetimeRight(leaf, tc, tt)
    && (leaf.findBy.Some? && tc.name != c.name ==> FindByRight(c, t, d, tc, tt, leaf.findBy.value))
    && (forall p | p in leaf.where_ :: PairRight(c, t, d, tc, tt, p, leaf.where_[p]))
  }

  /** The leaf names a type of this or an earlier contract and every demand on it is met. */
  predicate LeafRight(cs: seq<Contract>, i: nat, ids: map<string, string>, t: DocType, d: Declaration, leaf: Leaf)
    requires i < |cs|
  {
    IsDocumentReference(leaf) ==>
      exists j | 0 <= j <= i :: TargetAt(cs, i, ids, leaf, j) && ReferentRight(cs[i], t, d, leaf, cs[j], cs[j].types[leaf.docType])
  }

  predicate TypeRight(cs: seq<Contract>, i: nat, ids: map<string, string>, t: DocType)
    requires i < |cs|
  {
    forall d | d in t.declarations :: DeclarationRight(cs, i, ids, t, d)
  }

  predicate DeclarationRight(cs: seq<Contract>, i: nat, ids: map<string, string>, t: DocType, d: Declaration)
    requires i < |cs|
  {
    forall leaf | leaf in Leaves(d.tree) :: LeafRight(cs, i, ids, t, d, leaf)
  }

  predicate ContractRight(cs: seq<Contract>, i: nat, ids: map<string, string>)
    requires i < |cs|
  {
    cs[i].features !! Unported && forall name | name in cs[i].types :: TypeRight(cs, i, ids, cs[i].types[name])
  }

  /** The whole set registers. */
  predicate SetRight(cs: seq<Contract>, ids: map<string, string>) {
    forall i | 0 <= i < |cs| :: ContractRight(cs, i, ids)
  }
}
