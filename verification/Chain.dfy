/** A chain that judges documents against a contract: creates, replaces and deletes, each accepted
    or refused as a whole. Nothing here knows which contract it is; what every run keeps whatever
    the rules say is proved here once, and the theorems about the forge contracts start from it. */
module Chain {
  import opened Rules

  /** Where a `findBy` key takes its value: `.` is the reference's own value. */
  datatype Source = Own | From(f: Field)

  /** A `where` entry: agreement with a property of the referring document, a literal, one of
      several literals, or an ordering against a property of the referring document. */
  datatype Cond = Agrees(f: Field) | IsValue(v: Value) | OneOf(vs: seq<Value>) | NotBefore(f: Field)

  datatype Leaf = Leaf(target: DocType, findBy: seq<(Field, Source)>, conds: seq<(Field, Cond)>)

  /** An `immutable` entry. One listed outright has the condition `True`. */
  datatype Frozen = Frozen(f: Field, cond: Rule)

  /** A document type. `bounds` are schema keywords and `rules` the constraints that read the
      document alone; `chainRules` are those that also read a total or a referenced document. */
  datatype TypeSchema = TypeSchema(
    mutable: bool,
    deletable: bool,
    required: set<Field>,
    dependent: seq<(Field, Field)>,
    bounds: seq<Rule>,
    rules: seq<Rule>,
    chainRules: seq<Rule>,
    frozen: seq<Frozen>,
    unique: seq<seq<Field>>,
    ownerRef: seq<Leaf>,
    refs: seq<(Field, seq<Leaf>)>,
    mayDelete: Rule)

  type Contract = DocType -> TypeSchema

  datatype State = State(docs: seq<Doc>, now: nat)

  datatype Op =
    | Create(signer: nat, typ: DocType, data: View)
    | Replace(signer: nat, at: nat, data: View)
    | Delete(signer: nat, at: nat)
    | Tick(ms: nat)

  // ---- what a write is judged by ----------------------------------------------------------

  predicate CondHolds(c: Cond, v: Option<Value>, me: View) {
    match c
    case Agrees(f) => v == Get(me, f)
    case IsValue(x) => v == Some(x)
    case OneOf(vs) => v.Some? && v.value in vs
    case NotBefore(f) => v.Some? && f in me && AsInt(v) >= IntOf(me, f)
  }

  function SourceValue(src: Source, value: Option<Value>, me: View): Option<Value> {
    match src
    case Own => value
    case From(f) => Get(me, f)
  }

  /** Document `d` answers the reference `leaf` made with `value` by a document whose view is `me`. */
  predicate Serves(d: Doc, leaf: Leaf, value: Option<Value>, me: View) {
    && d.live && d.typ == leaf.target
    && (forall k | 0 <= k < |leaf.findBy| :: Get(d.view, leaf.findBy[k].0) == SourceValue(leaf.findBy[k].1, value, me))
    && (forall k | 0 <= k < |leaf.conds| :: CondHolds(leaf.conds[k].1, Get(d.view, leaf.conds[k].0), me))
  }

  predicate Finds(docs: seq<Doc>, leaf: Leaf, value: Option<Value>, me: View) {
    exists i | 0 <= i < |docs| :: Serves(docs[i], leaf, value, me)
  }

  /** An `anyOf` of leaves holds through any one of them. */
  predicate Refers(docs: seq<Doc>, leaves: seq<Leaf>, value: Option<Value>, me: View) {
    exists k | 0 <= k < |leaves| :: Finds(docs, leaves[k], value, me)
  }

  predicate NamesDeletable(C: Contract, leaves: seq<Leaf>) {
    exists k | 0 <= k < |leaves| :: C(leaves[k].target).deletable
  }

  /** `dependentRequired`: where the first property is, the second is too. */
  predicate Complete(dependent: seq<(Field, Field)>, v: View) {
    forall k | 0 <= k < |dependent| :: dependent[k].0 in v ==> dependent[k].1 in v
  }

  function Alone(v: View): Env {
    Env([], v, None)
  }

  predicate Passed(rules: seq<Rule>, v: View) {
    forall k | 0 <= k < |rules| :: Holds(rules[k], Alone(v))
  }

  /** What is judged on the document alone, and what it therefore still satisfies long after:
      required and dependent properties, value kinds, bounds and the rules that read no chain state. */
  predicate Standing(sch: TypeSchema, v: View) {
    && sch.required + {docId, ownerId, createdAt, updatedAt, revision} <= v.Keys
    && WellKinded(v)
    && Complete(sch.dependent, v)
    && Passed(sch.bounds, v)
    && Passed(sch.rules, v)
  }

  predicate ChainRulesHold(rules: seq<Rule>, env: Env) {
    forall k | 0 <= k < |rules| :: Holds(rules[k], env)
  }

  /** A frozen property keeps its stored value while its condition holds. */
  predicate FreezeKept(frozen: seq<Frozen>, env: Env) {
    env.prev.Some? &&
    forall k | 0 <= k < |frozen| ::
      Holds(frozen[k].cond, env) ==> Get(env.prev.value, frozen[k].f) == Get(env.me, frozen[k].f)
  }

  predicate SameKey(a: View, b: View, key: seq<Field>) {
    forall k | 0 <= k < |key| :: key[k] in a && key[k] in b && a[key[k]] == b[key[k]]
  }

  predicate Unclaimed(sch: TypeSchema, docs: seq<Doc>, t: DocType, me: View, at: nat) {
    forall k, j | 0 <= k < |sch.unique| && 0 <= j < |docs| && j != at && docs[j].live && docs[j].typ == t ::
      !SameKey(docs[j].view, me, sch.unique[k])
  }

  predicate OwnerAdmitted(sch: TypeSchema, docs: seq<Doc>, me: View) {
    sch.ownerRef == [] || Refers(docs, sch.ownerRef, Get(me, ownerId), me)
  }

  predicate PropertyRefers(docs: seq<Doc>, me: View, ref: (Field, seq<Leaf>)) {
    ref.0 in me ==> Refers(docs, ref.1, Get(me, ref.0), me)
  }

  function Stamp(data: View, id: nat, owner: Option<Value>, created: Option<Value>, now: nat, rev: int): View {
    data + map[docId := Ident(id),
               ownerId := if owner.Some? then owner.value else Ident(0),
               createdAt := if created.Some? then created.value else Int(now),
               updatedAt := Int(now), revision := Int(rev)]
  }

  function CreatedView(s: State, signer: nat, data: View): View {
    Stamp(data, |s.docs|, Some(Ident(signer)), None, s.now, 1)
  }

  predicate AcceptsCreate(C: Contract, s: State, signer: nat, t: DocType, data: View) {
    var sch := C(t);
    var me := CreatedView(s, signer, data);
    var env := Env(s.docs + [Doc(t, me, true)], me, None);
    && Standing(sch, me)
    && ChainRulesHold(sch.chainRules, env)
    && Unclaimed(sch, s.docs, t, me, |s.docs|)
    && OwnerAdmitted(sch, s.docs, me)
    && (forall k | 0 <= k < |sch.refs| :: PropertyRefers(s.docs, me, sch.refs[k]))
  }

  function ReplacedView(s: State, at: nat, data: View): View
    requires at < |s.docs|
  {
    var was := s.docs[at].view;
    Stamp(data, at, Get(was, ownerId), Get(was, createdAt), s.now, IntOf(was, revision) + 1)
  }

  predicate AcceptsReplace(C: Contract, s: State, signer: nat, at: nat, data: View) {
    && at < |s.docs| && s.docs[at].live
    && Get(s.docs[at].view, ownerId) == Some(Ident(signer))
    && var t := s.docs[at].typ;
       var sch := C(t);
       var was := s.docs[at].view;
       var me := ReplacedView(s, at, data);
       var env := Env(s.docs[at := Doc(t, me, true)], me, Some(was));
       && sch.mutable
       && Standing(sch, me)
       && ChainRulesHold(sch.chainRules, env)
       && FreezeKept(sch.frozen, env)
       && Unclaimed(sch, s.docs, t, me, at)
       && (NamesDeletable(C, sch.ownerRef) ==> OwnerAdmitted(sch, s.docs, me))
       && (forall k | 0 <= k < |sch.refs| ::
             NamesDeletable(C, sch.refs[k].1) || Get(was, sch.refs[k].0) != Get(me, sch.refs[k].0) ==>
               PropertyRefers(s.docs, me, sch.refs[k]))
  }

  predicate AcceptsDelete(C: Contract, s: State, signer: nat, at: nat) {
    && at < |s.docs| && s.docs[at].live
    && Get(s.docs[at].view, ownerId) == Some(Ident(signer))
    && C(s.docs[at].typ).deletable
    && Holds(C(s.docs[at].typ).mayDelete, Env(s.docs, s.docs[at].view, None))
  }

  predicate Accepts(C: Contract, s: State, op: Op) {
    match op
    case Create(signer, t, data) => AcceptsCreate(C, s, signer, t, data)
    case Replace(signer, at, data) => AcceptsReplace(C, s, signer, at, data)
    case Delete(signer, at) => AcceptsDelete(C, s, signer, at)
    case Tick(_) => true
  }

  /** A refused write leaves the chain as it was. */
  function Apply(C: Contract, s: State, op: Op): State {
    if !Accepts(C, s, op) then s
    else match op
      case Create(signer, t, data) => s.(docs := s.docs + [Doc(t, CreatedView(s, signer, data), true)])
      case Replace(signer, at, data) => s.(docs := s.docs[at := Doc(s.docs[at].typ, ReplacedView(s, at, data), true)])
      case Delete(signer, at) => s.(docs := s.docs[at := s.docs[at].(live := false)])
      case Tick(ms) => s.(now := s.now + ms)
  }

  const Genesis: State := State([], 0)

  /** The state after a run: every operation is tried in order, refused ones included. */
  function Run(C: Contract, ops: seq<Op>): State {
    if ops == [] then Genesis else Apply(C, Run(C, ops[..|ops| - 1]), ops[|ops| - 1])
  }

  // ---- what every run keeps -----------------------------------------------------------------

  /** The document at position `i` stands, bears its position as its id and was not created in the future. */
  predicate StoredAt(sch: TypeSchema, v: View, i: nat, now: nat) {
    Standing(sch, v) && v[docId] == Ident(i) && IntOf(v, createdAt) <= now
  }

  /** Every document of the log is as it was judged to be, and no two live documents of a type
      agree on a unique index. */
  ghost predicate Sound(C: Contract, s: State) {
    && (forall i | 0 <= i < |s.docs| :: StoredAt(C(s.docs[i].typ), s.docs[i].view, i, s.now))
    && UniqueKeys(C, s.docs)
  }

  ghost predicate UniqueKeys(C: Contract, docs: seq<Doc>) {
    forall i, j, k | 0 <= i < |docs| && 0 <= j < |docs| && i != j && docs[i].live && docs[j].live
      && docs[i].typ == docs[j].typ && 0 <= k < |C(docs[i].typ).unique| ::
      !SameKey(docs[i].view, docs[j].view, C(docs[i].typ).unique[k])
  }

  lemma SameKeySymmetric(a: View, b: View, key: seq<Field>)
    ensures SameKey(a, b, key) == SameKey(b, a, key)
  {
  }

  /** Writing one judged document into the log, as a new entry or over an old one. */
  lemma WriteKeepsUnique(C: Contract, docs: seq<Doc>, after: seq<Doc>, at: nat)
    requires UniqueKeys(C, docs)
    requires at < |after| && after[at].live
    requires (at == |docs| && after == docs + [after[at]]) || (at < |docs| && after == docs[at := after[at]])
    requires Unclaimed(C(after[at].typ), docs, after[at].typ, after[at].view, at)
    ensures UniqueKeys(C, after)
  {
    forall i, j, k | 0 <= i < |after| && 0 <= j < |after| && i != j && after[i].live && after[j].live
      && after[i].typ == after[j].typ && 0 <= k < |C(after[i].typ).unique|
      ensures !SameKey(after[i].view, after[j].view, C(after[i].typ).unique[k])
    {
      SameKeySymmetric(after[i].view, after[j].view, C(after[i].typ).unique[k]);
    }
  }

  lemma CreatedStands(C: Contract, s: State, signer: nat, t: DocType, data: View)
    requires AcceptsCreate(C, s, signer, t, data)
    ensures StoredAt(C(t), CreatedView(s, signer, data), |s.docs|, s.now)
  {
  }

  lemma ReplacedStands(C: Contract, s: State, signer: nat, at: nat, data: View)
    requires AcceptsReplace(C, s, signer, at, data)
    requires StoredAt(C(s.docs[at].typ), s.docs[at].view, at, s.now)
    ensures StoredAt(C(s.docs[at].typ), ReplacedView(s, at, data), at, s.now)
  {
  }

  lemma StepUnique(C: Contract, s: State, op: Op)
    requires UniqueKeys(C, s.docs)
    ensures UniqueKeys(C, Apply(C, s, op).docs)
  {
    var after := Apply(C, s, op).docs;
    if Accepts(C, s, op) {
      match op
      case Create(signer, t, data) =>
        assert after[|s.docs|] == Doc(t, CreatedView(s, signer, data), true);
        WriteKeepsUnique(C, s.docs, after, |s.docs|);
      case Replace(signer, at, data) =>
        WriteKeepsUnique(C, s.docs, after, at);
      case _ =>
    }
  }

  lemma StepSound(C: Contract, s: State, op: Op)
    requires Sound(C, s)
    ensures Sound(C, Apply(C, s, op))
  {
    StepUnique(C, s, op);
    if Accepts(C, s, op) {
      match op
      case Create(signer, t, data) => CreatedStands(C, s, signer, t, data);
      case Replace(signer, at, data) => ReplacedStands(C, s, signer, at, data);
      case _ =>
    }
  }

  lemma {:induction false} RunSound(C: Contract, ops: seq<Op>)
    ensures Sound(C, Run(C, ops))
  {
    if ops != [] {
      RunSound(C, ops[..|ops| - 1]);
      StepSound(C, Run(C, ops[..|ops| - 1]), ops[|ops| - 1]);
    }
  }

  // ---- how a document may change --------------------------------------------------------------

  /** What an accepted replace of a stored document leaves to reason with, the log aside. */
  predicate ReplaceStands(sch: TypeSchema, was: View, me: View, env: Env) {
    && sch.mutable && env.me == me && env.prev == Some(was)
    && Standing(sch, was) && Standing(sch, me)
    && FreezeKept(sch.frozen, env)
  }

  lemma ReplaceLeaves(C: Contract, s: State, signer: nat, at: nat, data: View) returns (env: Env)
    requires Sound(C, s) && AcceptsReplace(C, s, signer, at, data)
    ensures ReplaceStands(C(s.docs[at].typ), s.docs[at].view, ReplacedView(s, at, data), env)
  {
    ReplacedStands(C, s, signer, at, data);
    var me := ReplacedView(s, at, data);
    env := Env(s.docs[at := Doc(s.docs[at].typ, me, true)], me, Some(s.docs[at].view));
  }

  ghost predicate FrozenOutright(sch: TypeSchema, f: Field) {
    f in {docId, ownerId, createdAt} || exists k | 0 <= k < |sch.frozen| :: sch.frozen[k] == Frozen(f, True)
  }

  /** From `a` to `b` over any stretch of a run: the type never changes, nothing comes back from a
      delete, a document of an immutable type keeps its view, one of a type that cannot be deleted
      stays, and a property frozen outright keeps its value. */
  ghost predicate Evolves(C: Contract, a: Doc, b: Doc) {
    && a.typ == b.typ
    && (!a.live ==> b == a)
    && (!C(a.typ).mutable ==> b.view == a.view)
    && (!C(a.typ).deletable && a.live ==> b.live)
    && (forall f :: FrozenOutright(C(a.typ), f) ==> Get(a.view, f) == Get(b.view, f))
  }

  ghost predicate Grows(C: Contract, s: State, u: State) {
    && |s.docs| <= |u.docs| && s.now <= u.now
    && (forall i | 0 <= i < |s.docs| :: Evolves(C, s.docs[i], u.docs[i]))
  }

  lemma ReplaceEvolves(C: Contract, s: State, signer: nat, at: nat, data: View)
    requires Sound(C, s) && AcceptsReplace(C, s, signer, at, data)
    ensures Evolves(C, s.docs[at], Doc(s.docs[at].typ, ReplacedView(s, at, data), true))
  {
    var d := s.docs[at];
    var me := ReplacedView(s, at, data);
    var env := Env(s.docs[at := Doc(d.typ, me, true)], me, Some(d.view));
    forall f | FrozenOutright(C(d.typ), f) ensures Get(d.view, f) == Get(me, f) {
      if f !in {docId, ownerId, createdAt} {
        var k :| 0 <= k < |C(d.typ).frozen| && C(d.typ).frozen[k] == Frozen(f, True);
        assert Holds(C(d.typ).frozen[k].cond, env);
      }
    }
  }

  lemma StepGrows(C: Contract, s: State, op: Op)
    requires Sound(C, s)
    ensures Grows(C, s, Apply(C, s, op))
  {
    if op.Replace? && Accepts(C, s, op) {
      ReplaceEvolves(C, s, op.signer, op.at, op.data);
    }
  }

  lemma GrowsTransitive(C: Contract, s: State, u: State, w: State)
    requires Grows(C, s, u) && Grows(C, u, w)
    ensures Grows(C, s, w)
  {
    forall i | 0 <= i < |s.docs| ensures Evolves(C, s.docs[i], w.docs[i]) {
      assert Evolves(C, s.docs[i], u.docs[i]) && Evolves(C, u.docs[i], w.docs[i]);
    }
  }

  /** From any moment `k` of a run to its end. */
  lemma {:induction false} RunGrows(C: Contract, ops: seq<Op>, k: nat)
    requires k <= |ops|
    ensures Grows(C, Run(C, ops[..k]), Run(C, ops))
  {
    if k == |ops| {
      assert ops[..k] == ops;
    } else {
      var front := ops[..|ops| - 1];
      assert front[..k] == ops[..k];
      RunGrows(C, front, k);
      RunSound(C, front);
      StepGrows(C, Run(C, front), ops[|ops| - 1]);
      GrowsTransitive(C, Run(C, ops[..k]), Run(C, front), Run(C, ops));
    }
  }

  lemma RunStep(C: Contract, ops: seq<Op>, k: nat)
    requires k < |ops|
    ensures Run(C, ops[..k + 1]) == Apply(C, Run(C, ops[..k]), ops[k])
  {
    assert ops[..k + 1][..k] == ops[..k];
  }

  /** The operation `k` of the run was the create of the document at position `i`. */
  predicate Creates(C: Contract, ops: seq<Op>, k: nat, i: nat) {
    && k < |ops| && ops[k].Create? && |Run(C, ops[..k]).docs| == i
    && AcceptsCreate(C, Run(C, ops[..k]), ops[k].signer, ops[k].typ, ops[k].data)
  }

  lemma {:induction false} SomeCreate(C: Contract, ops: seq<Op>, i: nat) returns (k: nat)
    requires i < |Run(C, ops).docs|
    ensures Creates(C, ops, k, i)
  {
    var front := ops[..|ops| - 1];
    if i < |Run(C, front).docs| {
      k := SomeCreate(C, front, i);
      assert front[..k] == ops[..k];
    } else {
      k := |ops| - 1;
    }
  }

  /** After a create of position `i` the log is longer than `i`, so no later create is of it. */
  lemma {:induction false} OneCreate(C: Contract, ops: seq<Op>, j: nat, k: nat, i: nat)
    requires Creates(C, ops, j, i) && Creates(C, ops, k, i)
    ensures j >= k
  {
    if j < k {
      RunStep(C, ops, j);
      assert ops[..k][..j + 1] == ops[..j + 1];
      RunGrows(C, ops[..k], j + 1);
    }
  }

  /** Every document of a reachable state was created by exactly one accepted operation of the run. */
  lemma Created(C: Contract, ops: seq<Op>, i: nat) returns (k: nat)
    requires i < |Run(C, ops).docs|
    ensures k < |ops| && ops[k].Create? && |Run(C, ops[..k]).docs| == i
    ensures AcceptsCreate(C, Run(C, ops[..k]), ops[k].signer, ops[k].typ, ops[k].data)
    ensures forall j: nat :: Creates(C, ops, j, i) ==> j == k
  {
    k := SomeCreate(C, ops, i);
    forall j: nat | Creates(C, ops, j, i) ensures j == k {
      OneCreate(C, ops, j, k, i);
      OneCreate(C, ops, k, j, i);
    }
  }

  // ---- what a reference proves -----------------------------------------------------------------

  /** Every document bears its position as its id, so a reference by id finds that document. */
  predicate IdsArePositions(docs: seq<Doc>) {
    forall i | 0 <= i < |docs| :: Get(docs[i].view, docId) == Some(Ident(i))
  }

  /** A stored document still satisfies what is judged on it alone. */
  lemma SoundStands(C: Contract, s: State, i: nat, sch: TypeSchema)
    requires Sound(C, s) && i < |s.docs| && C(s.docs[i].typ) == sch
    ensures Standing(sch, s.docs[i].view)
  {
    assert StoredAt(C(s.docs[i].typ), s.docs[i].view, i, s.now);
  }

  lemma SoundIds(C: Contract, s: State)
    requires Sound(C, s)
    ensures IdsArePositions(s.docs)
  {
    forall i | 0 <= i < |s.docs| ensures Get(s.docs[i].view, docId) == Some(Ident(i)) {
      assert StoredAt(C(s.docs[i].typ), s.docs[i].view, i, s.now);
    }
  }

  /** What an accepted create leaves to reason with about its own document. */
  lemma CreateLeaves(C: Contract, s: State, signer: nat, t: DocType, data: View, sch: TypeSchema)
    requires C(t) == sch && AcceptsCreate(C, s, signer, t, data)
    ensures var me := CreatedView(s, signer, data);
            Standing(sch, me) && ChainRulesHold(sch.chainRules, Env(s.docs + [Doc(t, me, true)], me, None))
  {
  }

  lemma RequiredInt(sch: TypeSchema, v: View, f: Field)
    requires Standing(sch, v) && f in sch.required && KindOf(f) == IntKind
    ensures f in v && v[f].Int?
  {
  }

  lemma {:induction false} FirstRule(rules: seq<Rule>, rule: Rule, env: Env)
    requires ChainRulesHold(rules, env) && |rules| > 0 && rules[0] == rule
    ensures Holds(rule, env)
  {
  }

  /** One of the operands of an accepted create's reference found a document. */
  lemma CreateRefers(C: Contract, s: State, signer: nat, t: DocType, data: View, k: nat)
    requires AcceptsCreate(C, s, signer, t, data) && k < |C(t).refs|
    ensures PropertyRefers(s.docs, CreatedView(s, signer, data), C(t).refs[k])
  {
  }

  lemma FoundById(docs: seq<Doc>, t: DocType, conds: seq<(Field, Cond)>, value: Option<Value>, me: View) returns (p: nat)
    requires IdsArePositions(docs) && Finds(docs, Leaf(t, [(docId, Own)], conds), value, me)
    ensures value == Some(Ident(p)) && p < |docs| && docs[p].live && docs[p].typ == t
    ensures forall k | 0 <= k < |conds| :: CondHolds(conds[k].1, Get(docs[p].view, conds[k].0), me)
  {
    var leaf := Leaf(t, [(docId, Own)], conds);
    p :| 0 <= p < |docs| && Serves(docs[p], leaf, value, me);
    assert leaf.findBy[0] == (docId, Own);
  }

  /** Two contracts that differ in a type's chain rules alone judge a create of it alike but for them. */
  lemma ChainRulesApart(C: Contract, D: Contract, s: State, signer: nat, t: DocType, data: View)
    requires D(t) == C(t).(chainRules := [])
    ensures var me := CreatedView(s, signer, data);
            AcceptsCreate(C, s, signer, t, data) <==>
              AcceptsCreate(D, s, signer, t, data)
              && ChainRulesHold(C(t).chainRules, Env(s.docs + [Doc(t, me, true)], me, None))
  {
  }

  predicate DeleteStands(sch: TypeSchema, v: View, docs: seq<Doc>) {
    Standing(sch, v) && sch.deletable && Holds(sch.mayDelete, Env(docs, v, None))
  }

  /** A relation between a document and what it becomes that every accepted replace and every
      accepted delete keeps, whatever the log holds. */
  ghost predicate Inductive(C: Contract, R: (Doc, Doc) -> bool) {
    && (forall d :: R(d, d))
    && (forall a, b, c :: R(a, b) && R(b, c) ==> R(a, c))
    && (forall t, was, me, env :: ReplaceStands(C(t), was, me, env) ==> R(Doc(t, was, true), Doc(t, me, true)))
    && (forall t, v, docs :: DeleteStands(C(t), v, docs) ==> R(Doc(t, v, true), Doc(t, v, false)))
  }

  lemma StepKeeps(C: Contract, R: (Doc, Doc) -> bool, s: State, op: Op, j: nat)
    requires Inductive(C, R) && Sound(C, s) && j < |s.docs|
    ensures |s.docs| <= |Apply(C, s, op).docs| && R(s.docs[j], Apply(C, s, op).docs[j])
  {
    if Accepts(C, s, op) {
      match op
      case Replace(signer, at, data) =>
        if at == j {
          var env := ReplaceLeaves(C, s, signer, at, data);
          assert s.docs[j] == Doc(s.docs[j].typ, s.docs[j].view, true);
        }
      case Delete(signer, at) =>
        if at == j {
          assert s.docs[j] == Doc(s.docs[j].typ, s.docs[j].view, true);
          assert DeleteStands(C(s.docs[j].typ), s.docs[j].view, s.docs);
        }
      case _ =>
    }
  }

  /** From any moment of a run to its end. */
  lemma {:induction false} OverRun(C: Contract, R: (Doc, Doc) -> bool, ops: seq<Op>, k: nat, i: nat)
    requires Inductive(C, R)
    requires k <= |ops| && i < |Run(C, ops[..k]).docs|
    ensures i < |Run(C, ops).docs| && R(Run(C, ops[..k]).docs[i], Run(C, ops).docs[i])
  {
    if k == |ops| {
      assert ops[..k] == ops;
    } else {
      var front := ops[..|ops| - 1];
      assert front[..k] == ops[..k];
      OverRun(C, R, front, k, i);
      RunSound(C, front);
      StepKeeps(C, R, Run(C, front), ops[|ops| - 1], i);
    }
  }
}
