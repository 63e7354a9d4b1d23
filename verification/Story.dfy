/** A short run after which a bot may push: the premises of `BranchPushIsAccepted` can be met. The owner of
    a repository is its maintainer, enrols itself as a bot and grants itself the branches. */
module Story {
  import opened Rules
  import opened Chain
  import opened ForgeContracts
  import opened Membership
  import opened BotPushExact

  const RepoData: View := map[repoName := Text("a"), visibility := Public]
  const MaintainerData: View := map[repoId := Ident(0), memberId := Ident(1), vis := Public]
  const BotData: View := map[repoId := Ident(0), memberId := Ident(1), vis := Public, role := Int(4)]
  const GrantData: View := map[repoId := Ident(0), botId := Ident(1), until := Int(1), prefix := Text("refs/heads/")]

  const Ops: seq<Op> := [Create(1, Repo, RepoData), Create(1, Maintainer, MaintainerData), Create(1, Writer, BotData),
                         Create(1, PushGrant, GrantData)]

  function Stamped(id: nat, data: View): View {
    data + map[docId := Ident(id), ownerId := Ident(1), createdAt := Int(0), updatedAt := Int(0), revision := Int(1)]
  }

  // ---- one write after another ------------------------------------------------------------------------------

  /** What the create of `d`, the first of its type, is asked beside its stamp. */
  predicate Ready(sch: TypeSchema, docs: seq<Doc>, d: Doc) {
    && Standing(sch, d.view) && sch.chainRules == []
    && (forall j | 0 <= j < |docs| :: docs[j].typ != d.typ)
    && OwnerAdmitted(sch, docs, d.view)
    && (forall k | 0 <= k < |sch.refs| :: PropertyRefers(docs, d.view, sch.refs[k]))
  }

  lemma Front<T>(s: seq<T>, n: nat)
    requires n < |s|
    ensures s[..n + 1] == s[..n] + [s[n]] && (s[..n] + [s[n]])[..n] == s[..n]
  {
  }

  lemma {:induction false} Lands(C: Contract, ops: seq<Op>, op: Op, docs: seq<Doc>, d: Doc)
    requires Run(C, ops) == State(docs, 0) && (ops + [op])[..|ops|] == ops && Ready(C(d.typ), docs, d)
    requires op.Create? && op.signer == 1 && d == Doc(op.typ, Stamped(|docs|, op.data), true)
    ensures Run(C, ops + [op]) == State(docs + [d], 0)
  {
    assert CreatedView(State(docs, 0), 1, op.data) == d.view;
  }

  predicate Writes(C: Contract, docs: seq<Doc>, ops: seq<Op>, n: nat) {
    WrittenAs(docs, ops, n) && Ready(C(docs[n].typ), docs[..n], docs[n])
  }

  lemma {:induction false} OneMore(C: Contract, docs: seq<Doc>, ops: seq<Op>, n: nat)
    requires Writes(C, docs, ops, n) && Run(C, ops[..n]) == State(docs[..n], 0)
    ensures Run(C, ops[..n + 1]) == State(docs[..n + 1], 0)
  {
    Front(ops, n);
    Front(docs, n);
    Lands(C, ops[..n], ops[n], docs[..n], docs[n]);
  }

  // ---- the four documents, each on its own ------------------------------------------------------------------

  predicate Proper(v: View, required: set<Field>) {
    WellKinded(v) && required + {docId, ownerId, createdAt, updatedAt, revision} <= v.Keys
  }

  lemma Shape(id: nat, data: View, required: set<Field>)
    requires WellKinded(data) && required <= data.Keys
    ensures Proper(Stamped(id, data), required)
  {
  }

  lemma Gets(id: nat, data: View)
    ensures forall f | f !in {docId, ownerId, createdAt, updatedAt, revision} :: Get(Stamped(id, data), f) == Get(data, f)
    ensures var v := Stamped(id, data); Get(v, docId) == Some(Ident(id)) && Get(v, ownerId) == Some(Ident(1)) && Get(v, createdAt) == Some(Int(0))
  {
  }

  lemma StandsFrom(sch: TypeSchema, v: View)
    requires Proper(v, sch.required) && sch.dependent == [] && Passed(sch.bounds, v) && Passed(sch.rules, v)
    ensures Standing(sch, v)
  {
  }

  lemma RepoPasses(v: View)
    requires Get(v, visibility) == Some(Public) && Get(v, repoName) == Some(Text("a"))
    ensures Passed(RepoSchema.bounds, v) && Passed(RepoSchema.rules, v)
  {
    assert Public in [Public, Private] && !Suffix(".git", "a");
  }

  lemma RowPasses(v: View)
    requires Get(v, vis) == Some(Public) && memberId in v && Get(v, memberId) == Get(v, ownerId)
    ensures Passed([VisEnum], v) && Passed([OwnerOrConsented], v)
  {
    assert Public in [Public, Private];
  }

  lemma RolePasses(v: View)
    requires Get(v, role) == Some(Int(4)) && Get(v, vis) == Some(Public)
    ensures Passed(WriterSchema.bounds, v)
  {
    assert Public in [Public, Private];
  }

  lemma GrantTimes(v: View)
    requires Get(v, createdAt) == Some(Int(0)) && Get(v, until) == Some(Int(1))
    ensures Passed(PushGrantSchema.bounds, v) && Holds(PushGrantRules[0], Alone(v))
  {
  }

  lemma GrantScopes(v: View)
    requires scope !in v && Get(v, prefix) == Some(Text("refs/heads/"))
    ensures Holds(PushGrantRules[1], Alone(v)) && Holds(PushGrantRules[2], Alone(v))
  {
  }

  lemma ThreePass(rules: seq<Rule>, v: View)
    requires |rules| == 3 && Holds(rules[0], Alone(v)) && Holds(rules[1], Alone(v)) && Holds(rules[2], Alone(v))
    ensures Passed(rules, v)
  {
  }

  predicate RepoLike(data: View) {
    WellKinded(data) && Get(data, visibility) == Some(Public) && Get(data, repoName) == Some(Text("a")) && forkOf !in data
  }

  predicate RowLike(data: View) {
    && WellKinded(data) && Get(data, repoId) == Some(Ident(0)) && Get(data, memberId) == Some(Ident(1))
    && Get(data, vis) == Some(Public) && consentBy !in data
  }

  predicate GrantLike(data: View) {
    && WellKinded(data) && Get(data, repoId) == Some(Ident(0)) && Get(data, botId) == Some(Ident(1))
    && Get(data, until) == Some(Int(1)) && scope !in data && Get(data, prefix) == Some(Text("refs/heads/"))
  }

  lemma RepoStands(id: nat, data: View)
    requires RepoLike(data)
    ensures Standing(RepoSchema, Stamped(id, data))
  {
    Shape(id, data, {repoName, visibility});
    Gets(id, data);
    RepoPasses(Stamped(id, data));
    StandsFrom(RepoSchema, Stamped(id, data));
  }

  lemma MaintainerStands(id: nat, data: View)
    requires RowLike(data)
    ensures Standing(MaintainerSchema, Stamped(id, data))
  {
    Shape(id, data, {repoId, memberId, vis});
    Gets(id, data);
    RowPasses(Stamped(id, data));
    StandsFrom(MaintainerSchema, Stamped(id, data));
  }

  lemma BotStands(id: nat, data: View)
    requires RowLike(data) && Get(data, role) == Some(Int(4))
    ensures Standing(WriterSchema, Stamped(id, data))
  {
    Shape(id, data, {repoId, memberId, vis, role});
    Gets(id, data);
    RowPasses(Stamped(id, data));
    RolePasses(Stamped(id, data));
    StandsFrom(WriterSchema, Stamped(id, data));
  }

  lemma GrantPasses(v: View)
    requires Get(v, createdAt) == Some(Int(0)) && Get(v, until) == Some(Int(1)) && scope !in v && Get(v, prefix) == Some(Text("refs/heads/"))
    ensures Passed(PushGrantSchema.bounds, v) && Passed(PushGrantRules, v)
  {
    GrantTimes(v);
    GrantScopes(v);
    ThreePass(PushGrantRules, v);
  }

  lemma GrantStands(id: nat, data: View)
    requires GrantLike(data)
    ensures Standing(PushGrantSchema, Stamped(id, data))
  {
    Shape(id, data, {repoId, botId, until});
    Gets(id, data);
    GrantPasses(Stamped(id, data));
    StandsFrom(PushGrantSchema, Stamped(id, data));
  }

  // ---- what they refer to -------------------------------------------------------------------------------------

  predicate IsRepo(d: Doc) {
    d.live && d.typ == Repo && Get(d.view, docId) == Some(Ident(0)) && Get(d.view, ownerId) == Some(Ident(1)) && Get(d.view, visibility) == Some(Public)
  }

  predicate IsRow(d: Doc, t: DocType) {
    Row(d, t, Some(Ident(0)), Some(Ident(1))) && Get(d.view, ownerId) == Some(Ident(1)) && Get(d.view, vis) == Some(Public) && consentBy !in d.view
  }

  lemma RowRefers(docs: seq<Doc>, me: View)
    requires |docs| > 0 && IsRepo(docs[0]) && Get(me, repoId) == Some(Ident(0)) && Get(me, ownerId) == Some(Ident(1))
    requires Get(me, vis) == Some(Public) && consentBy !in me
    ensures PropertyRefers(docs, me, MemberRefs[0]) && PropertyRefers(docs, me, MemberRefs[1])
  {
    var conds := [(ownerId, Agrees(ownerId)), (visibility, Agrees(vis))];
    assert Serves(docs[0], ById(Repo, conds), Get(me, repoId), me);
    Through(docs, [ById(Repo, conds)], 0, 0, Get(me, repoId), me);
  }

  lemma RowReady(sch: TypeSchema, docs: seq<Doc>, d: Doc)
    requires Standing(sch, d.view) && sch.refs == MemberRefs && sch.chainRules == [] && sch.ownerRef == []
    requires |docs| > 0 && IsRepo(docs[0]) && IsRow(d, d.typ) && forall j | 0 <= j < |docs| :: docs[j].typ != d.typ
    ensures Ready(sch, docs, d)
  {
    RowRefers(docs, d.view);
    assert |MemberRefs| == 2;
  }

  lemma GrantReady(sch: TypeSchema, docs: seq<Doc>, d: Doc)
    requires Standing(sch, d.view) && sch.chainRules == [] && sch.ownerRef == [Member(Maintainer, [])]
    requires sch.refs == [(botId, [Member(Writer, [(role, IsValue(Int(4)))])])]
    requires |docs| == 3 && IsRow(docs[1], Maintainer) && IsRow(docs[2], Writer) && Get(docs[2].view, role) == Some(Int(4))
    requires Get(d.view, repoId) == Some(Ident(0)) && Get(d.view, ownerId) == Some(Ident(1)) && Get(d.view, botId) == Some(Ident(1))
    requires forall j | 0 <= j < |docs| :: docs[j].typ != d.typ
    ensures Ready(sch, docs, d)
  {
    var me, conds := d.view, [(role, IsValue(Int(4)))];
    RowServes(docs[1], Maintainer, [], Some(Ident(1)), me);
    Through(docs, [Member(Maintainer, [])], 0, 1, Some(Ident(1)), me);
    RowServes(docs[2], Writer, conds, Some(Ident(1)), me);
    Through(docs, [Member(Writer, conds)], 0, 2, Some(Ident(1)), me);
  }

  // ---- the run ---------------------------------------------------------------------------------------------------

  predicate IsGrant(d: Doc) {
    && d.live && d.typ == PushGrant && Get(d.view, repoId) == Some(Ident(0)) && Get(d.view, ownerId) == Some(Ident(1))
    && Get(d.view, botId) == Some(Ident(1)) && IntOf(d.view, until) >= 0 && Get(d.view, prefix) == Some(Text("refs/heads/"))
  }

  /** The four documents of the log. */
  predicate Four(docs: seq<Doc>) {
    && |docs| == 4 && IsRepo(docs[0]) && forkOf !in docs[0].view && IsRow(docs[1], Maintainer)
    && IsRow(docs[2], Writer) && Get(docs[2].view, role) == Some(Int(4)) && IsGrant(docs[3])
  }

  /** The operation `n` is the owner's create of document `n`. */
  predicate WrittenAs(docs: seq<Doc>, ops: seq<Op>, n: nat) {
    n < |docs| && n < |ops| && ops[n].Create? && ops[n].signer == 1 && docs[n] == Doc(ops[n].typ, Stamped(n, ops[n].data), true)
  }

  lemma RepoWrites(C: Contract, docs: seq<Doc>, ops: seq<Op>)
    requires C(Repo) == RepoSchema && Four(docs) && WrittenAs(docs, ops, 0) && Standing(RepoSchema, docs[0].view)
    ensures Writes(C, docs, ops, 0)
  {
    assert |RepoSchema.refs| == 1 && RepoSchema.refs[0].0 == forkOf;
  }

  lemma RowWrites(C: Contract, docs: seq<Doc>, ops: seq<Op>, n: nat, sch: TypeSchema)
    requires 1 <= n <= 2 && Four(docs) && C(docs[n].typ) == sch && WrittenAs(docs, ops, n) && Standing(sch, docs[n].view)
    requires sch.refs == MemberRefs && sch.chainRules == [] && sch.ownerRef == []
    ensures Writes(C, docs, ops, n)
  {
    FirstOfIts(docs, n);
    RowReady(sch, docs[..n], docs[n]);
  }

  lemma FirstOfIts(docs: seq<Doc>, n: nat)
    requires 1 <= n <= 2 && Four(docs)
    ensures docs[..n][0] == docs[0] && IsRow(docs[n], docs[n].typ) && forall j | 0 <= j < |docs[..n]| :: docs[..n][j].typ != docs[n].typ
  {
  }

  lemma GrantWrites(C: Contract, docs: seq<Doc>, ops: seq<Op>, sch: TypeSchema)
    requires C(PushGrant) == sch && Four(docs) && WrittenAs(docs, ops, 3) && Standing(sch, docs[3].view)
    requires sch.chainRules == [] && sch.ownerRef == [Member(Maintainer, [])]
    requires sch.refs == [(botId, [Member(Writer, [(role, IsValue(Int(4)))])])]
    ensures Writes(C, docs, ops, 3)
  {
    GrantReady(sch, docs[..3], docs[3]);
  }

  predicate Registered(C: Contract) {
    C(Repo) == RepoSchema && C(Maintainer) == MaintainerSchema && C(Writer) == WriterSchema && C(PushGrant) == PushGrantSchema
  }

  lemma ForgeRegistered()
    ensures Registered(Forge)
  {
  }

  /** The owner's four creates, as far as their data matters, and the log they leave. */
  predicate Told(docs: seq<Doc>, ops: seq<Op>) {
    && |docs| == |ops| == 4
    && WrittenAs(docs, ops, 0) && ops[0].typ == Repo && RepoLike(ops[0].data)
    && WrittenAs(docs, ops, 1) && ops[1].typ == Maintainer && RowLike(ops[1].data)
    && WrittenAs(docs, ops, 2) && ops[2].typ == Writer && RowLike(ops[2].data) && Get(ops[2].data, role) == Some(Int(4))
    && WrittenAs(docs, ops, 3) && ops[3].typ == PushGrant && GrantLike(ops[3].data)
  }

  lemma Ends<T>(s: seq<T>)
    ensures s[..0] == [] && s[..|s|] == s
  {
  }

  lemma {:induction false} After0(C: Contract, docs: seq<Doc>, ops: seq<Op>)
    ensures Run(C, ops[..0]) == State(docs[..0], 0)
  {
    Ends(ops);
    Ends(docs);
  }

  lemma RepoFirst(C: Contract, docs: seq<Doc>, ops: seq<Op>)
    requires Registered(C) && Four(docs) && Told(docs, ops)
    ensures Writes(C, docs, ops, 0)
  {
    RepoStands(0, ops[0].data);
    RepoWrites(C, docs, ops);
  }

  lemma {:induction false} After1(C: Contract, docs: seq<Doc>, ops: seq<Op>)
    requires Registered(C) && Four(docs) && Told(docs, ops)
    ensures Run(C, ops[..1]) == State(docs[..1], 0)
  {
    After0(C, docs, ops);
    RepoFirst(C, docs, ops);
    OneMore(C, docs, ops, 0);
  }

  lemma {:induction false} After2(C: Contract, docs: seq<Doc>, ops: seq<Op>)
    requires Registered(C) && Four(docs) && Told(docs, ops)
    ensures Run(C, ops[..2]) == State(docs[..2], 0)
  {
    After1(C, docs, ops);
    MaintainerStands(1, ops[1].data);
    RowWrites(C, docs, ops, 1, MaintainerSchema);
    OneMore(C, docs, ops, 1);
  }

  lemma {:induction false} After3(C: Contract, docs: seq<Doc>, ops: seq<Op>)
    requires Registered(C) && Four(docs) && Told(docs, ops)
    ensures Run(C, ops[..3]) == State(docs[..3], 0)
  {
    After2(C, docs, ops);
    BotStands(2, ops[2].data);
    RowWrites(C, docs, ops, 2, WriterSchema);
    OneMore(C, docs, ops, 2);
  }

  lemma {:induction false} After4(C: Contract, docs: seq<Doc>, ops: seq<Op>)
    requires Registered(C) && Four(docs) && Told(docs, ops)
    ensures Run(C, ops[..4]) == State(docs[..4], 0)
  {
    After3(C, docs, ops);
    GrantStands(3, ops[3].data);
    GrantWrites(C, docs, ops, PushGrantSchema);
    OneMore(C, docs, ops, 3);
  }

  lemma RepoIs(data: View)
    requires RepoLike(data)
    ensures var d := Doc(Repo, Stamped(0, data), true); IsRepo(d) && forkOf !in d.view
  {
    Gets(0, data);
  }

  lemma RowIs(id: nat, t: DocType, data: View)
    requires RowLike(data)
    ensures var d := Doc(t, Stamped(id, data), true); IsRow(d, t) && Get(d.view, role) == Get(data, role)
  {
    Gets(id, data);
  }

  lemma GrantIs(data: View)
    requires GrantLike(data)
    ensures IsGrant(Doc(PushGrant, Stamped(3, data), true))
  {
    Gets(3, data);
  }

  lemma ToldFour(docs: seq<Doc>, ops: seq<Op>)
    requires Told(docs, ops)
    ensures Four(docs)
  {
    RepoIs(ops[0].data);
    RowIs(1, Maintainer, ops[1].data);
    RowIs(2, Writer, ops[2].data);
    GrantIs(ops[3].data);
  }

  lemma FourGrant(docs: seq<Doc>, name: string)
    requires Four(docs) && "refs/heads/" <= name
    ensures Enrolled(docs, 0, 1, 1) && LiveGrant(docs, 0, 0, 1, 1, 3, name)
  {
    assert Row(docs[1], Maintainer, Some(Ident(0)), Some(Ident(1)));
    assert Row(docs[2], Writer, Some(Ident(0)), Some(Ident(1)));
  }

  lemma {:induction false} ToldRuns(C: Contract, docs: seq<Doc>, ops: seq<Op>)
    requires |ops| == |docs| == 4 && Run(C, ops[..4]) == State(docs[..4], 0)
    ensures Run(C, ops) == State(docs, 0)
  {
    Ends(ops);
    Ends(docs);
  }

  lemma RepoDataLike()
    ensures RepoLike(RepoData)
  {
  }

  lemma RowsLike()
    ensures RowLike(MaintainerData) && RowLike(BotData)
  {
  }

  lemma GrantDataLike()
    ensures GrantLike(GrantData)
  {
  }

  lemma OpsTold(docs: seq<Doc>)
    requires |docs| == 4 && forall n | 0 <= n < 4 :: WrittenAs(docs, Ops, n)
    ensures Told(docs, Ops)
  {
    RepoDataLike();
    RowsLike();
    GrantDataLike();
  }

  /** Four writes after which the owner, as a bot, may push any branch. */
  lemma {:induction false} GrantsAreReachable(name: string)
    requires "refs/heads/" <= name
    ensures var s := Run(Forge, Ops); Enrolled(s.docs, 0, 1, 1) && LiveGrant(s.docs, s.now, 0, 1, 1, 3, name)
  {
    var docs := seq(4, n requires 0 <= n < 4 => Doc(Ops[n].typ, Stamped(n, Ops[n].data), true));
    OpsTold(docs);
    ToldFour(docs, Ops);
    ForgeRegistered();
    After4(Forge, docs, Ops);
    ToldRuns(Forge, docs, Ops);
    FourGrant(docs, name);
  }
}
