/** While a repository is private, nothing written in it carries plaintext; and a repository that
    is public stays public. No rule says this by itself: it takes one-way visibility, the stamp
    `vis` proved against the repo when a document is created, the freeze of that stamp, and the
    rules that tie the stamp to sealing and sealing to the absence of plaintext. */
module Privacy {
  import opened Rules
  import opened Chain
  import opened ForgeContracts

  // ---- one-way visibility ---------------------------------------------------------------------

  predicate StaysPublic(a: Doc, b: Doc) {
    a.typ == Repo ==> b.typ == Repo && (Get(a.view, visibility) == Some(Public) ==> Get(b.view, visibility) == Some(Public))
  }

  lemma VisibilityFrozen(env: Env)
    requires FreezeKept(RepoFrozen, env) && Get(env.prev.value, visibility) == Some(Public)
    ensures Get(env.me, visibility) == Some(Public)
  {
    assert RepoFrozen[2] == Frozen(visibility, Equal(OldProp(visibility), Lit(Public)));
  }

  lemma ReplaceCase(C: Contract, t: DocType, was: View, me: View, env: Env)
    requires C(Repo).frozen == RepoFrozen && ReplaceStands(C(t), was, me, env)
    ensures StaysPublic(Doc(t, was, true), Doc(t, me, true))
  {
    if t == Repo && Get(was, visibility) == Some(Public) { VisibilityFrozen(env); }
  }

  lemma StaysPublicInductive(C: Contract)
    requires C(Repo).frozen == RepoFrozen
    ensures Inductive(C, StaysPublic)
  {
    forall t, was, me, env | ReplaceStands(C(t), was, me, env) ensures StaysPublic(Doc(t, was, true), Doc(t, me, true)) {
      ReplaceCase(C, t, was, me, env);
    }
  }

  lemma RepoVisibility(v: View)
    requires Standing(RepoSchema, v)
    ensures Get(v, visibility) in {Some(Public), Some(Private)}
  {
    assert RepoSchema.bounds[0] == In(Prop(visibility), [Public, Private]);
  }

  /** Over any run a repository's visibility is private, then public: a repo private at the end
      was private at every earlier moment. */
  lemma {:induction false} VisibilityOneWay(ops: seq<Op>, k: nat, i: nat)
    requires k <= |ops| && i < |Run(Forge, ops[..k]).docs| && Run(Forge, ops[..k]).docs[i].typ == Repo
    ensures i < |Run(Forge, ops).docs|
    ensures var before, after := Get(Run(Forge, ops[..k]).docs[i].view, visibility), Get(Run(Forge, ops).docs[i].view, visibility);
            && before in {Some(Public), Some(Private)} && after in {Some(Public), Some(Private)}
            && (before == Some(Public) ==> after == Some(Public))
            && (after == Some(Private) ==> before == Some(Private))
  {
    StaysPublicInductive(Forge);
    OverRun(Forge, StaysPublic, ops, k, i);
    RunSound(Forge, ops[..k]);
    RunSound(Forge, ops);
    RepoVisibility(Run(Forge, ops[..k]).docs[i].view);
    RepoVisibility(Run(Forge, ops).docs[i].view);
  }

  // ---- the stamp ------------------------------------------------------------------------------

  predicate Stamped(t: DocType) {
    t in {RefUpdate, ProtectedRefUpdate, Config, Release, Issue, Patch, Comment, Review, CheckRun}
  }

  /** The plaintext each stamped type may carry only in a public repository. */
  function PlainFields(t: DocType): set<Field> {
    match t
    case RefUpdate => {refName}
    case ProtectedRefUpdate => {refName}
    case Config => {defaultBranch, protectedPatterns, movedTo}
    case Release => {releaseName, notes, assets, assetManifest}
    case Issue => {title, body, importedAuthor, importedUrl}
    case Patch => {title, body, baseRefName, sourceRefName, importedAuthor, importedUrl}
    case Comment => {body, path, importedAuthor, importedUrl, diffHunk}
    case Review => {body, importedAuthor, importedUrl}
    case CheckRun => {summary, detailsUrl, artifacts, externalId}
    case _ => {}
  }

  /** A stamped document names a repository of the log, and is stamped private if that is private. */
  predicate StampAgrees(docs: seq<Doc>, d: Doc) {
    Stamped(d.typ) ==>
      && repoId in d.view && d.view[repoId].Ident? && d.view[repoId].id < |docs| && docs[d.view[repoId].id].typ == Repo
      && (Get(docs[d.view[repoId].id].view, visibility) != Some(Public) ==> Get(d.view, vis) == Some(Private))
  }

  ghost predicate AllStamped(s: State) {
    forall i | 0 <= i < |s.docs| :: StampAgrees(s.docs, s.docs[i])
  }

  lemma RepoRefIsFirst(t: DocType)
    requires Stamped(t)
    ensures |Forge(t).refs| > 0 && Forge(t).refs[0] == (repoId, RepoVis)
    ensures {repoId, vis} <= Forge(t).required
    ensures |Forge(t).bounds| > 0 && Forge(t).bounds[0] == VisEnum
  {
  }

  lemma VisKnown(sch: TypeSchema, v: View)
    requires Passed(sch.bounds, v) && |sch.bounds| > 0 && sch.bounds[0] == VisEnum
    ensures Get(v, vis) in {Some(Public), Some(Private)}
  {
    assert Holds(VisEnum, Alone(v));
  }

  lemma RepoFound(docs: seq<Doc>, me: View)
    requires IdsArePositions(docs) && Refers(docs, RepoVis, Get(me, repoId), me)
    ensures repoId in me && me[repoId].Ident? && me[repoId].id < |docs| && docs[me[repoId].id].typ == Repo
    ensures Get(docs[me[repoId].id].view, visibility) == Get(me, vis)
  {
    var conds := [(visibility, Agrees(vis))];
    assert RepoVis == [Leaf(Repo, [(docId, Own)], conds)];
    var p := FoundById(docs, Repo, conds, Get(me, repoId), me);
    assert conds[0] == (visibility, Agrees(vis));
  }

  lemma CreateStamped(s: State, signer: nat, t: DocType, data: View)
    requires Sound(Forge, s) && AcceptsCreate(Forge, s, signer, t, data)
    ensures StampAgrees(s.docs, Doc(t, CreatedView(s, signer, data), true))
  {
    if Stamped(t) {
      var me := CreatedView(s, signer, data);
      RepoRefIsFirst(t);
      CreateRefers(Forge, s, signer, t, data, 0);
      CreatedStands(Forge, s, signer, t, data);
      SoundIds(Forge, s);
      RepoFound(s.docs, me);
      VisKnown(Forge(t), me);
    }
  }

  lemma StampFrozen(t: DocType)
    requires Stamped(t) && Forge(t).mutable
    ensures FrozenOutright(Forge(t), repoId) && FrozenOutright(Forge(t), vis)
  {
    match t
    case Issue => assert IssueFrozen[0] == Frozen(repoId, True) && IssueFrozen[4] == Frozen(vis, True);
    case Patch => assert PatchFrozen[0] == Frozen(repoId, True) && PatchFrozen[8] == Frozen(vis, True);
    case Comment => assert CommentFrozen[0] == Frozen(repoId, True) && CommentFrozen[8] == Frozen(vis, True);
    case CheckRun => assert CheckRunFrozen[0] == Frozen(repoId, True) && CheckRunFrozen[3] == Frozen(vis, True);
    case _ =>
  }

  /** What agreed keeps agreeing as documents evolve. */
  lemma AgreesOn(docs: seq<Doc>, after: seq<Doc>, i: nat)
    requires i < |docs| <= |after| && StampAgrees(docs, docs[i])
    requires forall j | 0 <= j < |docs| :: Evolves(Forge, docs[j], after[j]) && StaysPublic(docs[j], after[j])
    ensures StampAgrees(after, after[i])
  {
    var d := docs[i];
    assert Evolves(Forge, d, after[i]);
    if Stamped(d.typ) {
      if Forge(d.typ).mutable { StampFrozen(d.typ); }
      assert Get(d.view, repoId) == Get(after[i].view, repoId) && Get(d.view, vis) == Get(after[i].view, vis);
      assert StaysPublic(docs[d.view[repoId].id], after[d.view[repoId].id]);
    }
  }

  lemma StepStamped(s: State, op: Op)
    requires Sound(Forge, s) && AllStamped(s)
    ensures AllStamped(Apply(Forge, s, op))
  {
    var after := Apply(Forge, s, op).docs;
    StepGrows(Forge, s, op);
    StaysPublicInductive(Forge);
    forall j | 0 <= j < |s.docs| ensures StaysPublic(s.docs[j], after[j]) { StepKeeps(Forge, StaysPublic, s, op, j); }
    forall i | 0 <= i < |after| ensures StampAgrees(after, after[i]) {
      if i < |s.docs| {
        AgreesOn(s.docs, after, i);
      } else {
        CreateStamped(s, op.signer, op.typ, op.data);
      }
    }
  }

  lemma {:induction false} RunStamped(ops: seq<Op>)
    ensures AllStamped(Run(Forge, ops))
  {
    if ops != [] {
      RunStamped(ops[..|ops| - 1]);
      RunSound(Forge, ops[..|ops| - 1]);
      StepStamped(Run(Forge, ops[..|ops| - 1]), ops[|ops| - 1]);
    }
  }

  // ---- no plaintext under a private stamp --------------------------------------------------------

  lemma {:induction false} CoreSealed(rules: seq<Rule>, plain: Rule, v: View)
    requires Passed(rules, v) && |rules| > 0 && rules[0] == NoPlainCore(plain) && Get(v, vis) == Some(Private)
    ensures Holds(plain, Alone(v))
  {
    var open := And(Absent(enc), IsPublic);
    assert !Holds(open, Alone(v));
    assert rules[0] == Or(open, plain);
  }

  lemma AudienceIsSealed(rules: seq<Rule>, k: nat, v: View)
    requires Passed(rules, v) && Complete(SealedDependent, v)
    requires k < |rules| && rules[k] == SealedIfPrivate && Get(v, vis) == Some(Private)
    ensures enc in v
  {
    assert Holds(rules[k], Alone(v));
    assert SealedDependent[2] == (aud, enc);
  }

  lemma {:induction false} CollabSealed(rules: seq<Rule>, plain: Rule, k: nat, v: View)
    requires Passed(rules, v) && Complete(SealedDependent, v)
    requires |rules| > 0 && rules[0] == Or(Absent(enc), plain)
    requires k < |rules| && rules[k] == SealedIfPrivate && Get(v, vis) == Some(Private)
    ensures Holds(plain, Alone(v))
  {
    AudienceIsSealed(rules, k, v);
    assert !Holds(Absent(enc), Alone(v));
  }

  lemma RefSealed(rules: seq<Rule>, v: View)
    requires rules == RefUpdateSchema.rules || rules == ProtectedRefUpdateSchema.rules
    requires Passed(rules, v) && Get(v, vis) == Some(Private)
    ensures refName !in v
  {
    CoreSealed(rules, Absent(refName), v);
  }

  lemma ConfigSealed(v: View)
    requires Passed(ConfigRules, v) && Get(v, vis) == Some(Private)
    ensures forall f | f in PlainFields(Config) :: f !in v
  {
    CoreSealed(ConfigRules, AllAbsent([defaultBranch, protectedPatterns, movedTo]), v);
  }

  lemma ReleaseSealed(v: View)
    requires Passed(ReleaseRules, v) && Get(v, vis) == Some(Private)
    ensures forall f | f in PlainFields(Release) :: f !in v
  {
    CoreSealed(ReleaseRules, AllAbsent([releaseName, notes, assets, assetManifest]), v);
  }

  lemma IssueSealed(v: View)
    requires Passed(IssueRules, v) && Complete(SealedDependent, v) && Get(v, vis) == Some(Private)
    ensures forall f | f in PlainFields(Issue) :: f !in v
  {
    CollabSealed(IssueRules, AllAbsent([title, body, importedAuthor, importedUrl]), 2, v);
  }

  lemma PatchSealed(v: View)
    requires Passed(PatchRules, v) && Complete(SealedDependent, v) && Get(v, vis) == Some(Private)
    ensures forall f | f in PlainFields(Patch) :: f !in v
  {
    CollabSealed(PatchRules, AllAbsent([title, body, baseRefName, sourceRefName, importedAuthor, importedUrl]), 2, v);
  }

  lemma CommentSealed(v: View)
    requires Passed(CommentRules, v) && Complete(SealedDependent, v) && Get(v, vis) == Some(Private)
    ensures forall f | f in PlainFields(Comment) :: f !in v
  {
    CollabSealed(CommentRules, AllAbsent([body, path, importedAuthor, importedUrl, diffHunk]), 2, v);
  }

  lemma ReviewSealed(v: View)
    requires Passed(ReviewRules, v) && Complete(SealedDependent, v) && Get(v, vis) == Some(Private)
    ensures forall f | f in PlainFields(Review) :: f !in v
  {
    CollabSealed(ReviewRules, AllAbsent([body, importedAuthor, importedUrl]), 1, v);
  }

  lemma CheckRunSealed(v: View)
    requires Passed(CheckRunRules, v) && Get(v, vis) == Some(Private)
    ensures forall f | f in PlainFields(CheckRun) :: f !in v
  {
    assert CheckRunRules[11] == Or(And(NotPrivate, Absent(aud)), AllAbsent([summary, detailsUrl, artifacts, externalId]));
  }

  lemma CodeSealed(t: DocType, v: View)
    requires t in {RefUpdate, ProtectedRefUpdate, Config, Release, CheckRun} && Standing(Forge(t), v) && Get(v, vis) == Some(Private)
    ensures forall f | f in PlainFields(t) :: f !in v
  {
    match t
    case RefUpdate => RefSealed(RefUpdateSchema.rules, v);
    case ProtectedRefUpdate => RefSealed(ProtectedRefUpdateSchema.rules, v);
    case Config => ConfigSealed(v);
    case Release => ReleaseSealed(v);
    case CheckRun => CheckRunSealed(v);
  }

  lemma WorkSealed(t: DocType, v: View)
    requires t in {Issue, Patch, Comment, Review} && Standing(Forge(t), v) && Get(v, vis) == Some(Private)
    ensures forall f | f in PlainFields(t) :: f !in v
  {
    match t
    case Issue => IssueSealed(v);
    case Patch => PatchSealed(v);
    case Comment => CommentSealed(v);
    case Review => ReviewSealed(v);
  }

  lemma PrivateStampSealed(t: DocType, v: View)
    requires Stamped(t) && Standing(Forge(t), v) && Get(v, vis) == Some(Private)
    ensures forall f | f in PlainFields(t) :: f !in v
  {
    if t in {Issue, Patch, Comment, Review} {
      WorkSealed(t, v);
    } else {
      CodeSealed(t, v);
    }
  }

  /** In every reachable state: a document of a private repository carries no plaintext field. */
  lemma {:induction false} PrivateReposHoldNoPlaintext(ops: seq<Op>, i: nat, repo: nat)
    requires var docs := Run(Forge, ops).docs;
             && i < |docs| && repo < |docs| && Stamped(docs[i].typ)
             && Get(docs[i].view, repoId) == Some(Ident(repo))
             && Get(docs[repo].view, visibility) == Some(Private)
    ensures forall f | f in PlainFields(Run(Forge, ops).docs[i].typ) :: f !in Run(Forge, ops).docs[i].view
  {
    var s := Run(Forge, ops);
    RunStamped(ops);
    RunSound(Forge, ops);
    assert StampAgrees(s.docs, s.docs[i]);
    assert StoredAt(Forge(s.docs[i].typ), s.docs[i].view, i, s.now);
    PrivateStampSealed(s.docs[i].typ, s.docs[i].view);
  }

  // ---- the one way is open ----------------------------------------------------------------------

  /** The repo as its owner would replace it to make it public. */
  function MadePublic(v: View): View {
    v[visibility := Public]
  }

  lemma RepoRulesPass(v: View, me: View)
    requires Passed(RepoRules, v) && Get(me, visibility) == Some(Public) && Get(me, repoName) == Get(v, repoName)
    ensures Passed(RepoRules, me)
  {
    var name := EndsWith(Prop(repoName), Lit(Text(".git")));
    assert RepoRules[2] == Not(name) && Holds(RepoRules[2], Alone(v));
    PublicPasses(me);
    NameRule(name, v, me);
    assert |RepoRules| == 3;
  }

  lemma PublicPasses(me: View)
    requires Get(me, visibility) == Some(Public)
    ensures Holds(RepoRules[0], Alone(me)) && Holds(RepoRules[1], Alone(me))
  {
    var public := Equal(Prop(visibility), Lit(Public));
    assert Holds(public, Alone(me));
    assert RepoRules[0] == Or(Absent(forkOf), public) && RepoRules[1] == Or(public, Absent(defaultBranch));
  }

  lemma {:induction false} NameRule(name: Rule, v: View, me: View)
    requires name == EndsWith(Prop(repoName), Lit(Text(".git"))) && Get(me, repoName) == Get(v, repoName)
    ensures Holds(Not(name), Alone(me)) <==> Holds(Not(name), Alone(v))
  {
    assert Eval(Prop(repoName), Alone(v)) == Eval(Prop(repoName), Alone(me));
  }

  lemma PublicStands(sch: TypeSchema, v: View, me: View)
    requires Standing(sch, v) && me.Keys == v.Keys && WellKinded(me) && Get(me, visibility) == Some(Public) && Get(me, repoName) == Get(v, repoName)
    requires sch.rules == RepoRules && sch.dependent == [] && Passed(sch.bounds, me)
    ensures Standing(sch, me)
  {
    RepoRulesPass(v, me);
  }

  lemma VisibilityBound(me: View)
    requires Get(me, visibility) == Some(Public)
    ensures Passed(RepoSchema.bounds, me)
  {
    assert RepoSchema.bounds == [In(Prop(visibility), [Public, Private])];
    assert Public in [Public, Private];
  }

  lemma PrivateHasNoSource(v: View)
    requires Standing(RepoSchema, v) && Get(v, visibility) == Some(Private)
    ensures forkOf !in v
  {
    assert Holds(RepoRules[0], Alone(v));
  }

  lemma NameFree(C: Contract, s: State, at: nat, me: View)
    requires C(Repo) == RepoSchema && UniqueKeys(C, s.docs) && at < |s.docs| && s.docs[at].live && s.docs[at].typ == Repo
    requires Get(me, ownerId) == Get(s.docs[at].view, ownerId) && Get(me, repoName) == Get(s.docs[at].view, repoName)
    ensures Unclaimed(RepoSchema, s.docs, Repo, me, at)
  {
    var key := [ownerId, repoName];
    assert RepoSchema.unique == [key];
    forall j | 0 <= j < |s.docs| && j != at && s.docs[j].live && s.docs[j].typ == Repo ensures !SameKey(s.docs[j].view, me, key) {
      assert !SameKey(s.docs[j].view, s.docs[at].view, C(s.docs[j].typ).unique[0]);
      KeyCarries(s.docs[j].view, s.docs[at].view, me, key);
    }
  }

  lemma KeyCarries(other: View, was: View, me: View, key: seq<Field>)
    requires forall k | 0 <= k < |key| :: Get(me, key[k]) == Get(was, key[k])
    ensures SameKey(other, me, key) <==> SameKey(other, was, key)
  {
  }

  /** An accepted replace of a type whose owner needs no reference, when the references it has are absent. */
  lemma ReplaceAccepted(C: Contract, s: State, signer: nat, at: nat, data: View, sch: TypeSchema)
    requires at < |s.docs| && s.docs[at].live && C(s.docs[at].typ) == sch && Get(s.docs[at].view, ownerId) == Some(Ident(signer))
    requires sch.mutable && sch.chainRules == [] && sch.ownerRef == []
    requires var me := ReplacedView(s, at, data);
      && Standing(sch, me) && Unclaimed(sch, s.docs, s.docs[at].typ, me, at)
      && FreezeKept(sch.frozen, Env(s.docs[at := Doc(s.docs[at].typ, me, true)], me, Some(s.docs[at].view)))
      && (forall k | 0 <= k < |sch.refs| :: sch.refs[k].0 !in me)
    ensures AcceptsReplace(C, s, signer, at, data)
  {
  }

  lemma OpenedFits(C: Contract, s: State, at: nat, was: View, me: View)
    requires C(Repo) == RepoSchema && UniqueKeys(C, s.docs) && Standing(RepoSchema, was) && Get(was, visibility) == Some(Private)
    requires at < |s.docs| && s.docs[at] == Doc(Repo, was, true) && me == ReplacedView(s, at, MadePublic(was))
    ensures Standing(RepoSchema, me) && Unclaimed(RepoSchema, s.docs, Repo, me, at) && forkOf !in me
    ensures FreezeKept(RepoFrozen, Env(s.docs[at := Doc(Repo, me, true)], me, Some(was)))
  {
    OpenedView(s, at, was, me);
    OpenedStands(was, me);
    PrivateHasNoSource(was);
    NameFree(C, s, at, me);
    OpeningKeepsFreeze(s, was, me, at);
  }

  /** The replace that opens a private repo asks nothing its stored view does not give. */
  lemma OpeningAccepted(C: Contract, s: State, at: nat, signer: nat, was: View)
    requires C(Repo) == RepoSchema && UniqueKeys(C, s.docs) && Standing(RepoSchema, was)
    requires at < |s.docs| && s.docs[at] == Doc(Repo, was, true)
    requires Get(was, visibility) == Some(Private) && Get(was, ownerId) == Some(Ident(signer))
    ensures AcceptsReplace(C, s, signer, at, MadePublic(was))
  {
    OpenedFits(C, s, at, was, ReplacedView(s, at, MadePublic(was)));
    RepoNeedsNothing();
    ReplaceAccepted(C, s, signer, at, MadePublic(was), RepoSchema);
  }

  lemma OpenedStands(was: View, me: View)
    requires Standing(RepoSchema, was) && me.Keys == was.Keys && WellKinded(me)
    requires Get(me, visibility) == Some(Public) && Get(me, repoName) == Get(was, repoName)
    ensures Standing(RepoSchema, me)
  {
    VisibilityBound(me);
    PublicStands(RepoSchema, was, me);
  }

  /** Nothing but its owner's will keeps a repository private: in every reachable state the owner's
      replace of a private repo by the same repo made public is accepted. */
  lemma {:induction false} OwnerMayOpen(ops: seq<Op>, at: nat, signer: nat)
    requires at < |Run(Forge, ops).docs| && Run(Forge, ops).docs[at].live && Run(Forge, ops).docs[at].typ == Repo
    requires Get(Run(Forge, ops).docs[at].view, visibility) == Some(Private)
    requires Get(Run(Forge, ops).docs[at].view, ownerId) == Some(Ident(signer))
    ensures AcceptsReplace(Forge, Run(Forge, ops), signer, at, MadePublic(Run(Forge, ops).docs[at].view))
  {
    var s := Run(Forge, ops);
    RunSound(Forge, ops);
    SoundStands(Forge, s, at, RepoSchema);
    OpeningAccepted(Forge, s, at, signer, s.docs[at].view);
  }

  lemma RepoNeedsNothing()
    ensures RepoSchema.mutable && RepoSchema.chainRules == [] && RepoSchema.ownerRef == [] && RepoSchema.frozen == RepoFrozen
    ensures |RepoSchema.refs| == 1 && RepoSchema.refs[0].0 == forkOf
  {
  }

  lemma OpenedView(s: State, at: nat, was: View, me: View)
    requires at < |s.docs| && was == s.docs[at].view && me == ReplacedView(s, at, MadePublic(was))
    requires WellKinded(was) && {docId, ownerId, createdAt, updatedAt, revision, visibility} <= was.Keys
    ensures me.Keys == was.Keys && WellKinded(me) && Get(me, visibility) == Some(Public)
    ensures Get(me, repoName) == Get(was, repoName) && Get(me, forkOf) == Get(was, forkOf) && Get(me, ownerId) == Get(was, ownerId)
  {
    OpenedGets(s, at, was, me);
    forall f | f in me ensures KindOfValue(me[f]) == KindOf(f) {
      assert Get(me, f) == Some(me[f]) && f in was;
    }
  }

  lemma OpenedGets(s: State, at: nat, was: View, me: View)
    requires at < |s.docs| && was == s.docs[at].view && me == ReplacedView(s, at, MadePublic(was))
    requires {docId, ownerId, createdAt, updatedAt, revision, visibility} <= was.Keys
    ensures me.Keys == was.Keys && Get(me, visibility) == Some(Public)
    ensures Get(me, docId) == Some(Ident(at)) && Get(me, updatedAt) == Some(Int(s.now)) && Get(me, revision) == Some(Int(IntOf(was, revision) + 1))
    ensures forall f | f !in {docId, visibility, updatedAt, revision} :: Get(me, f) == Get(was, f)
  {
  }

  lemma OpeningKeepsFreeze(s: State, was: View, me: View, at: nat)
    requires at < |s.docs| && Get(was, visibility) == Some(Private)
    requires Get(me, repoName) == Get(was, repoName) && Get(me, forkOf) == Get(was, forkOf)
    ensures FreezeKept(RepoFrozen, Env(s.docs[at := Doc(Repo, me, true)], me, Some(was)))
  {
    assert RepoFrozen[0].f == repoName && RepoFrozen[1].f == forkOf;
    assert RepoFrozen[2] == Frozen(visibility, Equal(OldProp(visibility), Lit(Public)));
  }
}
