/** When a bot's push is accepted: in plain terms, and both ways. */
module BotPushExact {
  import opened Rules
  import opened Chain
  import opened ForgeContracts
  import opened Membership
  import opened BotPush

  /** The update names a live repository and bears its visibility. */
  predicate StampsRepo(docs: seq<Doc>, me: View) {
    exists r | 0 <= r < |docs| ::
      Get(me, repoId) == Some(Ident(r)) && docs[r].live && docs[r].typ == Repo && Get(docs[r].view, visibility) == Get(me, vis)
  }

  /** What a push with the bot's claim needs of the log: its repository, a maintainer's or a bot's row of
      its writer, and a grant. */
  ghost predicate MayPush(docs: seq<Doc>, me: View) {
    && StampsRepo(docs, me)
    && (Maintains(docs, Get(me, repoId), Get(me, ownerId)) || HasRole(docs, Get(me, repoId), Get(me, ownerId), 4))
    && exists g: nat :: GrantedPush(docs, me, g)
  }

  // ---- from the plain terms to the references -----------------------------------------------------------

  lemma Through(docs: seq<Doc>, leaves: seq<Leaf>, k: nat, i: nat, value: Option<Value>, me: View)
    requires k < |leaves| && i < |docs| && Serves(docs[i], leaves[k], value, me)
    ensures Refers(docs, leaves, value, me)
  {
    assert Finds(docs, leaves[k], value, me);
  }

  lemma RowServes(d: Doc, t: DocType, conds: seq<(Field, Cond)>, who: Option<Value>, me: View)
    requires Row(d, t, Get(me, repoId), who)
    requires forall k | 0 <= k < |conds| :: CondHolds(conds[k].1, Get(d.view, conds[k].0), me)
    ensures Serves(d, Member(t, conds), who, me)
  {
  }

  lemma IdServes(docs: seq<Doc>, p: nat, t: DocType, conds: seq<(Field, Cond)>, me: View)
    requires IdsArePositions(docs) && p < |docs| && docs[p].live && docs[p].typ == t
    requires forall k | 0 <= k < |conds| :: CondHolds(conds[k].1, Get(docs[p].view, conds[k].0), me)
    ensures Serves(docs[p], ById(t, conds), Some(Ident(p)), me)
  {
  }

  lemma MaintainerRefers(docs: seq<Doc>, who: Option<Value>, me: View)
    requires Maintains(docs, Get(me, repoId), who)
    ensures Refers(docs, [Member(Maintainer, [])], who, me)
  {
    var i :| 0 <= i < |docs| && Row(docs[i], Maintainer, Get(me, repoId), who);
    RowServes(docs[i], Maintainer, [], who, me);
    Through(docs, [Member(Maintainer, [])], 0, i, who, me);
  }

  lemma PusherRefers(docs: seq<Doc>, who: Option<Value>, me: View)
    requires Maintains(docs, Get(me, repoId), who) || HasRole(docs, Get(me, repoId), who, 4)
    requires Get(me, rClaim) == Some(Int(4))
    ensures Refers(docs, [Member(Maintainer, []), Member(Writer, [(role, Agrees(rClaim))])], who, me)
  {
    var conds := [(role, Agrees(rClaim))];
    var leaves := [Member(Maintainer, []), Member(Writer, conds)];
    if Maintains(docs, Get(me, repoId), who) {
      var i :| 0 <= i < |docs| && Row(docs[i], Maintainer, Get(me, repoId), who);
      RowServes(docs[i], Maintainer, [], who, me);
      Through(docs, leaves, 0, i, who, me);
    } else {
      var i :| 0 <= i < |docs| && Row(docs[i], Writer, Get(me, repoId), who) && Get(docs[i].view, role) == Some(Int(4));
      RowServes(docs[i], Writer, conds, who, me);
      Through(docs, leaves, 1, i, who, me);
    }
  }

  lemma RepoRefers(docs: seq<Doc>, me: View)
    requires IdsArePositions(docs) && StampsRepo(docs, me)
    ensures Refers(docs, RepoVis, Get(me, repoId), me)
  {
    var r :| 0 <= r < |docs| && Get(me, repoId) == Some(Ident(r)) && docs[r].live && docs[r].typ == Repo && Get(docs[r].view, visibility) == Get(me, vis);
    IdServes(docs, r, Repo, [(visibility, Agrees(vis))], me);
    Through(docs, RepoVis, 0, r, Get(me, repoId), me);
  }

  lemma GrantConds(d: Doc, extra: seq<(Field, Cond)>, me: View)
    requires Covers(d, me) && until in d.view && d.view[until].Int? && createdAt in me
    requires forall k | 0 <= k < |extra| :: CondHolds(extra[k].1, Get(d.view, extra[k].0), me)
    ensures var conds := GrantLeaf(extra).conds; forall k | 0 <= k < |conds| :: CondHolds(conds[k].1, Get(d.view, conds[k].0), me)
  {
    var base := [(repoId, Agrees(repoId)), (botId, Agrees(ownerId)), (ownerId, Agrees(grantor)), (until, NotBefore(createdAt))];
    var conds := GrantLeaf(extra).conds;
    assert conds == base + extra;
    forall k | 0 <= k < |conds| ensures CondHolds(conds[k].1, Get(d.view, conds[k].0), me) {
      if k >= 4 {
        assert conds[k] == extra[k - 4];
      }
    }
  }

  lemma GrantRefers(docs: seq<Doc>, extra: seq<(Field, Cond)>, g: nat, me: View)
    requires IdsArePositions(docs) && g < |docs| && Covers(docs[g], me)
    requires until in docs[g].view && docs[g].view[until].Int? && createdAt in me
    requires forall k | 0 <= k < |extra| :: CondHolds(extra[k].1, Get(docs[g].view, extra[k].0), me)
    ensures Refers(docs, [GrantLeaf(extra)], Some(Ident(g)), me)
  {
    GrantConds(docs[g], extra, me);
    IdServes(docs, g, PushGrant, GrantLeaf(extra).conds, me);
    Through(docs, [GrantLeaf(extra)], 0, g, Some(Ident(g)), me);
  }

  lemma StoredGrant(s: State, g: nat)
    requires Sound(Forge, s) && g < |s.docs| && s.docs[g].typ == PushGrant
    ensures until in s.docs[g].view && s.docs[g].view[until].Int? && ownerId in s.docs[g].view
  {
    StoredInt(Forge, s, g, PushGrantSchema, until);
  }

  lemma StoredInt(C: Contract, s: State, i: nat, sch: TypeSchema, f: Field)
    requires Sound(C, s) && i < |s.docs| && C(s.docs[i].typ) == sch && f in sch.required && KindOf(f) == IntKind
    ensures f in s.docs[i].view && s.docs[i].view[f].Int? && ownerId in s.docs[i].view
  {
    SoundStands(C, s, i, sch);
    RequiredInt(sch, s.docs[i].view, f);
  }

  /** The four references of an update that stands under the grant `g`. */
  lemma PushRefers(s: State, me: View, g: nat)
    requires Sound(Forge, s) && StampsRepo(s.docs, me) && GrantedPush(s.docs, me, g) && createdAt in me
    ensures Refers(s.docs, RepoVis, Get(me, repoId), me)
    ensures pg in me ==> Refers(s.docs, [GrantLeaf([(scope, Agrees(refNameHash))])], Get(me, pg), me)
    ensures pp in me ==> Refers(s.docs, [GrantLeaf([])], Get(me, pp), me)
    ensures grantor in me && Refers(s.docs, [Member(Maintainer, [])], Get(me, grantor), me)
  {
    SoundIds(Forge, s);
    StoredGrant(s, g);
    RepoRefers(s.docs, me);
    MaintainerRefers(s.docs, Get(me, grantor), me);
    if pg in me {
      GrantRefers(s.docs, [(scope, Agrees(refNameHash))], g, me);
    } else {
      GrantRefers(s.docs, [], g, me);
    }
  }

  lemma FourRefs(sch: TypeSchema, docs: seq<Doc>, me: View)
    requires sch.refs == RefUpdateSchema.refs
    requires Refers(docs, RepoVis, Get(me, repoId), me)
    requires pg in me ==> Refers(docs, [GrantLeaf([(scope, Agrees(refNameHash))])], Get(me, pg), me)
    requires pp in me ==> Refers(docs, [GrantLeaf([])], Get(me, pp), me)
    requires grantor in me ==> Refers(docs, [Member(Maintainer, [])], Get(me, grantor), me)
    ensures forall k | 0 <= k < |sch.refs| :: PropertyRefers(docs, me, sch.refs[k])
  {
    var refs := sch.refs;
    assert |refs| == 4 && refs[0] == (repoId, RepoVis) && refs[1] == (pg, [GrantLeaf([(scope, Agrees(refNameHash))])]);
    assert refs[2] == (pp, [GrantLeaf([])]) && refs[3] == (grantor, [Member(Maintainer, [])]);
  }

  lemma PrefixHolds(docs: seq<Doc>, me: View, g: nat)
    requires GrantedPush(docs, me, g)
    ensures Holds(GrantPrefix, Env(docs + [Doc(RefUpdate, me, true)], me, None))
  {
    if pp in me {
      var all := docs + [Doc(RefUpdate, me, true)];
      assert all[g] == docs[g];
      assert Lookup(all, Get(me, pp)) == Some(docs[g]);
      UnderPrefix(Env(all, me, None), docs[g]);
    }
  }

  lemma {:induction false} UnderPrefix(env: Env, d: Doc)
    requires Lookup(env.docs, Get(env.me, pp)) == Some(d) && prefix in d.view && d.view[prefix].Text?
    requires refName in env.me && env.me[refName].Text? && d.view[prefix].s <= env.me[refName].s
    ensures Holds(GrantPrefix, env)
  {
  }

  /** An accepted create, from what is asked of it. */
  lemma {:induction false} CreateAccepted(C: Contract, s: State, signer: nat, t: DocType, data: View, sch: TypeSchema, rule: Rule)
    requires C(t) == sch && sch.unique == [] && sch.chainRules == [rule]
    requires var me := CreatedView(s, signer, data);
      && Standing(sch, me) && Holds(rule, Env(s.docs + [Doc(t, me, true)], me, None))
      && OwnerAdmitted(sch, s.docs, me) && (forall k | 0 <= k < |sch.refs| :: PropertyRefers(s.docs, me, sch.refs[k]))
    ensures AcceptsCreate(C, s, signer, t, data)
  {
  }

  lemma RefUpdateForm()
    ensures Forge(RefUpdate) == RefUpdateSchema && RefUpdateSchema.unique == [] && RefUpdateSchema.chainRules == [GrantPrefix]
    ensures RefUpdateSchema.ownerRef == [Member(Maintainer, []), Member(Writer, [(role, Agrees(rClaim))])]
  {
  }

  /** The general converse: a push with the bot's claim that stands on its own, names a live repository
      with its visibility, and comes from a member under a grant, is accepted. */
  lemma GrantedPushesAreAccepted(s: State, signer: nat, data: View)
    requires Sound(Forge, s) && Get(CreatedView(s, signer, data), rClaim) == Some(Int(4))
    requires Standing(RefUpdateSchema, CreatedView(s, signer, data)) && MayPush(s.docs, CreatedView(s, signer, data))
    ensures AcceptsCreate(Forge, s, signer, RefUpdate, data)
  {
    var me := CreatedView(s, signer, data);
    var g: nat :| GrantedPush(s.docs, me, g);
    RefUpdateForm();
    PushRefers(s, me, g);
    FourRefs(RefUpdateSchema, s.docs, me);
    PusherRefers(s.docs, Get(me, ownerId), me);
    PrefixHolds(s.docs, me, g);
    CreateAccepted(Forge, s, signer, RefUpdate, data, RefUpdateSchema, GrantPrefix);
  }

  // ---- and back -------------------------------------------------------------------------------------------

  lemma RepoStamped(s: State, signer: nat, data: View)
    requires Sound(Forge, s) && AcceptsCreate(Forge, s, signer, RefUpdate, data)
    ensures StampsRepo(s.docs, CreatedView(s, signer, data))
  {
    var me := CreatedView(s, signer, data);
    CreateRefers(Forge, s, signer, RefUpdate, data, 0);
    assert RefUpdateSchema.refs[0] == (repoId, RepoVis);
    assert repoId in RefUpdateSchema.required;
    SoundIds(Forge, s);
    StampFound(s.docs, me);
  }

  lemma StampFound(docs: seq<Doc>, me: View)
    requires IdsArePositions(docs) && Refers(docs, RepoVis, Get(me, repoId), me)
    ensures StampsRepo(docs, me)
  {
    var conds := [(visibility, Agrees(vis))];
    assert RepoVis[0] == Leaf(Repo, [(docId, Own)], conds);
    var r := FoundById(docs, Repo, conds, Get(me, repoId), me);
    assert conds[0] == (visibility, Agrees(vis));
  }

  lemma PusherFound(s: State, who: Option<Value>, me: View)
    requires Sound(Forge, s) && Get(me, rClaim) == Some(Int(4))
    requires Refers(s.docs, [Member(Maintainer, []), Member(Writer, [(role, Agrees(rClaim))])], who, me)
    ensures Maintains(s.docs, Get(me, repoId), who) || HasRole(s.docs, Get(me, repoId), who, 4)
  {
    var leaves := [Member(Maintainer, []), Member(Writer, [(role, Agrees(rClaim))])];
    var k :| 0 <= k < |leaves| && Finds(s.docs, leaves[k], who, me);
    if k == 0 {
      MaintainerFound(s.docs, who, me);
    } else {
      WriterRoles(s);
      ClaimFound(s.docs, rClaim, who, me);
    }
  }

  lemma AcceptedPusher(s: State, signer: nat, data: View)
    requires Sound(Forge, s) && Get(CreatedView(s, signer, data), rClaim) == Some(Int(4))
    requires AcceptsCreate(Forge, s, signer, RefUpdate, data)
    ensures var repo := Get(CreatedView(s, signer, data), repoId);
            Maintains(s.docs, repo, Some(Ident(signer))) || HasRole(s.docs, repo, Some(Ident(signer)), 4)
  {
    RefUpdateForm();
    CreateOwner(Forge, s, signer, RefUpdate, data);
    PusherFound(s, Some(Ident(signer)), CreatedView(s, signer, data));
  }

  lemma AcceptedGrant(s: State, signer: nat, data: View) returns (g: nat)
    requires Sound(Forge, s) && Get(CreatedView(s, signer, data), rClaim) == Some(Int(4))
    requires AcceptsCreate(Forge, s, signer, RefUpdate, data)
    ensures GrantedPush(s.docs, CreatedView(s, signer, data), g)
  {
    RefUpdateFacts(s, signer, data);
    GrantRefs(s, signer, data);
    g := BotCases(s, CreatedView(s, signer, data));
  }

  lemma Together(docs: seq<Doc>, me: View, who: Option<Value>, g: nat)
    requires Get(me, ownerId) == who && StampsRepo(docs, me) && GrantedPush(docs, me, g)
    requires Maintains(docs, Get(me, repoId), who) || HasRole(docs, Get(me, repoId), who, 4)
    ensures MayPush(docs, me)
  {
  }

  lemma SignerOwns(s: State, signer: nat, data: View)
    ensures Get(CreatedView(s, signer, data), ownerId) == Some(Ident(signer))
  {
  }

  lemma AcceptedMayPush(s: State, signer: nat, data: View, me: View)
    requires Sound(Forge, s) && me == CreatedView(s, signer, data) && Get(me, rClaim) == Some(Int(4))
    requires AcceptsCreate(Forge, s, signer, RefUpdate, data)
    ensures MayPush(s.docs, me)
  {
    SignerOwns(s, signer, data);
    var g := AcceptedGrant(s, signer, data);
    AcceptedPusher(s, signer, data);
    RepoStamped(s, signer, data);
    Together(s.docs, me, Some(Ident(signer)), g);
  }

  /** In every reachable state a push with the bot's claim (r = 4) is accepted exactly when its document
      stands on its own, it names a live repository and bears its visibility, its writer holds a
      maintainer's or a bot's row there, and it stands under a grant. */
  lemma {:induction false} BotPushAcceptedIff(ops: seq<Op>, signer: nat, data: View)
    requires Get(CreatedView(Run(Forge, ops), signer, data), rClaim) == Some(Int(4))
    ensures var s := Run(Forge, ops);
            var me := CreatedView(s, signer, data);
            AcceptsCreate(Forge, s, signer, RefUpdate, data) <==> Standing(RefUpdateSchema, me) && MayPush(s.docs, me)
  {
    var s := Run(Forge, ops);
    RunSound(Forge, ops);
    if AcceptsCreate(Forge, s, signer, RefUpdate, data) {
      RefUpdateForm();
      CreateLeaves(Forge, s, signer, RefUpdate, data, RefUpdateSchema);
      AcceptedMayPush(s, signer, data, CreatedView(s, signer, data));
    }
    if Standing(RefUpdateSchema, CreatedView(s, signer, data)) && MayPush(s.docs, CreatedView(s, signer, data)) {
      GrantedPushesAreAccepted(s, signer, data);
    }
  }

  // ---- any branch under a granted prefix --------------------------------------------------------------------

  /** The update pushes the branch `name` of repository `r` in plaintext to the commit `tip`, with the bot's
      claim, under the prefix grant `g` of `who`. */
  predicate PushesBranch(me: View, r: nat, tip: seq<nat>, name: string, g: nat, who: nat) {
    && Get(me, repoId) == Some(Ident(r)) && refNameHash in me && Get(me, newOid) == Some(Bytes(tip)) && Get(me, vis) == Some(Public)
    && Get(me, rClaim) == Some(Int(4)) && Get(me, refName) == Some(Text(name))
    && Get(me, pp) == Some(Ident(g)) && Get(me, grantor) == Some(Ident(who))
    && enc !in me && pg !in me && prevOid !in me
  }

  lemma {:induction false} FivePass(a: Rule, b: Rule, c: Rule, d: Rule, e: Rule, me: View)
    requires Holds(a, Alone(me)) && Holds(b, Alone(me)) && Holds(c, Alone(me)) && Holds(d, Alone(me)) && Holds(e, Alone(me))
    ensures Passed([a, b, c, d, e], me)
  {
  }

  lemma PushNames(me: View, name: string)
    requires Get(me, vis) == Some(Public) && enc !in me && Get(me, refName) == Some(Text(name)) && !Suffix(".lock", name)
    ensures Holds(NoPlainCore(Absent(refName)), Alone(me)) && Holds(HasName, Alone(me)) && Holds(NoLock, Alone(me))
  {
  }

  lemma PushOids(me: View, tip: seq<nat>)
    requires Get(me, newOid) == Some(Bytes(tip)) && |tip| in {20, 32} && prevOid !in me
    ensures Holds(RefOidWidth, Alone(me))
  {
    assert Int(|tip|) in [Int(20), Int(32)] && Int(0) in [Int(0), Int(20), Int(32)];
  }

  lemma PushClaims(me: View)
    requires Get(me, rClaim) == Some(Int(4)) && pp in me && pg !in me
    ensures Holds(BotGrant, Alone(me))
  {
  }

  lemma PushBounds(me: View)
    requires Get(me, rClaim) == Some(Int(4)) && Get(me, vis) == Some(Public)
    ensures Passed(RefUpdateSchema.bounds, me)
  {
    assert Public in [Public, Private];
  }

  lemma PushRules(me: View, r: nat, tip: seq<nat>, name: string, g: nat, who: nat)
    requires PushesBranch(me, r, tip, name, g, who) && |tip| in {20, 32} && !Suffix(".lock", name)
    ensures Passed(RefUpdateRules, me)
  {
    PushNames(me, name);
    PushOids(me, tip);
    PushClaims(me);
    FivePass(NoPlainCore(Absent(refName)), HasName, NoLock, RefOidWidth, BotGrant, me);
  }

  /** Every created view bears the system properties, well kinded when the data are. */
  lemma CreatedShape(s: State, signer: nat, data: View)
    requires WellKinded(data)
    ensures var me := CreatedView(s, signer, data);
      WellKinded(me) && {docId, ownerId, createdAt, updatedAt, revision} <= me.Keys
      && Get(me, ownerId) == Some(Ident(signer)) && Get(me, createdAt) == Some(Int(s.now))
  {
  }

  lemma PushStands(sch: TypeSchema, me: View)
    requires sch.required == {repoId, refNameHash, newOid, vis, rClaim} && sch.dependent == [(enc, epoch)]
    requires {repoId, refNameHash, newOid, vis, rClaim} <= me.Keys && enc !in me
    requires WellKinded(me) && {docId, ownerId, createdAt, updatedAt, revision} <= me.Keys && Passed(sch.bounds, me) && Passed(sch.rules, me)
    ensures Standing(sch, me)
  {
  }

  lemma BranchPushStands(me: View, r: nat, tip: seq<nat>, name: string, g: nat, who: nat)
    requires PushesBranch(me, r, tip, name, g, who) && |tip| in {20, 32} && !Suffix(".lock", name)
    requires WellKinded(me) && {docId, ownerId, createdAt, updatedAt, revision} <= me.Keys
    ensures Standing(RefUpdateSchema, me)
  {
    PushRules(me, r, tip, name, g, who);
    PushBounds(me);
    PushStands(RefUpdateSchema, me);
  }

  /** A live grant of a branch prefix over `name`, not yet ended. */
  predicate LiveGrant(docs: seq<Doc>, now: nat, r: nat, bot: nat, who: nat, g: nat, name: string) {
    && g < |docs| && docs[g].live && docs[g].typ == PushGrant
    && Get(docs[g].view, repoId) == Some(Ident(r)) && Get(docs[g].view, botId) == Some(Ident(bot)) && Get(docs[g].view, ownerId) == Some(Ident(who))
    && IntOf(docs[g].view, until) >= now
    && prefix in docs[g].view && docs[g].view[prefix].Text? && docs[g].view[prefix].s <= name
  }

  lemma PushIsGranted(s: State, me: View, r: nat, tip: seq<nat>, name: string, g: nat, who: nat, bot: nat)
    requires Sound(Forge, s) && PushesBranch(me, r, tip, name, g, who) && LiveGrant(s.docs, s.now, r, bot, who, g, name)
    requires Get(me, ownerId) == Some(Ident(bot)) && Get(me, createdAt) == Some(Int(s.now))
    requires Maintains(s.docs, Some(Ident(r)), Some(Ident(who)))
    ensures GrantedPush(s.docs, me, g)
  {
    GrantStands(s, g);
  }

  /** A public repository where `who` maintains and the bot has its row. */
  predicate Enrolled(docs: seq<Doc>, r: nat, who: nat, bot: nat) {
    && r < |docs| && docs[r].live && docs[r].typ == Repo && Get(docs[r].view, visibility) == Some(Public)
    && Maintains(docs, Some(Ident(r)), Some(Ident(who))) && HasRole(docs, Some(Ident(r)), Some(Ident(bot)), 4)
  }

  lemma EnrolledMayPush(s: State, me: View, r: nat, tip: seq<nat>, name: string, g: nat, who: nat, bot: nat)
    requires Sound(Forge, s) && Enrolled(s.docs, r, who, bot) && LiveGrant(s.docs, s.now, r, bot, who, g, name)
    requires PushesBranch(me, r, tip, name, g, who) && Get(me, ownerId) == Some(Ident(bot)) && Get(me, createdAt) == Some(Int(s.now))
    ensures MayPush(s.docs, me)
  {
    PushIsGranted(s, me, r, tip, name, g, who, bot);
    assert Get(me, repoId) == Some(Ident(r)) && Get(s.docs[r].view, visibility) == Get(me, vis);
  }

  /** In every reachable state: for any public repository, any bot with a row there, any live grant of a
      maintainer to it and any branch name under the granted prefix, the bot's push of that branch to
      any commit is accepted. */
  lemma {:induction false} BranchPushIsAccepted(ops: seq<Op>, bot: nat, data: View, r: nat, tip: seq<nat>, name: string, g: nat, who: nat)
    requires var s := Run(Forge, ops); Enrolled(s.docs, r, who, bot) && LiveGrant(s.docs, s.now, r, bot, who, g, name)
    requires WellKinded(data) && PushesBranch(CreatedView(Run(Forge, ops), bot, data), r, tip, name, g, who)
    requires |tip| in {20, 32} && !Suffix(".lock", name)
    ensures AcceptsCreate(Forge, Run(Forge, ops), bot, RefUpdate, data)
  {
    var s := Run(Forge, ops);
    var me := CreatedView(s, bot, data);
    RunSound(Forge, ops);
    CreatedShape(s, bot, data);
    BranchPushStands(me, r, tip, name, g, who);
    EnrolledMayPush(s, me, r, tip, name, g, who, bot);
    BotPushAcceptedIff(ops, bot, data);
  }
}
